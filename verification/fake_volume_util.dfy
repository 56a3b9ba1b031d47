/**
 * `FakeVolumeUtil`: the repository's deterministic stand-in for host probing.
 * The host is a map from a directory path to the entries listed under it;
 * every discovery scenario in the model runs against it.
 */
module FakeVolumeUtil {
  import opened Wrappers
  import opened Strings

  const FakeEntryFile: string := "file"
  const FakeEntryBlock: string := "block"
  const FakeEntryUnknown: string := "unknown"

  /** One directory entry: its name, its kind, the PV-name hash a test expects and its capacity. */
  datatype FakeDirEntry = FakeDirEntry(name: string, volumeType: string, hash: bv32, capacity: int)

  /** Index of the first entry called `name`, or -1: the `for _, f := range files` searches. */
  function FirstIndex(files: seq<FakeDirEntry>, name: string): (i: int)
    ensures -1 <= i < |files|
    ensures i >= 0 ==> files[i].name == name
    ensures forall j :: 0 <= j < |files| && (i < 0 || j < i) ==> files[j].name != name
    decreases |files|
  {
    if files == [] then -1
    else if files[0].name == name then 0
    else
      var k := FirstIndex(files[1..], name);
      if k < 0 then -1 else k + 1
  }

  /** The names of the entries, in stored order. */
  function EntryNames(files: seq<FakeDirEntry>): (names: seq<string>)
    ensures |names| == |files|
    ensures forall i :: 0 <= i < |files| ==> names[i] == files[i].name
  {
    seq(|files|, i requires 0 <= i < |files| => files[i].name)
  }

  /** The entries under `dir`, or the empty list when `dir` is not a key (Go's nil slice). */
  function Listed(m: map<string, seq<FakeDirEntry>>, dir: string): seq<FakeDirEntry> {
    if dir in m then m[dir] else []
  }

  /** The directory keys that `AddNewDirEntries` touches. */
  function Joined(mountDir: string, dirs: set<string>): set<string> {
    set d | d in dirs :: Join(mountDir, d)
  }

  lemma JoinedAddOne(mountDir: string, done: set<string>, dir: string)
    ensures Joined(mountDir, done + {dir}) == Joined(mountDir, done) + {Join(mountDir, dir)}
  {
  }

  /**
   * `now` is `before` with the entries of every directory in `dirs` appended
   * under its joined path, and every other directory untouched.
   */
  ghost predicate AppendedFor(before: map<string, seq<FakeDirEntry>>, now: map<string, seq<FakeDirEntry>>,
                              mountDir: string, dirFiles: map<string, seq<FakeDirEntry>>, dirs: set<string>)
    requires dirs <= dirFiles.Keys
  {
    && now.Keys == before.Keys + Joined(mountDir, dirs)
    && (forall d :: d in dirs ==> now[Join(mountDir, d)] == Listed(before, Join(mountDir, d)) + dirFiles[d])
    && (forall p :: p in before && p !in Joined(mountDir, dirs) ==> now[p] == before[p])
  }

  /** One round of the loop: the entries of `dir` appended under `mountDir/dir`. */
  function AppendDir(now: map<string, seq<FakeDirEntry>>, mountDir: string,
                     dirFiles: map<string, seq<FakeDirEntry>>, dir: string): map<string, seq<FakeDirEntry>>
    requires dir in dirFiles
  {
    var p := Join(mountDir, dir);
    now[p := Listed(now, p) + dirFiles[dir]]
  }

  lemma AppendOneMore(before: map<string, seq<FakeDirEntry>>, now: map<string, seq<FakeDirEntry>>,
                      mountDir: string, dirFiles: map<string, seq<FakeDirEntry>>, done: set<string>, dir: string)
    requires done <= dirFiles.Keys && dir in dirFiles && dir !in done
    requires AppendedFor(before, now, mountDir, dirFiles, done)
    ensures AppendedFor(before, AppendDir(now, mountDir, dirFiles, dir), mountDir, dirFiles, done + {dir})
  {
    var p := Join(mountDir, dir);
    forall d | d in done ensures Join(mountDir, d) != p {
      if Join(mountDir, d) == p { JoinInjective(mountDir, d, dir); }
    }
    assert p !in Joined(mountDir, done);
    assert Listed(now, p) == Listed(before, p);
    JoinedAddOne(mountDir, done, dir);
  }

  class FakeVolumeUtil {
    var directoryFiles: map<string, seq<FakeDirEntry>>
    var deleteShouldFail: bool

    constructor (deleteShouldFail: bool, dirFiles: map<string, seq<FakeDirEntry>>)
      ensures this.directoryFiles == dirFiles && this.deleteShouldFail == deleteShouldFail
    {
      this.directoryFiles := dirFiles;
      this.deleteShouldFail := deleteShouldFail;
    }

    /** Succeeds (with true) only for an entry of type file; block and unknown entries are errors. */
    function IsDir(fullPath: string): (r: Result<bool>)
      reads this
      ensures r.Ok? ==> r.value
      ensures r.Ok? <==>
        var (dir, file) := SplitClean(fullPath);
        dir in directoryFiles && FirstIndex(directoryFiles[dir], file) >= 0
        && directoryFiles[dir][FirstIndex(directoryFiles[dir], file)].volumeType == FakeEntryFile
    {
      var (dir, file) := SplitClean(fullPath);
      if dir !in directoryFiles then Err("directory not found")
      else
        var i := FirstIndex(directoryFiles[dir], file);
        if i < 0 then Err("directory entry not found")
        else if directoryFiles[dir][i].volumeType != FakeEntryFile then Err("not a file or directory")
        else Ok(true)
    }

    /** True iff the first entry with that name is a block entry; a missing directory or entry is an error. */
    function IsBlock(fullPath: string): (r: Result<bool>)
      reads this
      ensures r.Ok? <==>
        var (dir, file) := SplitClean(fullPath);
        dir in directoryFiles && FirstIndex(directoryFiles[dir], file) >= 0
      ensures r.Ok? ==>
        var (dir, file) := SplitClean(fullPath);
        r.value == (directoryFiles[dir][FirstIndex(directoryFiles[dir], file)].volumeType == FakeEntryBlock)
    {
      var (dir, file) := SplitClean(fullPath);
      if dir !in directoryFiles then Err("directory not found")
      else
        var i := FirstIndex(directoryFiles[dir], file);
        if i < 0 then Err("directory entry not found")
        else Ok(directoryFiles[dir][i].volumeType == FakeEntryBlock)
    }

    /** The entry names under `fullPath` in stored order; an unknown directory is an error. */
    function ReadDir(fullPath: string): (r: Result<seq<string>>)
      reads this
      ensures r.Ok? <==> fullPath in directoryFiles
      ensures r.Ok? ==> |r.value| == |directoryFiles[fullPath]|
      ensures r.Ok? ==> forall i :: 0 <= i < |r.value| ==> r.value[i] == directoryFiles[fullPath][i].name
    {
      if fullPath !in directoryFiles then Err("directory not found")
      else Ok(EntryNames(directoryFiles[fullPath]))
    }

    /** The stored capacity when the entry has the requested type; an error otherwise. */
    function GetDirEntryCapacity(fullPath: string, entryType: string): (r: Result<int>)
      reads this
      ensures r.Ok? <==>
        var (dir, file) := SplitClean(fullPath);
        dir in directoryFiles && FirstIndex(directoryFiles[dir], file) >= 0
        && directoryFiles[dir][FirstIndex(directoryFiles[dir], file)].volumeType == entryType
      ensures r.Ok? ==>
        var (dir, file) := SplitClean(fullPath);
        r.value == directoryFiles[dir][FirstIndex(directoryFiles[dir], file)].capacity
    {
      var (dir, file) := SplitClean(fullPath);
      if dir !in directoryFiles then Err("directory not found")
      else
        var i := FirstIndex(directoryFiles[dir], file);
        if i < 0 then Err("directory entry not found")
        else if directoryFiles[dir][i].volumeType != entryType then Err("directory entry has another type")
        else Ok(directoryFiles[dir][i].capacity)
    }

    /** Capacity of a mounted filesystem: looked up at the mount path, as a file entry. */
    function GetFsCapacityByte(hostPath: string, mountPath: string): Result<int>
      reads this
    {
      GetDirEntryCapacity(mountPath, FakeEntryFile)
    }

    /** Capacity of a block device: looked up as a block entry. */
    function GetBlockCapacityByte(fullPath: string): Result<int>
      reads this
    {
      GetDirEntryCapacity(fullPath, FakeEntryBlock)
    }

    /** True iff `mountPath` is in the mount table; otherwise an error, never `false`. */
    function IsLikelyMountPoint(hostPath: string, mountPath: string, mountPointMap: set<string>): (r: Result<bool>)
      ensures r.Ok? <==> mountPath in mountPointMap
      ensures r.Ok? ==> r.value
    {
      if mountPath !in mountPointMap then Err("not found in the mount table") else Ok(true)
    }

    /** Fails iff the fake was built with `deleteShouldFail`. */
    function DeleteContents(hostPath: string, mountPath: string): (r: Outcome)
      reads this
      ensures r.Fail? <==> deleteShouldFail
    {
      if deleteShouldFail then Fail("fake delete contents failed") else Pass
    }

    /**
     * Appends each listed directory's entries after the entries already stored
     * under `mountDir/dir`; every other directory keeps its listing.
     */
    method AddNewDirEntries(mountDir: string, dirFiles: map<string, seq<FakeDirEntry>>)
      modifies this
      ensures deleteShouldFail == old(deleteShouldFail)
      ensures AppendedFor(old(directoryFiles), directoryFiles, mountDir, dirFiles, dirFiles.Keys)
    {
      ghost var before := directoryFiles;
      var todo := dirFiles.Keys;
      while todo != {}
        invariant todo <= dirFiles.Keys
        invariant deleteShouldFail == old(deleteShouldFail)
        invariant AppendedFor(before, directoryFiles, mountDir, dirFiles, dirFiles.Keys - todo)
        decreases |todo|
      {
        var dir :| dir in todo;
        AppendOneMore(before, directoryFiles, mountDir, dirFiles, dirFiles.Keys - todo, dir);
        assert dirFiles.Keys - (todo - {dir}) == (dirFiles.Keys - todo) + {dir};
        // the source's `curFiles := directoryFiles[mountedPath]` followed by `append`
        directoryFiles := AppendDir(directoryFiles, mountDir, dirFiles, dir);
        todo := todo - {dir};
      }
    }
  }
}
