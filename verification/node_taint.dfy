/**
 * The node-taint remover: once the provisioner is ready, it removes the
 * taint that kept volume-consuming pods off the node.  The taint is removed
 * at most once; a few attempts are made, separated by a randomized backoff
 * whose sleeping is not modelled.
 */
module NodeTaint {
  import opened Wrappers
  import opened Api

  /** How many times `RemoveTaintWithBackoff` tries. */
  const MaxRemoveTaintRetries: nat := 3

  /** The taints whose key is not `key`, in their original order. */
  function WithoutKey(taints: seq<Taint>, key: string): seq<Taint>
    decreases |taints|
  {
    if taints == [] then []
    else
      var rest := WithoutKey(taints[..|taints| - 1], key);
      if taints[|taints| - 1].key == key then rest else rest + [taints[|taints| - 1]]
  }

  /** Whether some taint has the key. */
  predicate HasKey(taints: seq<Taint>, key: string) {
    exists i :: 0 <= i < |taints| && taints[i].key == key
  }

  /** Filtering commutes with concatenation, so the surviving taints keep their order. */
  lemma {:induction false} WithoutKeyAppend(a: seq<Taint>, b: seq<Taint>, key: string)
    ensures WithoutKey(a + b, key) == WithoutKey(a, key) + WithoutKey(b, key)
    decreases |b|
  {
    if b == [] {
      assert a + b == a;
    } else {
      var b' := b[..|b| - 1];
      WithoutKeyAppend(a, b', key);
      assert (a + b)[..|a + b| - 1] == a + b';
    }
  }

  /** Exactly the taints without the key survive. */
  lemma {:induction false} WithoutKeyMembers(taints: seq<Taint>, key: string)
    ensures forall t :: t in WithoutKey(taints, key) <==> t in taints && t.key != key
    decreases |taints|
  {
    if taints != [] {
      var prefix := taints[..|taints| - 1];
      WithoutKeyMembers(prefix, key);
      assert taints == prefix + [taints[|taints| - 1]];
    }
  }

  /** The list gets shorter exactly when some taint has the key. */
  lemma {:induction false} WithoutKeyShrinksIff(taints: seq<Taint>, key: string)
    ensures |WithoutKey(taints, key)| <= |taints|
    ensures |WithoutKey(taints, key)| < |taints| <==> HasKey(taints, key)
    decreases |taints|
  {
    if taints != [] {
      var prefix := taints[..|taints| - 1];
      var last := taints[|taints| - 1];
      WithoutKeyShrinksIff(prefix, key);
      if HasKey(prefix, key) {
        var i :| 0 <= i < |prefix| && prefix[i].key == key;
        assert taints[i].key == key;
      }
      if HasKey(taints, key) && last.key != key {
        var i :| 0 <= i < |taints| && taints[i].key == key;
        assert prefix[i].key == key;
      }
    }
  }

  /** A list with no taint of the key is left as it is, so filtering twice is filtering once. */
  lemma WithoutKeyIdempotent(taints: seq<Taint>, key: string)
    ensures WithoutKey(WithoutKey(taints, key), key) == WithoutKey(taints, key)
  {
    var once := WithoutKey(taints, key);
    WithoutKeyMembers(taints, key);
    WithoutKeyShrinksIff(once, key);
    forall i | 0 <= i < |once|
      ensures once[i].key != key
    {
      assert once[i] in once;
    }
    WithoutKeyKeepsKeyless(once, key);
  }

  /** Without a taint of the key, filtering keeps every taint. */
  lemma {:induction false} WithoutKeyKeepsKeyless(taints: seq<Taint>, key: string)
    requires !HasKey(taints, key)
    ensures WithoutKey(taints, key) == taints
    decreases |taints|
  {
    if taints != [] {
      var prefix := taints[..|taints| - 1];
      forall i | 0 <= i < |prefix|
        ensures prefix[i].key != key
      {
        assert prefix[i] == taints[i];
      }
      WithoutKeyKeepsKeyless(prefix, key);
      assert taints == prefix + [taints[|taints| - 1]];
    }
  }

  /** What the API server answers in one attempt: the node it returns, and whether the update fails. */
  datatype Attempt = Attempt(node: Node, updateFails: bool)

  /** Whether an attempt ends the backoff loop: no taint to remove, or the update goes through. */
  predicate AttemptSucceeds(a: Attempt, key: string) {
    !HasKey(a.node.taints, key) || !a.updateFails
  }

  /** The node an attempt sends: the returned node without the taint. */
  function Untainted(a: Attempt, key: string): Node {
    a.node.(taints := WithoutKey(a.node.taints, key))
  }

  /** The course of the backoff loop: the attempts made, the updates sent, and whether the taint ends up removed. */
  datatype BackoffRun = BackoffRun(calls: nat, updates: seq<Node>, removed: bool)

  /** The backoff loop from attempt `k` on, when the taint is still to be removed. */
  function BackoffFrom(attempt: nat -> Attempt, key: string, k: nat): BackoffRun
    requires k <= MaxRemoveTaintRetries
    decreases MaxRemoveTaintRetries - k
  {
    if k == MaxRemoveTaintRetries then BackoffRun(0, [], false)
    else
      var a := attempt(k);
      if !HasKey(a.node.taints, key) then BackoffRun(1, [], false)
      else if !a.updateFails then BackoffRun(1, [Untainted(a, key)], true)
      else
        var rest := BackoffFrom(attempt, key, k + 1);
        BackoffRun(1 + rest.calls, [Untainted(a, key)] + rest.updates, rest.removed)
  }

  /** The updates the first `k` attempts send when each of them fails. */
  function FailedUpdates(attempt: nat -> Attempt, key: string, k: nat): seq<Node>
    decreases k
  {
    if k == 0 then [] else FailedUpdates(attempt, key, k - 1) + [Untainted(attempt(k - 1), key)]
  }

  /** A failed attempt sends its update and hands over to the next attempt. */
  lemma BackoffFailedStep(attempt: nat -> Attempt, key: string, k: nat)
    requires k < MaxRemoveTaintRetries
    requires !AttemptSucceeds(attempt(k), key)
    ensures var rest := BackoffFrom(attempt, key, k + 1);
      BackoffFrom(attempt, key, k) == BackoffRun(1 + rest.calls, [Untainted(attempt(k), key)] + rest.updates, rest.removed)
  {
  }

  /** A successful attempt ends the run; it has removed the taint iff it found one. */
  lemma BackoffLastStep(attempt: nat -> Attempt, key: string, k: nat)
    requires k < MaxRemoveTaintRetries
    requires AttemptSucceeds(attempt(k), key)
    ensures var a := attempt(k);
      BackoffFrom(attempt, key, k) ==
        BackoffRun(1, if HasKey(a.node.taints, key) then [Untainted(a, key)] else [], HasKey(a.node.taints, key))
  {
  }

  /** After `k` failed attempts, the whole run is those failures followed by the run from attempt `k`. */
  lemma {:induction false} BackoffAfterFailures(attempt: nat -> Attempt, key: string, k: nat)
    requires k <= MaxRemoveTaintRetries
    requires forall j :: 0 <= j < k ==> !AttemptSucceeds(attempt(j), key)
    ensures var whole := BackoffFrom(attempt, key, 0);
            var rest := BackoffFrom(attempt, key, k);
      whole == BackoffRun(k + rest.calls, FailedUpdates(attempt, key, k) + rest.updates, rest.removed)
    decreases k
  {
    if k > 0 {
      BackoffAfterFailures(attempt, key, k - 1);
      BackoffFailedStep(attempt, key, k - 1);
      var rest := BackoffFrom(attempt, key, k);
      var failed := FailedUpdates(attempt, key, k - 1);
      assert failed + ([Untainted(attempt(k - 1), key)] + rest.updates)
          == FailedUpdates(attempt, key, k) + rest.updates;
    }
  }

  /**
   * The loop makes between one and three attempts, stops right after the
   * first one that succeeds, and removes the taint iff its last attempt
   * found the taint and updated the node.
   */
  lemma {:induction false} BackoffBounded(attempt: nat -> Attempt, key: string, k: nat)
    requires k <= MaxRemoveTaintRetries
    ensures var run := BackoffFrom(attempt, key, k);
      && run.calls <= MaxRemoveTaintRetries - k
      && (k < MaxRemoveTaintRetries ==> run.calls >= 1)
      && (forall j :: k <= j < k + run.calls - 1 ==> !AttemptSucceeds(attempt(j), key))
      && (run.calls > 0 && k + run.calls < MaxRemoveTaintRetries ==> AttemptSucceeds(attempt(k + run.calls - 1), key))
      && (run.removed <==> run.calls > 0 && HasKey(attempt(k + run.calls - 1).node.taints, key)
                           && !attempt(k + run.calls - 1).updateFails)
      && |run.updates| <= run.calls
    decreases MaxRemoveTaintRetries - k
  {
    if k < MaxRemoveTaintRetries {
      BackoffBounded(attempt, key, k + 1);
    }
  }

  class Remover {
    /** Whether the user asked for the not-ready taint to be removed. */
    const removeNodeNotReadyTaint: bool
    /** The key of the not-ready taint. */
    const taintKey: string
    var taintRemoved: bool
    /** The node updates sent so far, in order. */
    var updates: seq<Node>

    constructor (removeNodeNotReadyTaint: bool, taintKey: string)
      ensures this.removeNodeNotReadyTaint == removeNodeNotReadyTaint && this.taintKey == taintKey
      ensures !taintRemoved && updates == []
    {
      this.removeNodeNotReadyTaint := removeNodeNotReadyTaint;
      this.taintKey := taintKey;
      taintRemoved := false;
      updates := [];
    }

    /** `ShouldRemoveTaint`: removal is wanted and has not happened yet. */
    predicate ShouldRemoveTaint()
      reads this
    {
      !taintRemoved && removeNodeNotReadyTaint
    }

    /**
     * `RemoveNodeTaint`: when removal is still wanted, send the node back
     * without the taint, if it has it; the flag is set only by an update
     * that goes through, and never cleared.
     */
    method RemoveNodeTaint(a: Attempt) returns (err: Option<string>)
      modifies this
      ensures !old(ShouldRemoveTaint()) ==> err.None? && taintRemoved == old(taintRemoved) && updates == old(updates)
      ensures old(ShouldRemoveTaint()) && !HasKey(a.node.taints, taintKey) ==>
        err.None? && !taintRemoved && updates == old(updates)
      ensures old(ShouldRemoveTaint()) && HasKey(a.node.taints, taintKey) ==>
        && updates == old(updates) + [Untainted(a, taintKey)]
        && (taintRemoved <==> !a.updateFails)
        && (err.None? <==> !a.updateFails)
      ensures old(taintRemoved) ==> taintRemoved
    {
      if !removeNodeNotReadyTaint || taintRemoved {
        return None;
      }
      var node := a.node;
      var taintExists := false;
      var currTaints: seq<Taint> := [];
      for i := 0 to |node.taints|
        invariant currTaints == WithoutKey(node.taints[..i], taintKey)
        invariant taintExists <==> HasKey(node.taints[..i], taintKey)
      {
        var taint := node.taints[i];
        assert node.taints[..i + 1][..i] == node.taints[..i];
        assert node.taints[..i + 1][i] == taint;
        if taint.key == taintKey {
          taintExists := true;
        } else {
          currTaints := currTaints + [taint];
        }
      }
      assert node.taints[..|node.taints|] == node.taints;
      if !taintExists {
        return None;
      }
      updates := updates + [node.(taints := currTaints)];
      if a.updateFails {
        return Some("failed to remove node taint " + taintKey + " from node " + node.name);
      }
      taintRemoved := true;
      return None;
    }

    /**
     * `RemoveTaintWithBackoff`: attempt after attempt (the `k`-th answered
     * by `attempt(k)`) while removal is wanted, at most three times,
     * stopping at the first attempt that returns no error.
     */
    method RemoveTaintWithBackoff(attempt: nat -> Attempt) returns (calls: nat)
      modifies this
      ensures !old(ShouldRemoveTaint()) ==> calls == 0 && taintRemoved == old(taintRemoved) && updates == old(updates)
      ensures old(ShouldRemoveTaint()) ==>
        var run := BackoffFrom(attempt, taintKey, 0);
        calls == run.calls && updates == old(updates) + run.updates && taintRemoved == run.removed
    {
      var retries := 0;
      calls := 0;
      while ShouldRemoveTaint() && retries < MaxRemoveTaintRetries
        invariant calls == retries <= MaxRemoveTaintRetries
        invariant !old(ShouldRemoveTaint()) ==> retries == 0 && taintRemoved == old(taintRemoved) && updates == old(updates)
        invariant old(ShouldRemoveTaint()) ==>
          && !taintRemoved
          && (forall j :: 0 <= j < retries ==> !AttemptSucceeds(attempt(j), taintKey))
          && updates == old(updates) + FailedUpdates(attempt, taintKey, retries)
        decreases MaxRemoveTaintRetries - retries
      {
        var a := attempt(retries);
        var err := RemoveNodeTaint(a);
        calls := calls + 1;
        if err.None? {
          BackoffAfterFailures(attempt, taintKey, retries);
          BackoffLastStep(attempt, taintKey, retries);
          return;
        }
        retries := retries + 1;
      }
      if old(ShouldRemoveTaint()) {
        BackoffAfterFailures(attempt, taintKey, retries);
      }
    }
  }
}
