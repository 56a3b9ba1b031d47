/**
 * `GetLocalPersistentVolumeNodeNames`: the node names a local volume's node
 * affinity pins it to.  Within one selector term the hostname-`In`
 * expressions are intersected; across terms the results are united.
 */
module VolumeUtil {
  import opened Wrappers
  import opened Api
  import opened Strings

  predicate IsHostnameIn(e: NodeSelectorRequirement) {
    e.key == LabelHostname && e.op == In
  }

  function ValueSet(values: seq<string>): set<string> {
    set v | v in values
  }

  /**
   * The nodes one term selects, scanning its expressions left to right:
   * None while no hostname-`In` expression has been seen (Go's nil set).
   */
  function TermNodes(exprs: seq<NodeSelectorRequirement>): Option<set<string>>
    decreases |exprs|
  {
    if exprs == [] then None
    else
      var prev := TermNodes(exprs[..|exprs| - 1]);
      var e := exprs[|exprs| - 1];
      if !IsHostnameIn(e) then prev
      else if prev.None? then Some(ValueSet(e.values))
      else Some(prev.value * ValueSet(e.values))
  }

  /** A term that selects no node by hostname contributes nothing to the union. */
  function TermContribution(t: NodeSelectorTerm): set<string> {
    var n := TermNodes(t.matchExpressions);
    if n.Some? then n.value else {}
  }

  /** The union, over the terms scanned so far, of what each term selects. */
  function TermsNodes(terms: seq<NodeSelectorTerm>): set<string>
    decreases |terms|
  {
    if terms == [] then {}
    else TermsNodes(terms[..|terms| - 1]) + TermContribution(terms[|terms| - 1])
  }

  /** The node-name set of a volume; None for a nil volume, nil affinity or nil required selector. */
  function LocalPVNodeNames(pv: Option<PersistentVolume>): Option<set<string>> {
    if pv.None? || pv.value.nodeAffinity.None? || pv.value.nodeAffinity.value.required.None? then None
    else Some(TermsNodes(pv.value.nodeAffinity.value.required.value))
  }

  /**
   * Independent description of one term: it selects something iff it has a
   * hostname-`In` expression, and then exactly the names listed by every such expression.
   */
  lemma {:induction false} TermNodesMeaning(exprs: seq<NodeSelectorRequirement>, n: string)
    ensures TermNodes(exprs).Some? <==> exists i :: 0 <= i < |exprs| && IsHostnameIn(exprs[i])
    ensures TermNodes(exprs).Some? ==>
      (n in TermNodes(exprs).value <==> forall i :: 0 <= i < |exprs| && IsHostnameIn(exprs[i]) ==> n in exprs[i].values)
    decreases |exprs|
  {
    if exprs != [] {
      var init := exprs[..|exprs| - 1];
      var last := |exprs| - 1;
      TermNodesMeaning(init, n);
      assert forall i :: 0 <= i < last ==> exprs[i] == init[i];
      if IsHostnameIn(exprs[last]) && TermNodes(init).None? {
        assert forall i :: 0 <= i < last ==> !IsHostnameIn(init[i]);
      }
    }
  }

  /** A name is in the union iff some term selects it. */
  lemma {:induction false} TermsNodesMeaning(terms: seq<NodeSelectorTerm>, n: string)
    ensures n in TermsNodes(terms) <==> exists k :: 0 <= k < |terms| && n in TermContribution(terms[k])
    decreases |terms|
  {
    if terms != [] {
      var init := terms[..|terms| - 1];
      TermsNodesMeaning(init, n);
      assert forall k :: 0 <= k < |init| ==> terms[k] == init[k];
    }
  }

  /** Every returned name is listed by some hostname-`In` expression of the volume's affinity. */
  lemma NodeNamesComeFromHostnameIn(terms: seq<NodeSelectorTerm>, n: string)
    requires n in TermsNodes(terms)
    ensures exists k, i ::
              && 0 <= k < |terms| && 0 <= i < |terms[k].matchExpressions|
              && IsHostnameIn(terms[k].matchExpressions[i])
              && n in terms[k].matchExpressions[i].values
  {
    TermsNodesMeaning(terms, n);
    var k :| 0 <= k < |terms| && n in TermContribution(terms[k]);
    var exprs := terms[k].matchExpressions;
    TermNodesMeaning(exprs, n);
    var i :| 0 <= i < |exprs| && IsHostnameIn(exprs[i]);
    assert n in exprs[i].values;
  }

  /** The nested loops of the source, followed by `sets.List`. */
  method GetLocalPersistentVolumeNodeNames(pv: Option<PersistentVolume>) returns (names: Option<seq<string>>)
    ensures names.None? <==> LocalPVNodeNames(pv).None?
    ensures names.Some? ==> StrictlySorted(names.value)
    ensures names.Some? ==> forall n :: n in names.value <==> n in LocalPVNodeNames(pv).value
  {
    if pv.None? || pv.value.nodeAffinity.None? || pv.value.nodeAffinity.value.required.None? {
      return None;
    }
    var terms := pv.value.nodeAffinity.value.required.value;
    var result: set<string> := {};
    for k := 0 to |terms|
      invariant result == TermsNodes(terms[..k])
    {
      var exprs := terms[k].matchExpressions;
      var nodes: Option<set<string>> := None;
      for i := 0 to |exprs|
        invariant nodes == TermNodes(exprs[..i])
      {
        var e := exprs[i];
        assert exprs[..i + 1][..i] == exprs[..i];
        if e.key == LabelHostname && e.op == In {
          if nodes.None? {
            nodes := Some(set v | v in e.values);
          } else {
            nodes := Some(nodes.value * set v | v in e.values);
          }
        }
      }
      assert exprs[..|exprs|] == exprs;
      assert terms[..k + 1][..k] == terms[..k];
      if nodes.Some? {
        result := result + nodes.value;
      }
    }
    assert terms[..|terms|] == terms;
    var sorted := SortedList(result);
    names := Some(sorted);
  }
}
