/** The sources a child packet names: those its lookup evidence returned, as the frozen
    manifest describes them. */
module LookupSources {
  import opened Wrappers
  import opened Contracts

  /** An exact source reference returned by one read or search. */
  datatype Returned = Returned(handle: string, source: SourceRef)

  datatype ProjectedSource = ProjectedSource(handle: string, source: SourceRef, displayName: string)

  function ReferenceOf(d: SourceDescriptor): Returned {
    Returned(d.handle, d.source)
  }

  function ReturnedBy(exchanges: seq<seq<Returned>>): set<Returned> {
    set e, r | e in exchanges && r in e :: r
  }

  function ReferencesOf(manifest: seq<SourceDescriptor>): set<Returned> {
    set d | d in manifest :: ReferenceOf(d)
  }

  /** The described sources that were returned, in manifest order, each where first described. */
  function Projected(manifest: seq<SourceDescriptor>, returned: set<Returned>): seq<ProjectedSource> {
    if manifest == [] then []
    else
      var init, d := manifest[..|manifest| - 1], manifest[|manifest| - 1];
      Projected(init, returned)
        + (if ReferenceOf(d) in returned && ReferenceOf(d) !in ReferencesOf(init)
           then [ProjectedSource(d.handle, d.source, d.displayName)] else [])
  }

  ghost predicate DistinctReferences(sources: seq<ProjectedSource>) {
    forall i, j :: 0 <= i < j < |sources| ==>
      (sources[i].handle, sources[i].source) != (sources[j].handle, sources[j].source)
  }

  ghost predicate Names(sources: seq<ProjectedSource>, r: Returned) {
    exists k :: 0 <= k < |sources| && ReferenceAt(sources, k) == r
  }

  /** Exactly the returned sources the manifest describes, each once. */
  lemma {:induction false} ProjectionIsExact(manifest: seq<SourceDescriptor>, returned: set<Returned>)
    ensures DistinctReferences(Projected(manifest, returned))
    ensures forall r :: Names(Projected(manifest, returned), r) <==> r in returned && r in ReferencesOf(manifest)
  {
    if manifest != [] {
      var n := |manifest| - 1;
      var init, d := manifest[..n], manifest[n];
      ProjectionIsExact(init, returned);
      assert manifest == init + [d];
      var before, all := Projected(init, returned), Projected(manifest, returned);
      ReferencesSnoc(init, d);
      if ReferenceOf(d) in returned && ReferenceOf(d) !in ReferencesOf(init) {
        assert all == before + [ProjectedSource(d.handle, d.source, d.displayName)];
        NamesSnoc(before, ProjectedSource(d.handle, d.source, d.displayName));
      } else {
        assert all == before;
      }
    }
  }

  lemma NamesSnoc(before: seq<ProjectedSource>, last: ProjectedSource)
    ensures forall r :: Names(before + [last], r) <==> Names(before, r) || r == Returned(last.handle, last.source)
    ensures DistinctReferences(before) && !Names(before, Returned(last.handle, last.source)) ==>
      DistinctReferences(before + [last])
  {
    var all := before + [last];
    assert ReferenceAt(all, |before|) == Returned(last.handle, last.source);
    forall r | Names(before, r) ensures Names(all, r) {
      var k :| 0 <= k < |before| && ReferenceAt(before, k) == r;
      assert ReferenceAt(all, k) == r;
    }
    forall r | Names(all, r) && r != Returned(last.handle, last.source) ensures Names(before, r) {
      var k :| 0 <= k < |all| && ReferenceAt(all, k) == r;
      assert ReferenceAt(before, k) == r;
    }
    forall i | 0 <= i < |before| && (all[i].handle, all[i].source) == (last.handle, last.source)
      ensures Names(before, Returned(last.handle, last.source))
    {
      assert ReferenceAt(before, i) == Returned(last.handle, last.source);
    }
  }

  function ReferenceAt(sources: seq<ProjectedSource>, k: nat): Returned
    requires k < |sources|
  {
    Returned(sources[k].handle, sources[k].source)
  }

  lemma ReferencesSnoc(init: seq<SourceDescriptor>, d: SourceDescriptor)
    ensures ReferencesOf(init + [d]) == ReferencesOf(init) + {ReferenceOf(d)}
  {
    assert (init + [d])[|init|] == d;
    assert forall x :: x in init + [d] <==> x in init || x == d;
  }

  lemma ReturnedSnoc(exchanges: seq<seq<Returned>>, k: nat)
    requires k < |exchanges|
    ensures ReturnedBy(exchanges[..k + 1]) == ReturnedBy(exchanges[..k]) + (set r | r in exchanges[k])
  {
    assert exchanges[..k + 1] == exchanges[..k] + [exchanges[k]];
  }

  /** Collect what was returned, then drain it along the manifest; anything left over is
      evidence from outside the snapshot. */
  method FromExchanges(manifest: seq<SourceDescriptor>, exchanges: seq<seq<Returned>>)
    returns (r: Option<seq<ProjectedSource>>)
    ensures r == if ReturnedBy(exchanges) <= ReferencesOf(manifest)
      then Some(Projected(manifest, ReturnedBy(exchanges))) else None
  {
    hide ReturnedBy, ReferencesOf;
    var returned: set<Returned> := {};
    assert exchanges[..0] == [] && ReturnedBy([]) == {} by { NothingReturned(); }
    for k := 0 to |exchanges|
      invariant returned == ReturnedBy(exchanges[..k])
    {
      ReturnedSnoc(exchanges, k);
      returned := returned + (set x | x in exchanges[k]);
    }
    assert exchanges[..|exchanges|] == exchanges;
    var all := returned;
    var sources := [];
    assert manifest[..0] == [] && ReferencesOf([]) == {} by { NothingReturned(); }
    for k := 0 to |manifest|
      invariant sources == Projected(manifest[..k], all) && returned == all - ReferencesOf(manifest[..k])
    {
      var d := manifest[k];
      assert manifest[..k + 1] == manifest[..k] + [d] && manifest[..k + 1][..k] == manifest[..k];
      ReferencesSnoc(manifest[..k], d);
      if ReferenceOf(d) in returned {
        returned := returned - {ReferenceOf(d)};
        sources := sources + [ProjectedSource(d.handle, d.source, d.displayName)];
      }
    }
    assert manifest[..|manifest|] == manifest;
    if returned != {} { return None; }
    return Some(sources);
  }

  lemma NothingReturned()
    ensures ReturnedBy([]) == {} && ReferencesOf([]) == {}
  {
  }
}
