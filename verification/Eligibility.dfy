/** The eligibility kernel: which exact sources a frozen request may use. The
    functions below say what an evaluation returns; SourceWalk is the code that
    computes it by filling maps and walking dependencies in place. */
module Eligibility {
  import opened Wrappers
  import opened Contracts
  import opened SourceGraph
  import opened Policies

  datatype EligibleSource = EligibleSource(
    handle: string,
    source: SourceRef,
    kind: SourceKind,
    coverage: CoverageLabel,
    dependencyHandles: seq<string>)

  datatype Receipt = Receipt(
    snapshotId: string,
    projectId: string,
    audience: Audience,
    purpose: ContextPurpose,
    eligible: seq<EligibleSource>,
    allDependencyHandles: seq<string>,
    canAuthorizeApply: bool)

  // ----- The manifest as maps -----

  function ByHandle(sources: seq<SourceDescriptor>): map<string, SourceDescriptor> {
    if sources == [] then map[]
    else
      var d := sources[|sources| - 1];
      ByHandle(sources[..|sources| - 1])[d.handle := d]
  }

  function BySource(sources: seq<SourceDescriptor>): map<SourceRef, string> {
    if sources == [] then map[]
    else
      var d := sources[|sources| - 1];
      BySource(sources[..|sources| - 1])[d.source := d.handle]
  }

  predicate Repeats(prior: seq<SourceDescriptor>, d: SourceDescriptor) {
    exists i :: 0 <= i < |prior| && (prior[i].handle == d.handle || prior[i].source == d.source)
  }

  predicate DistinctSources(sources: seq<SourceDescriptor>) {
    forall k :: 0 <= k < |sources| ==> !Repeats(sources[..k], sources[k])
  }

  function CheckSelection(requested: seq<string>, known: set<string>, n: nat): Check
    requires n <= |requested|
  {
    if n == 0 then Pass
    else
      CheckSelection(requested, known, n - 1)
      .Then(Refuse(requested[n - 1] !in known, UnknownSource))
      .Then(Refuse(requested[n - 1] in requested[..n - 1], DuplicateSource))
  }

  function CheckDescriptors(sources: seq<SourceDescriptor>, projectId: string, known: set<SourceRef>, n: nat): Check
    requires n <= |sources|
  {
    if n == 0 then Pass
    else
      CheckDescriptors(sources, projectId, known, n - 1)
      .Then(CheckDescriptor(sources[n - 1], projectId, known))
  }

  predicate GrantOutside(grants: seq<CharacterGrant>, handles: set<string>) {
    exists i :: 0 <= i < |grants| && grants[i].sourceHandle !in handles
  }

  /** Every check made before the first source is walked, in the order made. */
  function UpFront(s: StorySnapshot, p: InformationPolicy, purpose: ContextPurpose, requested: seq<string>): Check {
    var handles := ByHandle(s.sources).Keys;
    var target := FindTarget(s.sources, s.target);
    CheckSnapshot(s)
    .Then(CheckPolicy(p))
    .Then(CheckBoundary(s, p, purpose))
    .Then(Refuse(requested == [], NoRequestedSources))
    .Then(CheckReviewedRequest(s, p, purpose))
    .Then(CheckBasisManifest(s, p, purpose))
    .Then(Refuse(!DistinctSources(s.sources), DuplicateSource))
    .Then(Refuse(target.None?, InvalidSnapshot))
    .Then(CheckSelection(requested, handles, |requested|))
    .Then(Refuse(target.Some? && target.value.handle !in requested, TargetNotSelected))
    .Then(CheckDescriptors(s.sources, s.projectId, BySource(s.sources).Keys, |s.sources|))
    .Then(Refuse(GrantOutside(p.characterGrants, handles), InvalidPolicy))
  }

  // ----- The dependency graph of a request -----

  predicate Resolved(d: SourceDescriptor, bySource: map<SourceRef, string>) {
    forall i :: 0 <= i < |d.dependencies| ==> d.dependencies[i] in bySource
  }

  function DependencyHandles(d: SourceDescriptor, bySource: map<SourceRef, string>): (r: seq<string>)
    requires Resolved(d, bySource)
    ensures |r| == |d.dependencies|
  {
    seq(|d.dependencies|, i requires 0 <= i < |d.dependencies| => bySource[d.dependencies[i]])
  }

  /** Two tables over one manifest whose dependencies all resolve inside it. */
  ghost predicate Tables(byHandle: map<string, SourceDescriptor>, bySource: map<SourceRef, string>) {
    && (forall h :: h in byHandle ==> byHandle[h].handle == h && Resolved(byHandle[h], bySource))
    && (forall s :: s in bySource ==> bySource[s] in byHandle)
  }

  ghost function GraphOf(byHandle: map<string, SourceDescriptor>, bySource: map<SourceRef, string>,
                         p: InformationPolicy, basis: BasisKind, purpose: ContextPurpose, target: string): (g: Graph)
    requires Tables(byHandle, bySource)
    ensures g.Closed() && g.nodes.Keys == byHandle.Keys
  {
    Graph(map h | h in byHandle ::
      Node(SourcePolicy(byHandle[h], p, basis, purpose, h == target), DependencyHandles(byHandle[h], bySource)))
  }

  ghost predicate Accepted(s: StorySnapshot, p: InformationPolicy, purpose: ContextPurpose, requested: seq<string>) {
    UpFront(s, p, purpose, requested) == Pass
  }

  lemma {:induction false} DescriptorsResolve(sources: seq<SourceDescriptor>, projectId: string, known: set<SourceRef>,
                                              n: nat)
    requires n <= |sources| && CheckDescriptors(sources, projectId, known, n) == Pass
    ensures forall k, i :: 0 <= k < n && 0 <= i < |sources[k].dependencies| ==> sources[k].dependencies[i] in known
  {
    if n > 0 {
      DescriptorsResolve(sources, projectId, known, n - 1);
      KnownDependencies(sources[n - 1].dependencies, projectId, known);
    }
  }

  lemma {:induction false} HandleEntry(sources: seq<SourceDescriptor>, h: string) returns (k: nat)
    requires h in ByHandle(sources)
    ensures k < |sources| && sources[k] == ByHandle(sources)[h] && sources[k].handle == h
  {
    k := |sources| - 1;
    if sources[k].handle != h {
      k := HandleEntry(sources[..k], h);
    }
  }

  lemma {:induction false} SourceEntry(sources: seq<SourceDescriptor>, r: SourceRef) returns (k: nat)
    requires r in BySource(sources)
    ensures k < |sources| && sources[k].source == r && sources[k].handle == BySource(sources)[r]
  {
    k := |sources| - 1;
    if sources[k].source != r {
      k := SourceEntry(sources[..k], r);
    }
  }

  lemma {:induction false} EntryPresent(sources: seq<SourceDescriptor>, k: nat)
    requires k < |sources|
    ensures sources[k].handle in ByHandle(sources) && sources[k].source in BySource(sources)
  {
    if k < |sources| - 1 {
      EntryPresent(sources[..|sources| - 1], k);
    }
  }

  lemma RepeatsIffPresent(prior: seq<SourceDescriptor>, d: SourceDescriptor)
    ensures Repeats(prior, d) <==> d.handle in ByHandle(prior) || d.source in BySource(prior)
  {
    if Repeats(prior, d) {
      var i :| 0 <= i < |prior| && (prior[i].handle == d.handle || prior[i].source == d.source);
      EntryPresent(prior, i);
    }
    if d.handle in ByHandle(prior) {
      var i := HandleEntry(prior, d.handle);
    }
    if d.source in BySource(prior) {
      var i := SourceEntry(prior, d.source);
    }
  }

  /** Once the descriptors pass, no lookup the walk makes can miss. */
  lemma AcceptedTables(s: StorySnapshot)
    requires CheckDescriptors(s.sources, s.projectId, BySource(s.sources).Keys, |s.sources|) == Pass
    ensures Tables(ByHandle(s.sources), BySource(s.sources))
  {
    DescriptorsResolve(s.sources, s.projectId, BySource(s.sources).Keys, |s.sources|);
    var byHandle, bySource := ByHandle(s.sources), BySource(s.sources);
    forall h | h in byHandle
      ensures byHandle[h].handle == h && Resolved(byHandle[h], bySource)
    {
      var k := HandleEntry(s.sources, h);
    }
    forall r | r in bySource
      ensures bySource[r] in byHandle
    {
      var i := SourceEntry(s.sources, r);
      EntryPresent(s.sources, i);
    }
  }

  lemma {:induction false} SelectionKnown(requested: seq<string>, known: set<string>, n: nat)
    requires n <= |requested|
    ensures CheckSelection(requested, known, n) == Pass
       <==> (forall i :: 0 <= i < n ==> requested[i] in known) && NoDuplicates(requested[..n])
  {
    if n > 0 {
      SelectionKnown(requested, known, n - 1);
      var prior := requested[..n - 1];
      assert requested[..n] == prior + [requested[n - 1]];
      if NoDuplicates(requested[..n]) {
        assert forall i, j :: 0 <= i < j < |prior| ==> requested[..n][i] != requested[..n][j];
        assert forall i :: 0 <= i < |prior| ==> requested[..n][i] != requested[..n][n - 1];
      }
    }
  }

  /** The graph the walk explores for an accepted request. */
  ghost function RequestGraph(s: StorySnapshot, p: InformationPolicy, purpose: ContextPurpose): (g: Graph)
    requires CheckDescriptors(s.sources, s.projectId, BySource(s.sources).Keys, |s.sources|) == Pass
    requires FindTarget(s.sources, s.target).Some?
    ensures g.Closed() && g.nodes.Keys == ByHandle(s.sources).Keys
  {
    AcceptedTables(s);
    GraphOf(ByHandle(s.sources), BySource(s.sources), p, s.basis, purpose, FindTarget(s.sources, s.target).value.handle)
  }

  lemma AcceptedSelection(s: StorySnapshot, p: InformationPolicy, purpose: ContextPurpose, requested: seq<string>)
    requires Accepted(s, p, purpose, requested)
    ensures CheckDescriptors(s.sources, s.projectId, BySource(s.sources).Keys, |s.sources|) == Pass
    ensures FindTarget(s.sources, s.target).Some?
    ensures RequestGraph(s, p, purpose).Known(requested) && NoDuplicates(requested) && requested != []
  {
    SelectionKnown(requested, ByHandle(s.sources).Keys, |requested|);
    assert requested[..|requested|] == requested;
  }

  function Eligible(order: seq<string>, byHandle: map<string, SourceDescriptor>,
                    bySource: map<SourceRef, string>): (r: seq<EligibleSource>)
    requires forall i :: 0 <= i < |order| ==> order[i] in byHandle && Resolved(byHandle[order[i]], bySource)
    ensures |r| == |order|
  {
    seq(|order|, i requires 0 <= i < |order| =>
      var d := byHandle[order[i]];
      EligibleSource(d.handle, d.source, d.kind, d.coverage, DependencyHandles(d, bySource)))
  }

  /** What an accepted request returns: the walk's refusal, or its emitted order. */
  ghost function Answer(s: StorySnapshot, p: InformationPolicy, purpose: ContextPurpose, requested: seq<string>)
    : (r: Result<Receipt, ErrorCode>)
    requires Accepted(s, p, purpose, requested)
  {
    AcceptedSelection(s, p, purpose, requested);
    AcceptedTables(s);
    var g := RequestGraph(s, p, purpose);
    var walked := WalkAll(g, requested, START);
    if walked.Err? then Err(walked.error)
    else
      EmittedKnown(g, requested);
      Ok(ReceiptOf(s, p, purpose, walked.value.order, ByHandle(s.sources), BySource(s.sources)))
  }

  function ReceiptOf(s: StorySnapshot, p: InformationPolicy, purpose: ContextPurpose, order: seq<string>,
                     byHandle: map<string, SourceDescriptor>, bySource: map<SourceRef, string>): Receipt
    requires forall i :: 0 <= i < |order| ==> order[i] in byHandle && Resolved(byHandle[order[i]], bySource)
  {
    Receipt(s.snapshotId, s.projectId, p.audience, purpose, Eligible(order, byHandle, bySource), order, false)
  }

  /** What an evaluation returns. */
  ghost function Evaluate(s: StorySnapshot, p: InformationPolicy, purpose: ContextPurpose, requested: seq<string>)
    : (r: Result<Receipt, ErrorCode>)
  {
    var refusal := UpFront(s, p, purpose, requested);
    if refusal.Refused? then Err(refusal.code) else Answer(s, p, purpose, requested)
  }

  lemma EmittedKnown(g: Graph, requested: seq<string>)
    requires g.Closed() && g.Known(requested) && WalkAll(g, requested, START).Ok?
    ensures g.Known(WalkAll(g, requested, START).value.order)
  {
    WalkIsExact(g, requested);
  }

  // ----- The code: tables and a walk that update in place -----

  /** The node of one handle: both policies in order, and the handle of each dependency. */
  lemma NodeFacts(byHandle: map<string, SourceDescriptor>, bySource: map<SourceRef, string>, p: InformationPolicy,
                  basis: BasisKind, purpose: ContextPurpose, target: string, h: string)
    requires Tables(byHandle, bySource) && h in byHandle
    ensures var node, d := GraphOf(byHandle, bySource, p, basis, purpose, target).nodes[h], byHandle[h];
            && node.verdict == BasisPolicy(d, p, basis, purpose, h == target).Then(DisclosurePolicy(d, p))
            && |node.deps| == |d.dependencies|
            && forall i :: 0 <= i < |d.dependencies| ==>
                 && d.dependencies[i] in bySource && bySource[d.dependencies[i]] == node.deps[i]
                 && node.deps[i] in byHandle
  {
    hide BasisPolicy, DisclosurePolicy;
  }

  class SourceWalk {
    var byHandle: map<string, SourceDescriptor>
    var bySource: map<SourceRef, string>
    var visits: map<string, Visit>
    var ordered: seq<string>
    const policy: InformationPolicy
    const basis: BasisKind
    const purpose: ContextPurpose
    var target: string

    ghost predicate Valid()
      reads this
    {
      Tables(byHandle, bySource) && visits.Keys <= byHandle.Keys
    }

    ghost function Graph(): (g: Graph)
      reads this`byHandle, this`bySource, this`target
      requires Tables(byHandle, bySource)
      ensures g.Closed() && g.nodes.Keys == byHandle.Keys
    {
      GraphOf(byHandle, bySource, policy, basis, purpose, target)
    }

    ghost function Progress(): State
      reads this`visits, this`ordered
    {
      State(visits, ordered)
    }

    /** The object's state and answer after a walk that should end in r. */
    ghost predicate Reports(r: Result<State, ErrorCode>, refusal: Check)
      reads this`visits, this`ordered
    {
      if r.Ok? then refusal == Pass && Progress() == r.value else refusal == Refused(r.error)
    }

    constructor (p: InformationPolicy, b: BasisKind, why: ContextPurpose)
      ensures policy == p && basis == b && purpose == why
      ensures byHandle == map[] && bySource == map[] && visits == map[] && ordered == []
    {
      policy, basis, purpose := p, b, why;
      byHandle, bySource, visits, ordered, target := map[], map[], map[], [], "";
    }

    /** Fill both tables, refusing a repeated handle or exact source. */
    method Load(sources: seq<SourceDescriptor>) returns (distinct: bool)
      requires byHandle == map[] && bySource == map[]
      modifies this`byHandle, this`bySource
      ensures distinct <==> DistinctSources(sources)
      ensures distinct ==> byHandle == ByHandle(sources) && bySource == BySource(sources)
    {
      for k := 0 to |sources|
        invariant DistinctSources(sources[..k])
        invariant byHandle == ByHandle(sources[..k]) && bySource == BySource(sources[..k])
      {
        var d := sources[k];
        assert sources[..k + 1][..k] == sources[..k];
        assert forall i :: 0 <= i < k ==> sources[..k + 1][..i] == sources[..k][..i];
        RepeatsIffPresent(sources[..k], d);
        if d.handle in byHandle || d.source in bySource {
          return false;
        }
        byHandle := byHandle[d.handle := d];
        bySource := bySource[d.source := d.handle];
      }
      assert sources[..|sources|] == sources;
      return true;
    }

    /** Every check that precedes the walk, in order, filling the tables on the way. */
    method Prepare(s: StorySnapshot, requested: seq<string>) returns (refusal: Check)
      requires byHandle == map[] && bySource == map[]
      modifies this`byHandle, this`bySource, this`target
      ensures refusal == UpFront(s, policy, purpose, requested)
      ensures refusal == Pass ==> byHandle == ByHandle(s.sources) && bySource == BySource(s.sources)
      ensures refusal == Pass ==>
        FindTarget(s.sources, s.target).Some? && target == FindTarget(s.sources, s.target).value.handle
    {
      refusal := CheckSnapshot(s)
        .Then(CheckPolicy(policy))
        .Then(CheckBoundary(s, policy, purpose))
        .Then(Refuse(requested == [], NoRequestedSources))
        .Then(CheckReviewedRequest(s, policy, purpose))
        .Then(CheckBasisManifest(s, policy, purpose));
      if refusal.Refused? { return; }
      var distinct := Load(s.sources);
      if !distinct { return Refused(DuplicateSource); }
      var found := FindTarget(s.sources, s.target);
      if found.None? { return Refused(InvalidSnapshot); }
      target := found.value.handle;
      refusal := Select(requested, byHandle.Keys);
      if refusal.Refused? { return; }
      if target !in requested { return Refused(TargetNotSelected); }
      refusal := Describe(s, bySource.Keys);
      if refusal.Refused? { return; }
      refusal := Refuse(GrantOutside(policy.characterGrants, byHandle.Keys), InvalidPolicy);
    }

    /** Visit one handle: mark it, apply both policies, then its dependencies in order. */
    method Walk(handle: string) returns (refusal: Check)
      requires Valid() && handle in byHandle
      modifies this`visits, this`ordered
      ensures Valid()
      ensures Reports(SourceGraph.Walk(Graph(), handle, old(Progress())), refusal)
      decreases byHandle.Keys - visits.Keys
    {
      hide SourceGraph.Walk, WalkAll, Tables, GraphOf, BasisPolicy, DisclosurePolicy;
      ghost var g, inside := Graph(), Open(Progress(), handle);
      WalkCases(g, handle, Progress());
      NodeFacts(byHandle, bySource, policy, basis, purpose, target, handle);
      if handle in visits {
        return if visits[handle] == Visiting then Refused(DependencyCycle) else Pass;
      }
      var descriptor := byHandle[handle];
      visits := visits[handle := Visiting];
      refusal := BasisPolicy(descriptor, policy, basis, purpose, handle == target);
      if refusal.Refused? { return; }
      refusal := DisclosurePolicy(descriptor, policy);
      if refusal.Refused? { return; }
      ghost var deps := g.nodes[handle].deps;
      assert deps[..0] == [] && WalkAll(g, [], inside) == Ok(inside) by { WalkNone(g, inside); }
      for i := 0 to |descriptor.dependencies|
        invariant Valid() && old(visits).Keys + {handle} <= visits.Keys
        invariant WalkAll(g, deps[..i], inside) == Ok(Progress())
      {
        WalkAllNext(g, deps, i, inside);
        refusal := Walk(bySource[descriptor.dependencies[i]]);
        if refusal.Refused? {
          WalkAllStops(g, deps, i + 1, inside);
          return;
        }
      }
      WalkAllWhole(g, deps, inside);
      visits := visits[handle := Done];
      ordered := ordered + [handle];
      return Pass;
    }

    /** One walk from each selected handle, in the order requested. */
    method WalkSelected(selected: seq<string>) returns (refusal: Check)
      requires Valid() && Graph().Known(selected) && Progress() == START
      modifies this`visits, this`ordered
      ensures Valid()
      ensures Reports(WalkAll(Graph(), selected, START), refusal)
    {
      hide SourceGraph.Walk, WalkAll, Tables, GraphOf;
      ghost var g := Graph();
      assert selected[..0] == [] && WalkAll(g, [], START) == Ok(START) by { WalkNone(g, START); }
      for i := 0 to |selected|
        invariant Valid() && WalkAll(g, selected[..i], START) == Ok(Progress())
      {
        WalkAllNext(g, selected, i, START);
        refusal := Walk(selected[i]);
        if refusal.Refused? {
          WalkAllStops(g, selected, i + 1, START);
          return;
        }
      }
      WalkAllWhole(g, selected, START);
      return Pass;
    }

    method Emit(s: StorySnapshot, requested: seq<string>) returns (r: Result<Receipt, ErrorCode>)
      requires Accepted(s, policy, purpose, requested) && basis == s.basis && Progress() == START
      requires byHandle == ByHandle(s.sources) && bySource == BySource(s.sources)
      requires FindTarget(s.sources, s.target).Some? && target == FindTarget(s.sources, s.target).value.handle
      modifies this`visits, this`ordered
      ensures r == Answer(s, policy, purpose, requested)
    {
      AcceptedSelection(s, policy, purpose, requested);
      AcceptedTables(s);
      assert Graph() == RequestGraph(s, policy, purpose);
      var refusal := WalkSelected(requested);
      if refusal.Refused? { return Err(refusal.code); }
      EmittedKnown(Graph(), requested);
      return Ok(ReceiptOf(s, policy, purpose, ordered, byHandle, bySource));
    }
  }

  /** Evaluate a request: the checks, the tables, then one walk from each selected handle. */
  method EvaluateSources(s: StorySnapshot, p: InformationPolicy, purpose: ContextPurpose, requested: seq<string>)
    returns (r: Result<Receipt, ErrorCode>)
    ensures r == Evaluate(s, p, purpose, requested)
  {
    var walk := new SourceWalk(p, s.basis, purpose);
    var refusal := walk.Prepare(s, requested);
    if refusal.Refused? { return Err(refusal.code); }
    r := walk.Emit(s, requested);
  }

  method Select(requested: seq<string>, known: set<string>) returns (refusal: Check)
    ensures refusal == CheckSelection(requested, known, |requested|)
  {
    var selected: seq<string> := [];
    for i := 0 to |requested|
      invariant selected == requested[..i]
      invariant CheckSelection(requested, known, i) == Pass
    {
      if requested[i] !in known || requested[i] in selected {
        var e := if requested[i] !in known then UnknownSource else DuplicateSource;
        SelectionStops(requested, known, i + 1, |requested|);
        return Refused(e);
      }
      selected := selected + [requested[i]];
    }
    return Pass;
  }

  lemma {:induction false} SelectionStops(requested: seq<string>, known: set<string>, m: nat, n: nat)
    requires m <= n <= |requested| && CheckSelection(requested, known, m).Refused?
    ensures CheckSelection(requested, known, n) == CheckSelection(requested, known, m)
  {
    if m < n {
      SelectionStops(requested, known, m, n - 1);
    }
  }

  method Describe(s: StorySnapshot, known: set<SourceRef>) returns (refusal: Check)
    ensures refusal == CheckDescriptors(s.sources, s.projectId, known, |s.sources|)
  {
    for i := 0 to |s.sources|
      invariant CheckDescriptors(s.sources, s.projectId, known, i) == Pass
    {
      refusal := CheckDescriptor(s.sources[i], s.projectId, known);
      if refusal.Refused? {
        DescriptionStops(s, known, i + 1, |s.sources|);
        return;
      }
    }
    return Pass;
  }

  lemma {:induction false} DescriptionStops(s: StorySnapshot, known: set<SourceRef>, m: nat, n: nat)
    requires m <= n <= |s.sources| && CheckDescriptors(s.sources, s.projectId, known, m).Refused?
    ensures CheckDescriptors(s.sources, s.projectId, known, n) == CheckDescriptors(s.sources, s.projectId, known, m)
  {
    if m < n {
      DescriptionStops(s, known, m, n - 1);
    }
  }
}
