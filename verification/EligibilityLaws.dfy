/** What an eligibility receipt guarantees: exactness of the walk, closure under
    smaller selections and re-evaluation, monotonicity in the reader frontier,
    and the binding of a reviewed basis. */
module EligibilityLaws {
  import opened Wrappers
  import opened Contracts
  import opened Decimals
  import opened SourceGraph
  import opened Policies
  import opened Eligibility

  /** An accepted request succeeds exactly when every source its selection reaches
      passes both policies and depends on no cycle; the receipt then lists exactly
      the reached sources, once each, every dependency before its dependant. */
  lemma EvaluationIsExact(s: StorySnapshot, p: InformationPolicy, purpose: ContextPurpose, requested: seq<string>)
    requires Accepted(s, p, purpose, requested)
    ensures CheckDescriptors(s.sources, s.projectId, BySource(s.sources).Keys, |s.sources|) == Pass
    ensures FindTarget(s.sources, s.target).Some?
    ensures var g, r := RequestGraph(s, p, purpose), Evaluate(s, p, purpose, requested);
            && (r.Ok? <==> forall h :: ReachFrom(g, requested, h) ==> h in g.nodes && Sound(g, h))
            && (r.Ok? ==> ExactOrder(g, requested, r.value.allDependencyHandles))
            && (r.Err? ==> exists h, x :: h in requested && Explains(g, h, x, r.error))
  {
    AcceptedSelection(s, p, purpose, requested);
    WalkIsExact(RequestGraph(s, p, purpose), requested);
  }

  /** Splits the up-front checks into those that ignore the selection and those that judge it. */
  ghost predicate ManifestAccepted(s: StorySnapshot, p: InformationPolicy, purpose: ContextPurpose) {
    && CheckSnapshot(s) == Pass && CheckPolicy(p) == Pass && CheckBoundary(s, p, purpose) == Pass
    && CheckReviewedRequest(s, p, purpose) == Pass && CheckBasisManifest(s, p, purpose) == Pass
    && DistinctSources(s.sources) && FindTarget(s.sources, s.target).Some?
    && CheckDescriptors(s.sources, s.projectId, BySource(s.sources).Keys, |s.sources|) == Pass
    && !GrantOutside(p.characterGrants, ByHandle(s.sources).Keys)
  }

  ghost predicate SelectionAccepted(s: StorySnapshot, selection: seq<string>)
    requires FindTarget(s.sources, s.target).Some?
  {
    && selection != [] && NoDuplicates(selection)
    && (forall h :: h in selection ==> h in ByHandle(s.sources))
    && FindTarget(s.sources, s.target).value.handle in selection
  }

  lemma AcceptedSplits(s: StorySnapshot, p: InformationPolicy, purpose: ContextPurpose, selection: seq<string>)
    ensures Accepted(s, p, purpose, selection)
       <==> ManifestAccepted(s, p, purpose) && SelectionAccepted(s, selection)
  {
    SelectionKnown(selection, ByHandle(s.sources).Keys, |selection|);
    assert selection[..|selection|] == selection;
  }

  /** If a selection evaluates, so does every nonempty duplicate-free part of it
      that keeps the target; in particular every such part of the whole manifest. */
  lemma SmallerSelectionEvaluates(s: StorySnapshot, p: InformationPolicy, purpose: ContextPurpose,
                                  all: seq<string>, part: seq<string>)
    requires Evaluate(s, p, purpose, all).Ok?
    requires part != [] && NoDuplicates(part) && (forall h :: h in part ==> h in all)
    requires FindTarget(s.sources, s.target).Some? && FindTarget(s.sources, s.target).value.handle in part
    ensures Evaluate(s, p, purpose, part).Ok?
  {
    AcceptedSplits(s, p, purpose, all);
    AcceptedSplits(s, p, purpose, part);
    AcceptedSelection(s, p, purpose, all);
    WalkSmallerSelection(RequestGraph(s, p, purpose), all, part);
  }

  /** Evaluating a returned dependency list returns the very same receipt. */
  lemma ReevaluationIsIdentity(s: StorySnapshot, p: InformationPolicy, purpose: ContextPurpose, requested: seq<string>)
    requires Evaluate(s, p, purpose, requested).Ok?
    ensures Evaluate(s, p, purpose, Evaluate(s, p, purpose, requested).value.allDependencyHandles)
         == Evaluate(s, p, purpose, requested)
  {
    AcceptedSplits(s, p, purpose, requested);
    AcceptedSelection(s, p, purpose, requested);
    var g := RequestGraph(s, p, purpose);
    var order := WalkAll(g, requested, START).value.order;
    WalkIsExact(g, requested);
    RewalkIsIdentity(g, requested);
    forall h | h in requested
      ensures h in order
    {
      ReachSelf(g, h);
    }
    AcceptedSplits(s, p, purpose, order);
  }

  // ----- The reader frontier -----

  function Raised(p: InformationPolicy, frontier: string): InformationPolicy {
    p.(readerFrontier := Some(frontier))
  }

  lemma RaisedPolicyAdmits(d: SourceDescriptor, p: InformationPolicy, frontier: string, basis: BasisKind,
                           purpose: ContextPurpose, isTarget: bool)
    requires p.audience == RestrictedWriting && p.readerFrontier.Some? && DecimalLe(p.readerFrontier.value, frontier)
    requires SourcePolicy(d, p, basis, purpose, isTarget) == Pass
    ensures SourcePolicy(d, Raised(p, frontier), basis, purpose, isTarget) == Pass
  {
    var old_, raised := p.readerFrontier.value, Raised(p, frontier);
    DecimalLeTransitive(d.disclosure.readerPosition.value, old_, frontier);
    if p.characterId.Some? {
      var c := p.characterId.value;
      var i :| 0 <= i < |p.characterGrants| && p.characterGrants[i].characterId == c
        && p.characterGrants[i].sourceHandle == d.handle && DecimalLe(p.characterGrants[i].readerFrontier, old_);
      DecimalLeTransitive(p.characterGrants[i].readerFrontier, old_, frontier);
      assert raised.characterGrants[i] == p.characterGrants[i];
      assert Granted(d, raised, c, frontier);
    }
  }

  /** Restricted writing: raising the frontier keeps a successful evaluation successful,
      with an identical receipt, exactly when the basis is not reviewed (a reviewed
      continuation pins the frontier to its target). */
  lemma RaisingTheFrontier(s: StorySnapshot, p: InformationPolicy, purpose: ContextPurpose, requested: seq<string>,
                           frontier: string)
    requires p.audience == RestrictedWriting && Evaluate(s, p, purpose, requested).Ok?
    requires p.readerFrontier.Some? && DecimalLe(p.readerFrontier.value, frontier)
    ensures Evaluate(s, Raised(p, frontier), purpose, requested) == Evaluate(s, p, purpose, requested)
       <==> s.basis != Reviewed || frontier == p.readerFrontier.value
  {
    if s.basis == Reviewed {
      if frontier != p.readerFrontier.value {
        ReviewedFrontierIsPinned(s, p, purpose, requested, frontier);
      }
    } else {
      var raised := Raised(p, frontier);
      AcceptedSplits(s, p, purpose, requested);
      RaisedManifestAccepted(s, p, purpose, frontier);
      AcceptedSplits(s, raised, purpose, requested);
      RaisedAnswer(s, p, purpose, requested, frontier);
    }
  }

  lemma RaisedManifestAccepted(s: StorySnapshot, p: InformationPolicy, purpose: ContextPurpose, frontier: string)
    requires ManifestAccepted(s, p, purpose) && s.basis != Reviewed
    requires p.audience == RestrictedWriting && p.readerFrontier.Some? && DecimalLe(p.readerFrontier.value, frontier)
    ensures ManifestAccepted(s, Raised(p, frontier), purpose)
  {
    assert Raised(p, frontier).characterGrants == p.characterGrants;
    assert Canonical(frontier);
  }

  /** A reviewed continuation is accepted only with the frontier of its target. */
  lemma AcceptedTargetAtFrontier(s: StorySnapshot, p: InformationPolicy, purpose: ContextPurpose,
                                 requested: seq<string>)
    requires s.basis == Reviewed && Accepted(s, p, purpose, requested)
    ensures FindTarget(s.sources, s.target).Some?
    ensures FindTarget(s.sources, s.target).value.disclosure.readerPosition == p.readerFrontier
  {
    hide CheckSnapshot, CheckPolicy, CheckBoundary, CheckDescriptors, CheckMembers, FindTarget, Authorities;
  }

  lemma ReviewedFrontierIsPinned(s: StorySnapshot, p: InformationPolicy, purpose: ContextPurpose,
                                 requested: seq<string>, frontier: string)
    requires s.basis == Reviewed && Evaluate(s, p, purpose, requested).Ok?
    requires p.readerFrontier.Some? && frontier != p.readerFrontier.value
    ensures Evaluate(s, Raised(p, frontier), purpose, requested).Err?
  {
    AcceptedSplits(s, p, purpose, requested);
    AcceptedSplits(s, Raised(p, frontier), purpose, requested);
    if Evaluate(s, Raised(p, frontier), purpose, requested).Ok? {
      AcceptedTargetAtFrontier(s, p, purpose, requested);
      AcceptedTargetAtFrontier(s, Raised(p, frontier), purpose, requested);
      assert false;
    }
  }

  lemma RaisedAnswer(s: StorySnapshot, p: InformationPolicy, purpose: ContextPurpose, requested: seq<string>,
                     frontier: string)
    requires p.audience == RestrictedWriting && Evaluate(s, p, purpose, requested).Ok?
    requires p.readerFrontier.Some? && DecimalLe(p.readerFrontier.value, frontier)
    requires Accepted(s, Raised(p, frontier), purpose, requested)
    ensures Evaluate(s, Raised(p, frontier), purpose, requested) == Evaluate(s, p, purpose, requested)
  {
    AcceptedSelection(s, p, purpose, requested);
    RaisedGraph(s, p, purpose, frontier);
    RelaxedWalkAll(RequestGraph(s, p, purpose), RequestGraph(s, Raised(p, frontier), purpose), requested, START);
  }

  lemma RaisedGraph(s: StorySnapshot, p: InformationPolicy, purpose: ContextPurpose, frontier: string)
    requires CheckDescriptors(s.sources, s.projectId, BySource(s.sources).Keys, |s.sources|) == Pass
    requires FindTarget(s.sources, s.target).Some?
    requires p.audience == RestrictedWriting && p.readerFrontier.Some? && DecimalLe(p.readerFrontier.value, frontier)
    ensures NoStricter(RequestGraph(s, p, purpose), RequestGraph(s, Raised(p, frontier), purpose))
  {
    AcceptedTables(s);
    var g, byHandle := RequestGraph(s, p, purpose), ByHandle(s.sources);
    var target := FindTarget(s.sources, s.target).value.handle;
    forall h | h in g.nodes && g.nodes[h].verdict.Pass?
      ensures SourcePolicy(byHandle[h], Raised(p, frontier), s.basis, purpose, h == target) == Pass
    {
      RaisedPolicyAdmits(byHandle[h], p, frontier, s.basis, purpose, h == target);
    }
  }

  /** Nothing private or undisclosed enters restricted writing, not even as a
      dependency of a dependency: every source of a receipt is public material whose
      reader position is, as a number, at or before the frontier. */
  lemma RestrictedReceiptIsDisclosed(s: StorySnapshot, p: InformationPolicy, purpose: ContextPurpose,
                                     requested: seq<string>, h: string)
    requires p.audience == RestrictedWriting && Evaluate(s, p, purpose, requested).Ok?
    requires h in Evaluate(s, p, purpose, requested).value.allDependencyHandles
    ensures h in ByHandle(s.sources)
    ensures Disclosed(ByHandle(s.sources)[h], p)
  {
    AcceptedSplits(s, p, purpose, requested);
    EvaluationIsExact(s, p, purpose, requested);
    var g := RequestGraph(s, p, purpose);
    assert Sound(g, h);
    AcceptedTables(s);
    AdmittedIsDisclosed(ByHandle(s.sources)[h], p, s.basis, purpose,
                        h == FindTarget(s.sources, s.target).value.handle);
  }

  /** Public material whose reader position is, as a number, at or before the frontier. */
  predicate Disclosed(d: SourceDescriptor, p: InformationPolicy) {
    && !PrivateMaterial(d) && d.coverage != DirectoryOnly && d.kind != AssistantDraft
    && d.disclosure.readerPosition.Some? && p.readerFrontier.Some?
    && Canonical(d.disclosure.readerPosition.value) && Canonical(p.readerFrontier.value)
    && Value(d.disclosure.readerPosition.value) <= Value(p.readerFrontier.value)
  }

  lemma AdmittedIsDisclosed(d: SourceDescriptor, p: InformationPolicy, basis: BasisKind, purpose: ContextPurpose,
                            isTarget: bool)
    requires p.audience == RestrictedWriting && SourcePolicy(d, p, basis, purpose, isTarget) == Pass
    ensures Disclosed(d, p)
  {
    DecimalLeIsNumericOrder(d.disclosure.readerPosition.value, p.readerFrontier.value);
  }

  /** h is selected or an influential input, direct or not, of something selected. */
  ghost predicate AcceptedReach(s: StorySnapshot, p: InformationPolicy, purpose: ContextPurpose,
                                requested: seq<string>, h: string)
  {
    && Accepted(s, p, purpose, requested)
    && CheckDescriptors(s.sources, s.projectId, BySource(s.sources).Keys, |s.sources|) == Pass
    && FindTarget(s.sources, s.target).Some?
    && ReachFrom(RequestGraph(s, p, purpose), requested, h)
  }

  // ----- The reviewed basis binding -----

  predicate IsIndexSeq(f: seq<nat>, n: nat) {
    |f| == n && forall i :: 0 <= i < n ==> f[i] < n
  }

  predicate Injective(f: seq<nat>) {
    forall i, j :: 0 <= i < j < |f| ==> f[i] != f[j]
  }

  /** Pigeonhole: an injective map of n indices into n indices hits every index. */
  lemma {:induction false} InjectiveHitsAll(f: seq<nat>, n: nat, k: nat)
    requires IsIndexSeq(f, n) && Injective(f) && k < n
    ensures k in f
    decreases n
  {
    if f[n - 1] != n - 1 && n - 1 in f {
      // Move the largest index to the last place, then drop it.
      var j :| 0 <= j < n && f[j] == n - 1;
      var g := f[j := f[n - 1]][n - 1 := n - 1];
      assert forall x :: x in f <==> x in g by { SwapKeepsMembers(f, j, n - 1); }
      InjectiveDropsLast(g, n, k);
    } else if n - 1 in f {
      InjectiveDropsLast(f, n, k);
    } else {
      // Every value is below n - 1: impossible for n distinct values.
      var h := f[..n - 1];
      assert IsIndexSeq(h, n - 1);
      if n > 1 {
        InjectiveHitsAll(h, n - 1, f[n - 1]);
      }
      assert false;
    }
  }

  lemma SwapKeepsMembers(f: seq<nat>, j: nat, l: nat)
    requires j < |f| && l < |f|
    ensures forall x :: x in f <==> x in f[j := f[l]][l := f[j]]
  {
    var g := f[j := f[l]][l := f[j]];
    forall x | x in f
      ensures x in g
    {
      var i :| 0 <= i < |f| && f[i] == x;
      assert g[if i == j then l else if i == l then j else i] == x;
    }
  }

  lemma InjectiveDropsLast(f: seq<nat>, n: nat, k: nat)
    requires IsIndexSeq(f, n) && Injective(f) && k < n && f[n - 1] == n - 1
    ensures k in f
    decreases n, 0
  {
    if k < n - 1 {
      assert IsIndexSeq(f[..n - 1], n - 1);
      InjectiveHitsAll(f[..n - 1], n - 1, k);
    }
  }

  lemma {:induction false} MembersDistinct(manifest: ReviewedBasisManifest, projectId: string, n: nat)
    requires n <= |manifest.prefix| && CheckMembers(manifest, projectId, n) == Pass
    ensures forall i, j :: 0 <= i < j < n ==> manifest.prefix[i].documentId != manifest.prefix[j].documentId
  {
    if n > 0 {
      MembersDistinct(manifest, projectId, n - 1);
      assert forall i :: 0 <= i < n - 1 ==> manifest.prefix[..n - 1][i] == manifest.prefix[i];
    }
  }

  lemma {:induction false} Binder(authorities: seq<SourceDescriptor>, prefix: seq<ReviewedBasisMember>, n: nat)
    returns (f: seq<nat>)
    requires n <= |prefix| && forall i :: 0 <= i < |prefix| ==> !MemberUnbound(authorities, prefix[i])
    ensures |f| == n && forall i :: 0 <= i < n ==> f[i] < |authorities| && Binds(authorities[f[i]], prefix[i])
  {
    f := [];
    if n > 0 {
      f := Binder(authorities, prefix, n - 1);
      var k :| 0 <= k < |authorities| && Binds(authorities[k], prefix[n - 1]);
      f := f + [k];
    }
  }

  lemma AcceptedManifestFacts(s: StorySnapshot, p: InformationPolicy, purpose: ContextPurpose)
    requires s.basis == Reviewed && CheckBasisManifest(s, p, purpose) == Pass
    ensures s.reviewedBasis.Some?
    ensures var a, m := Authorities(s.sources), s.reviewedBasis.value.prefix;
            && |a| == |m| && CheckMembers(s.reviewedBasis.value, s.projectId, |m|) == Pass
            && forall i :: 0 <= i < |m| ==> !MemberUnbound(a, m[i])
  {
  }

  predicate Quotes(d: SourceDescriptor, m: seq<ReviewedBasisMember>) {
    exists i :: 0 <= i < |m| && Binds(d, m[i])
  }

  predicate QuotesAtMostOne(d: SourceDescriptor, m: seq<ReviewedBasisMember>) {
    forall i, j :: 0 <= i < |m| && 0 <= j < |m| && Binds(d, m[i]) && Binds(d, m[j]) ==> i == j
  }

  predicate QuotedAtMostOnce(a: seq<SourceDescriptor>, m: ReviewedBasisMember) {
    forall k, l :: 0 <= k < |a| && 0 <= l < |a| && Binds(a[k], m) && Binds(a[l], m) ==> k == l
  }

  /** Each element on one side is matched by exactly one on the other. */
  predicate Bijection(a: seq<SourceDescriptor>, m: seq<ReviewedBasisMember>) {
    && |a| == |m|
    && (forall k :: 0 <= k < |a| ==> Quotes(a[k], m) && QuotesAtMostOne(a[k], m))
    && (forall i :: 0 <= i < |m| ==> !MemberUnbound(a, m[i]) && QuotedAtMostOnce(a, m[i]))
  }

  lemma MatchedDocumentsBijection(a: seq<SourceDescriptor>, m: seq<ReviewedBasisMember>)
    requires |a| == |m| && (forall i :: 0 <= i < |m| ==> !MemberUnbound(a, m[i]))
    requires forall i, j :: 0 <= i < j < |m| ==> m[i].documentId != m[j].documentId
    ensures Bijection(a, m)
  {
    var f := Binder(a, m, |m|);
    assert Injective(f) by {
      forall i, j | 0 <= i < j < |m| ensures f[i] != f[j] { assert m[i].documentId != m[j].documentId; }
    }
    forall k | 0 <= k < |a|
      ensures Quotes(a[k], m) && QuotesAtMostOne(a[k], m)
    {
      EveryAuthorityQuotes(a, m, f, k);
    }
    forall i | 0 <= i < |m|
      ensures QuotedAtMostOnce(a, m[i])
    {
      EveryMemberQuotedOnce(a, m, f, i);
    }
  }

  ghost predicate Binding(a: seq<SourceDescriptor>, m: seq<ReviewedBasisMember>, f: seq<nat>) {
    && |a| == |m| && IsIndexSeq(f, |m|) && Injective(f)
    && (forall i, j :: 0 <= i < j < |m| ==> m[i].documentId != m[j].documentId)
    && (forall x :: 0 <= x < |m| ==> Binds(a[f[x]], m[x]))
  }

  lemma EveryAuthorityQuotes(a: seq<SourceDescriptor>, m: seq<ReviewedBasisMember>, f: seq<nat>, k: nat)
    requires Binding(a, m, f) && k < |a|
    ensures Quotes(a[k], m) && QuotesAtMostOne(a[k], m)
  {
    InjectiveHitsAll(f, |m|, k);
    var i :| 0 <= i < |m| && f[i] == k;
    assert Binds(a[k], m[i]);
    forall x, y | 0 <= x < |m| && 0 <= y < |m| && Binds(a[k], m[x]) && Binds(a[k], m[y])
      ensures x == y
    {
      assert m[x].documentId == m[y].documentId;
    }
  }

  lemma EveryMemberQuotedOnce(a: seq<SourceDescriptor>, m: seq<ReviewedBasisMember>, f: seq<nat>, i: nat)
    requires Binding(a, m, f) && i < |m|
    ensures QuotedAtMostOnce(a, m[i])
  {
    forall k, l | 0 <= k < |a| && 0 <= l < |a| && Binds(a[k], m[i]) && Binds(a[l], m[i])
      ensures k == l
    {
      QuotedIndex(a, m, f, i, k);
      QuotedIndex(a, m, f, i, l);
    }
  }

  /** A source bound to member i is the one the index map chose for it. */
  lemma QuotedIndex(a: seq<SourceDescriptor>, m: seq<ReviewedBasisMember>, f: seq<nat>, i: nat, k: nat)
    requires Binding(a, m, f) && i < |m| && k < |a| && Binds(a[k], m[i])
    ensures f[i] == k
  {
    InjectiveHitsAll(f, |m|, k);
    var x :| 0 <= x < |m| && f[x] == k;
    assert m[x].documentId == m[i].documentId;
  }

  /** Only equal counts and members-to-sources are checked, yet an accepted reviewed
      basis is a bijection: each authority source quotes exactly one member and each
      member is quoted by exactly one authority source. */
  lemma ReviewedBasisIsBijection(s: StorySnapshot, p: InformationPolicy, purpose: ContextPurpose)
    requires s.basis == Reviewed && CheckBasisManifest(s, p, purpose) == Pass
    ensures s.reviewedBasis.Some? && Bijection(Authorities(s.sources), s.reviewedBasis.value.prefix)
  {
    AcceptedManifestFacts(s, p, purpose);
    MembersDistinct(s.reviewedBasis.value, s.projectId, |s.reviewedBasis.value.prefix|);
    MatchedDocumentsBijection(Authorities(s.sources), s.reviewedBasis.value.prefix);
  }
}
