/** The up-front checks and the two per-source policies of the eligibility kernel.
    Each returns the refusal, or None when the source or request passes. */
module Policies {
  import opened Wrappers
  import opened Contracts
  import opened Decimals
  import opened SourceGraph
  import Text

  const MAX_PREFIX: nat := 4096

  function Refuse(cond: bool, code: ErrorCode): Check {
    if cond then Refused(code) else Pass
  }

  predicate HexHash(s: string) {
    |s| == 64 && forall i :: 0 <= i < |s| ==>
      '0' <= s[i] <= '9' || 'a' <= s[i] <= 'f' || 'A' <= s[i] <= 'F'
  }

  predicate BadName(s: string) {
    s == "" || Text.Utf8Len(s) > 256
  }

  function CheckSourceRef(source: SourceRef, projectId: string): Check {
    Refuse(BadName(source.projectId) || BadName(source.documentId) || BadName(source.revisionId), InvalidDescriptor)
      .Then(Refuse(source.projectId != projectId, CrossProjectSource))
      .Then(Refuse(!HexHash(source.bodyHash), InvalidDescriptor))
  }

  function CheckSnapshot(s: StorySnapshot): Check {
    Refuse(s.snapshotId == "" || s.projectId == "", InvalidSnapshot)
      .Then(Refuse(!Canonical(s.contextSourceEpoch) || !Canonical(s.orderingEpoch), InvalidSnapshot))
      .Then(Refuse(s.disclosurePolicyVersion == "", InvalidSnapshot))
      .Then(CheckSourceRef(s.target, s.projectId))
      .Then(Refuse(s.sources == [], InvalidSnapshot))
  }

  predicate GrantMalformed(g: CharacterGrant) {
    g.characterId == "" || g.sourceHandle == "" || !Canonical(g.readerFrontier)
  }

  function CheckPolicy(p: InformationPolicy): Check {
    Refuse(
      || !Canonical(p.version)
      || (p.audience == RestrictedWriting && p.readerFrontier.None?)
      || (p.readerFrontier.Some? && !Canonical(p.readerFrontier.value))
      || p.characterId == Some("")
      || exists i :: 0 <= i < |p.characterGrants| && GrantMalformed(p.characterGrants[i]),
      InvalidPolicy)
  }

  predicate MemoryAnalysisBoundary(s: StorySnapshot, p: InformationPolicy) {
    && s.basis == Working && |s.sources| == 1
    && (var d := s.sources[0];
        && d.source == s.target && d.kind == CurrentDraft && d.coverage == Verbatim
        && d.current && d.dependencies == []
        && !d.disclosure.authorOnly && !d.disclosure.futurePrivate
        && d.disclosure.readerPosition.Some?)
    && p.audience == AuthorRoom && p.readerFrontier.None? && p.characterId.None?
    && p.characterGrants == [] && !p.allowAlternatives && !p.allowHistorical
  }

  predicate AuthorRoomRevisionAllowed(s: StorySnapshot, p: InformationPolicy, purpose: ContextPurpose) {
    && purpose == Revise && s.basis == Working && p.audience == AuthorRoom && p.readerFrontier.None?
    && (exists i :: 0 <= i < |s.sources|
          && s.sources[i].source == s.target && s.sources[i].kind == CurrentDraft && s.sources[i].current
          && s.sources[i].disclosure.authorOnly && s.sources[i].disclosure.readerPosition.None?)
  }

  function CheckBoundary(s: StorySnapshot, p: InformationPolicy, purpose: ContextPurpose): Check {
    Refuse(purpose == MemoryAnalysis && !MemoryAnalysisBoundary(s, p), InvalidPolicy)
      .Then(Refuse(p.audience == AuthorRoom && (purpose == Revise || purpose == Continue)
             && !AuthorRoomRevisionAllowed(s, p, purpose), InvalidPolicy))
      .Then(Refuse(p.version != s.disclosurePolicyVersion, BasisMismatch))
  }

  function CheckReviewedRequest(s: StorySnapshot, p: InformationPolicy, purpose: ContextPurpose): Check {
    Refuse(
      s.basis == Reviewed
      && (purpose != Continue || p.audience != RestrictedWriting || p.characterId.Some? || p.characterGrants != []),
      InvalidPolicy)
  }

  // ----- The reviewed basis manifest -----

  /** The authority source quotes exactly the revision the member selected. */
  predicate Binds(d: SourceDescriptor, m: ReviewedBasisMember) {
    && d.source.documentId == m.documentId
    && d.source.revisionId == m.revisionId
    && d.source.bodyHash == m.bodyHash
  }

  function Authorities(sources: seq<SourceDescriptor>): seq<SourceDescriptor> {
    if sources == [] then []
    else if sources[0].kind == ReviewedAuthority then [sources[0]] + Authorities(sources[1..])
    else Authorities(sources[1..])
  }

  function FindTarget(sources: seq<SourceDescriptor>, target: SourceRef): Option<SourceDescriptor> {
    if sources == [] then None
    else if sources[0].source == target then Some(sources[0])
    else FindTarget(sources[1..], target)
  }

  function CheckMember(m: ReviewedBasisMember, manifest: ReviewedBasisManifest, projectId: string): Check {
    Refuse(m.documentId == "" || m.bundleId == "" || m.revisionId == "" || !Canonical(m.version), InvalidSnapshot)
      .Then(CheckSourceRef(SourceRef(manifest.projectId, m.documentId, m.revisionId, m.bodyHash), projectId))
  }

  predicate MemberRepeats(prior: seq<ReviewedBasisMember>, m: ReviewedBasisMember) {
    exists i :: 0 <= i < |prior|
      && (prior[i].documentId == m.documentId || prior[i].bundleId == m.bundleId || prior[i].revisionId == m.revisionId)
  }

  /** The members of the first n entries, checked in order. */
  function CheckMembers(manifest: ReviewedBasisManifest, projectId: string, n: nat): Check
    requires n <= |manifest.prefix|
  {
    if n == 0 then Pass
    else
      CheckMembers(manifest, projectId, n - 1)
      .Then(CheckMember(manifest.prefix[n - 1], manifest, projectId))
      .Then(Refuse(MemberRepeats(manifest.prefix[..n - 1], manifest.prefix[n - 1]), DuplicateSource))
  }

  function CheckReviewedTarget(s: StorySnapshot, p: InformationPolicy, purpose: ContextPurpose): Check {
    var target := FindTarget(s.sources, s.target);
    if target.None? then Refused(InvalidSnapshot)
    else
      Refuse(purpose == Continue && (target.value.kind != CurrentDraft || !target.value.current), BasisMismatch)
      .Then(Refuse(purpose == Continue && target.value.disclosure.readerPosition != p.readerFrontier, InvalidPolicy))
  }

  predicate MemberUnbound(authorities: seq<SourceDescriptor>, m: ReviewedBasisMember) {
    forall i :: 0 <= i < |authorities| ==> !Binds(authorities[i], m)
  }

  function CheckBasisManifest(s: StorySnapshot, p: InformationPolicy, purpose: ContextPurpose): Check {
    if s.basis != Reviewed then Refuse(s.reviewedBasis.Some?, InvalidSnapshot)
    else if s.reviewedBasis.None? then Refused(BasisMismatch)
    else
      var manifest := s.reviewedBasis.value;
      var authorities := Authorities(s.sources);
      Refuse(manifest.projectId != s.projectId || manifest.operationNamespace == "", CrossProjectSource)
      .Then(Refuse(manifest.prefix == [], BasisMismatch))
      .Then(Refuse(|manifest.prefix| > MAX_PREFIX, InvalidSnapshot))
      .Then(CheckMembers(manifest, s.projectId, |manifest.prefix|))
      .Then(CheckReviewedTarget(s, p, purpose))
      .Then(Refuse(|authorities| != |manifest.prefix|
               || (exists i :: 0 <= i < |manifest.prefix| && MemberUnbound(authorities, manifest.prefix[i])),
               InvalidSnapshot))
  }

  // ----- The per-source policies -----

  predicate PrivateTask(basis: BasisKind, p: InformationPolicy, purpose: ContextPurpose) {
    basis == Working && purpose == Discuss && p.audience == AuthorRoom
  }

  /** The kinds of source each editorial basis admits. */
  function KindPolicy(d: SourceDescriptor, p: InformationPolicy, basis: BasisKind, purpose: ContextPurpose,
                      isTarget: bool): Check
  {
    match basis
    case Working =>
      Refuse(!d.current, StaleSource)
      .Then(Refuse(d.kind == Historical || d.kind == PlanAlternative, BasisMismatch))
    case Reviewed =>
      Refuse(!d.current, StaleSource)
      .Then(Refuse(!(isTarget && purpose == Continue && d.kind == CurrentDraft)
                   && !(!isTarget && d.kind == ReviewedAuthority), BasisMismatch))
    case ExplicitHistory =>
      Refuse(
        !(d.kind == Historical && p.allowHistorical) && !(d.kind == PlanAlternative && p.allowAlternatives),
        if d.kind == PlanAlternative then AlternativeNotSelected else HistoryNotSelected)
  }

  function BasisPolicy(d: SourceDescriptor, p: InformationPolicy, basis: BasisKind, purpose: ContextPurpose,
                       isTarget: bool): Check
  {
    Refuse(d.kind == ConversationControl && !(PrivateTask(basis, p, purpose) && isTarget), InvalidDescriptor)
      .Then(Refuse(d.kind == AssistantDraft && !PrivateTask(basis, p, purpose), PrivateSource))
      .Then(KindPolicy(d, p, basis, purpose, isTarget))
  }

  /** The frontier a character's grant must lie under covers this source. */
  predicate Granted(d: SourceDescriptor, p: InformationPolicy, character: string, frontier: string) {
    exists i :: 0 <= i < |p.characterGrants|
      && p.characterGrants[i].characterId == character
      && p.characterGrants[i].sourceHandle == d.handle
      && DecimalLe(p.characterGrants[i].readerFrontier, frontier)
  }

  predicate PrivateMaterial(d: SourceDescriptor) {
    d.kind == PrivateFuture || d.kind == AuthorRoomDiscussion || d.disclosure.authorOnly || d.disclosure.futurePrivate
  }

  function CharacterPolicy(d: SourceDescriptor, p: InformationPolicy, frontier: string): Check {
    if p.characterId.Some? then
      Refuse(
        (d.disclosure.visibleToCharacters != [] && p.characterId.value !in d.disclosure.visibleToCharacters)
        || !Granted(d, p, p.characterId.value, frontier),
        DisclosureDenied)
    else
      Refuse(d.disclosure.visibleToCharacters != [], DisclosureDenied)
  }

  function DisclosurePolicy(d: SourceDescriptor, p: InformationPolicy): Check {
    if p.audience == AuthorRoom then Pass
    else if d.coverage == DirectoryOnly then Refused(DirectoryOnlySource)
    else if PrivateMaterial(d) then
      Refused(if d.disclosure.futurePrivate then FutureContamination else PrivateSource)
    else if p.readerFrontier.None? then Refused(InvalidPolicy)
    else if d.disclosure.readerPosition.None? then Refused(DisclosureUnknown)
    else
      Refuse(!DecimalLe(d.disclosure.readerPosition.value, p.readerFrontier.value), DisclosureDenied)
      .Then(Refuse(d.kind == PlanAlternative && !p.allowAlternatives, AlternativeNotSelected))
      .Then(CharacterPolicy(d, p, p.readerFrontier.value))
  }

  function SourcePolicy(d: SourceDescriptor, p: InformationPolicy, basis: BasisKind, purpose: ContextPurpose,
                        isTarget: bool): Check
  {
    BasisPolicy(d, p, basis, purpose, isTarget)
      .Then(DisclosurePolicy(d, p))
  }

  // ----- Descriptors -----

  function CheckDependency(dep: SourceRef, projectId: string, known: set<SourceRef>): Check {
    CheckSourceRef(dep, projectId)
      .Then(Refuse(dep !in known, UnknownDependency))
  }

  function CheckDependencies(deps: seq<SourceRef>, projectId: string, known: set<SourceRef>): Check {
    if deps == [] then Pass
    else
      CheckDependency(deps[0], projectId, known)
      .Then(CheckDependencies(deps[1..], projectId, known))
  }

  function CheckDescriptor(d: SourceDescriptor, projectId: string, known: set<SourceRef>): Check {
    Refuse(d.handle == "" || d.displayName == "", InvalidDescriptor)
      .Then(CheckSourceRef(d.source, projectId))
      .Then(CheckDependencies(d.dependencies, projectId, known))
      .Then(Refuse(d.disclosure.futurePrivate && !d.disclosure.authorOnly, InvalidDescriptor))
      .Then(Refuse(d.disclosure.readerPosition.Some? && !Canonical(d.disclosure.readerPosition.value),
                   InvalidDescriptor))
      .Then(Refuse(d.storyTime.Some?
             && (d.storyTime.value.timeLabel == ""
                 || (d.storyTime.value.position.Some? && !Canonical(d.storyTime.value.position.value))),
             InvalidDescriptor))
  }

  lemma {:induction false} KnownDependencies(deps: seq<SourceRef>, projectId: string, known: set<SourceRef>)
    requires CheckDependencies(deps, projectId, known) == Pass
    ensures forall i :: 0 <= i < |deps| ==> deps[i] in known
  {
    if deps != [] {
      KnownDependencies(deps[1..], projectId, known);
      assert forall i :: 1 <= i < |deps| ==> deps[i] == deps[1..][i - 1];
    }
  }
}
