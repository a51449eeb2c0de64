/** The frozen context vocabulary shared by the eligibility kernel and the
    retrieval modules. */
module Contracts {
  import opened Wrappers

  datatype BasisKind = Working | Reviewed | ExplicitHistory

  datatype Audience = AuthorRoom | RestrictedWriting

  datatype ContextPurpose = Discuss | Revise | Continue | Plan | StoryQuestion | MemoryAnalysis

  datatype SourceKind =
    | CurrentDraft | ReviewedAuthority | ExplicitRule | AdoptedGuidance
    | GeneratedObservation | GeneratedDigest | PlanAlternative | Historical
    | PrivateFuture | AuthorRoomDiscussion | AssistantDraft | ConversationControl

  datatype CoverageLabel = Verbatim | Digest | DirectoryOnly

  datatype SourceRef = SourceRef(projectId: string, documentId: string, revisionId: string, bodyHash: string)

  datatype Disclosure = Disclosure(
    readerPosition: Option<string>,
    visibleToCharacters: seq<string>,
    authorOnly: bool,
    futurePrivate: bool)

  datatype StoryTime = StoryTime(timeLabel: string, position: Option<string>)

  datatype SourceDescriptor = SourceDescriptor(
    handle: string,
    source: SourceRef,
    displayName: string,
    kind: SourceKind,
    current: bool,
    coverage: CoverageLabel,
    disclosure: Disclosure,
    storyTime: Option<StoryTime>,
    dependencies: seq<SourceRef>)

  datatype CharacterGrant = CharacterGrant(characterId: string, sourceHandle: string, readerFrontier: string)

  datatype InformationPolicy = InformationPolicy(
    version: string,
    audience: Audience,
    readerFrontier: Option<string>,
    characterId: Option<string>,
    characterGrants: seq<CharacterGrant>,
    allowAlternatives: bool,
    allowHistorical: bool)

  datatype ReviewedBasisMember = ReviewedBasisMember(
    documentId: string,
    bundleId: string,
    revisionId: string,
    version: string,
    bodyHash: string)

  datatype ReviewedBasisManifest = ReviewedBasisManifest(
    projectId: string,
    operationNamespace: string,
    prefix: seq<ReviewedBasisMember>)

  datatype StorySnapshot = StorySnapshot(
    snapshotId: string,
    projectId: string,
    basis: BasisKind,
    target: SourceRef,
    contextSourceEpoch: string,
    orderingEpoch: string,
    disclosurePolicyVersion: string,
    sources: seq<SourceDescriptor>,
    reviewedBasis: Option<ReviewedBasisManifest>)
}
