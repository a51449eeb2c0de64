/** Freezing a project chat over its attached documents and drafts, and telling later whether
    the frozen basis is still current. The two look the attached rows up differently. */
module ChatFreeze {
  import opened Wrappers
  import opened Decimals
  import opened RunVocabulary
  import opened Dispositions

  // ----- Tables -----

  datatype Role = Ordinary | ConversationAnchor | AssistantDraft

  /** A document row; intact when its body matches its fingerprint, blank when it is a note of
      one empty paragraph. */
  datatype Document = Document(role: Role, trashed: bool, intact: bool, blank: bool, head: Head)

  datatype Conversation = Conversation(project: string, namespace: string, anchor: string)

  type StoredVersion = n: nat | n <= MAX_I64

  datatype DraftRow = DraftRow(conversation: string, project: string, namespace: string, disposition: string,
                               version: StoredVersion)

  datatype ChatTables = ChatTables(documents: map<string, Document>, conversations: map<string, Conversation>,
                                   drafts: map<string, DraftRow>)

  datatype FreezeError =
    | BadId | BadVersion | ConversationNotFound | ConversationMismatch | InvalidAnchor | DocumentNotFound
    | DocumentRoleMismatch | InvalidDocument | SourceChanged | DuplicateSource | SourceOutsideContext
    | DuplicateDraft | DraftNotFound | DraftChanged | TargetMismatch | SourceDisallowed | RowMissing
    | Log(error: ChatError)

  function ReadDocument(t: ChatTables, id: string, role: Role): Result<Document, FreezeError> {
    if id !in t.documents || t.documents[id].trashed then Err(DocumentNotFound)
    else if t.documents[id].role != role then Err(DocumentRoleMismatch)
    else if !t.documents[id].intact then Err(InvalidDocument)
    else Ok(t.documents[id])
  }

  // ----- The freeze -----

  datatype SourceKey = SourceKey(documentId: string, revisionId: string, bodyHash: string)

  datatype FrozenSource = FrozenSource(key: SourceKey, control: bool)

  datatype FrozenChat = FrozenChat(chat: Chat, anchor: string, dispositions: seq<Decision>)

  /** The requesting project, the revision a draft is checkpointed as, and the verdict of the
      eligibility kernel on the extended sources. */
  datatype Freezing = Freezing(project: string, namespace: string, checkpoint: Head -> string,
                               allowed: seq<FrozenSource> -> bool)

  predicate InContext(sources: seq<FrozenSource>, h: Head) {
    exists i :: 0 <= i < |sources| && sources[i].key.documentId == h.documentId && sources[i].key.bodyHash == h.bodyHash
  }

  predicate HasKey(sources: seq<FrozenSource>, key: SourceKey) {
    exists i :: 0 <= i < |sources| && sources[i].key == key
  }

  predicate Attached(heads: seq<Head>, n: nat, documentId: string)
    requires n <= |heads|
  {
    exists i :: 0 <= i < n && heads[i].documentId == documentId
  }

  predicate AttachedDraft(drafts: seq<DraftRef>, n: nat, documentId: string)
    requires n <= |drafts|
  {
    exists i :: 0 <= i < n && drafts[i].head.documentId == documentId
  }

  function AnchorError(f: Freezing, t: ChatTables, chat: Chat): Option<FreezeError> {
    if !CheckId(chat.conversationId) then Some(BadId)
    else if chat.conversationId !in t.conversations then Some(ConversationNotFound)
    else
      var c := t.conversations[chat.conversationId];
      if c.project != f.project || c.namespace != f.namespace then Some(ConversationMismatch)
      else match ReadDocument(t, c.anchor, ConversationAnchor)
        case Err(e) => Some(e)
        case Ok(d) => if d.blank then None else Some(InvalidAnchor)
  }

  /** The checks of one attached document. */
  function SourceError(t: ChatTables, context: seq<FrozenSource>, heads: seq<Head>, k: nat): Option<FreezeError>
    requires k < |heads|
  {
    match ReadDocument(t, heads[k].documentId, Ordinary)
    case Err(e) => Some(e)
    case Ok(d) =>
      if d.head != heads[k] then Some(SourceChanged)
      else if Attached(heads, k, heads[k].documentId) then Some(DuplicateSource)
      else if !InContext(context, heads[k]) then Some(SourceOutsideContext)
      else None
  }

  function SourcesError(t: ChatTables, context: seq<FrozenSource>, heads: seq<Head>, n: nat): Option<FreezeError>
    requires n <= |heads|
  {
    if n == 0 then None
    else if SourcesError(t, context, heads, n - 1).Some? then SourcesError(t, context, heads, n - 1)
    else SourceError(t, context, heads, n - 1)
  }

  /** The checks of one attached draft, looked up by its document alone. */
  function DraftError(f: Freezing, t: ChatTables, drafts: seq<DraftRef>, k: nat): Option<FreezeError>
    requires k < |drafts|
  {
    var id, wanted := drafts[k].head.documentId, ParseVersion(drafts[k].dispositionVersion);
    if !CheckId(id) then Some(BadId)
    else if wanted.None? then Some(BadVersion)
    else if AttachedDraft(drafts, k, id) then Some(DuplicateDraft)
    else if id !in t.drafts then Some(DraftNotFound)
    else
      var row := t.drafts[id];
      if row.project != f.project || row.namespace != f.namespace || row.disposition != "pending"
         || row.version != wanted.value
      then Some(DraftChanged)
      else match ReadDocument(t, id, AssistantDraft)
        case Err(e) => Some(e)
        case Ok(d) => if d.head != drafts[k].head then Some(DraftChanged) else None
  }

  function DraftKey(f: Freezing, h: Head): SourceKey {
    SourceKey(h.documentId, f.checkpoint(h), h.bodyHash)
  }

  /** The context with the first n drafts added as sources of their own. */
  function WithDrafts(f: Freezing, t: ChatTables, context: seq<FrozenSource>, drafts: seq<DraftRef>, n: nat)
    : Result<seq<FrozenSource>, FreezeError>
    requires n <= |drafts|
  {
    if n == 0 then Ok(context)
    else
      var earlier := WithDrafts(f, t, context, drafts, n - 1);
      if earlier.Err? then earlier
      else if DraftError(f, t, drafts, n - 1).Some? then Err(DraftError(f, t, drafts, n - 1).value)
      else
        var key := DraftKey(f, drafts[n - 1].head);
        if HasKey(earlier.value, key) then Err(DuplicateSource) else Ok(earlier.value + [FrozenSource(key, false)])
  }

  predicate AnchorIsTarget(target: SourceKey, anchor: string, sources: seq<FrozenSource>) {
    target.documentId == anchor && exists i :: 0 <= i < |sources| && sources[i].key == target && sources[i].control
  }

  datatype Frozen = Frozen(sources: seq<FrozenSource>, chat: FrozenChat)

  function Freeze(f: Freezing, t: ChatTables, db: Db, target: SourceKey, context: seq<FrozenSource>, chat: Chat,
                  rows: seq<Row>)
    : Result<Frozen, FreezeError>
  {
    var anchorError, sourcesError := AnchorError(f, t, chat), SourcesError(t, context, chat.sources, |chat.sources|);
    var extended := WithDrafts(f, t, context, chat.drafts, |chat.drafts|);
    if anchorError.Some? then Err(anchorError.value)
    else if sourcesError.Some? then Err(sourcesError.value)
    else if extended.Err? then Err(extended.error)
    else if !AnchorIsTarget(target, t.conversations[chat.conversationId].anchor, extended.value)
            then Err(TargetMismatch)
    else match Collect(db, chat, rows)
      case Err(e) => Err(Log(e))
      case Ok(now) =>
        if !f.allowed(extended.value) then Err(SourceDisallowed)
        else Ok(Frozen(extended.value, FrozenChat(chat, t.conversations[chat.conversationId].anchor, now)))
  }

  lemma {:induction false} SourcesErrorStays(t: ChatTables, context: seq<FrozenSource>, heads: seq<Head>, n: nat,
                                             m: nat)
    requires n <= m <= |heads| && SourcesError(t, context, heads, n).Some?
    ensures SourcesError(t, context, heads, m) == SourcesError(t, context, heads, n)
    decreases m
  {
    if n < m { SourcesErrorStays(t, context, heads, n, m - 1); }
  }

  lemma {:induction false} DraftsErrorStays(f: Freezing, t: ChatTables, context: seq<FrozenSource>,
                                            drafts: seq<DraftRef>, n: nat, m: nat)
    requires n <= m <= |drafts| && WithDrafts(f, t, context, drafts, n).Err?
    ensures WithDrafts(f, t, context, drafts, m) == WithDrafts(f, t, context, drafts, n)
    decreases m
  {
    if n < m { DraftsErrorStays(f, t, context, drafts, n, m - 1); }
  }

  /** The context being frozen: its sources grow and its chat is installed in place. A caller
      drops it when the freeze fails. */
  class FrozenContext {
    const target: SourceKey
    var sources: seq<FrozenSource>
    var chat: Option<FrozenChat>

    constructor (structural: SourceKey, selected: seq<FrozenSource>)
      ensures target == structural && sources == selected && chat.None?
    {
      target, sources, chat := structural, selected, None;
    }

    method CheckSources(t: ChatTables, heads: seq<Head>) returns (error: Option<FreezeError>)
      ensures error == SourcesError(t, sources, heads, |heads|)
    {
      hide ReadDocument, InContext;
      var seen: set<string> := {};
      for k := 0 to |heads|
        invariant SourcesError(t, sources, heads, k).None?
        invariant forall id :: id in seen <==> Attached(heads, k, id)
      {
        var document := ReadDocument(t, heads[k].documentId, Ordinary);
        if document.Err? || document.value.head != heads[k] || heads[k].documentId in seen
           || !InContext(sources, heads[k]) {
          SourcesErrorStays(t, sources, heads, k + 1, |heads|);
          return SourceError(t, sources, heads, k);
        }
        seen := seen + {heads[k].documentId};
      }
      return None;
    }

    method AddDrafts(f: Freezing, t: ChatTables, drafts: seq<DraftRef>) returns (error: Option<FreezeError>)
      modifies this`sources
      ensures var extended := WithDrafts(f, t, old(sources), drafts, |drafts|);
              if extended.Ok? then error.None? && sources == extended.value else error == Some(extended.error)
      ensures old(sources) <= sources
    {
      hide DraftError;
      ghost var before := sources;
      for k := 0 to |drafts|
        invariant WithDrafts(f, t, before, drafts, k) == Ok(sources) && before <= sources
      {
        error := DraftError(f, t, drafts, k);
        if error.Some? {
          DraftsErrorStays(f, t, before, drafts, k + 1, |drafts|);
          return;
        }
        var key := DraftKey(f, drafts[k].head);
        if HasKey(sources, key) {
          DraftsErrorStays(f, t, before, drafts, k + 1, |drafts|);
          return Some(DuplicateSource);
        }
        sources := sources + [FrozenSource(key, false)];
      }
      return None;
    }

    method Augment(f: Freezing, t: ChatTables, db: Db, request: Chat, rows: seq<Row>)
      returns (error: Option<FreezeError>)
      modifies this`sources, this`chat
      ensures match Freeze(f, t, db, target, old(sources), request, rows)
              case Err(e) => error == Some(e)
              case Ok(frozen) => error.None? && sources == frozen.sources && chat == Some(frozen.chat)
      ensures old(sources) <= sources
    {
      hide AnchorIsTarget, WithDrafts, SourcesError, Collect;
      error := AnchorError(f, t, request);
      if error.Some? { return; }
      error := CheckSources(t, request.sources);
      if error.Some? { return; }
      error := AddDrafts(f, t, request.drafts);
      if error.Some? { return; }
      var anchor := t.conversations[request.conversationId].anchor;
      chat := Some(FrozenChat(request, anchor, []));
      if !AnchorIsTarget(target, anchor, sources) { return Some(TargetMismatch); }
      var now := CollectProjectChatDispositions(db, request, rows);
      if now.Err? { return Some(Log(now.error)); }
      chat := Some(FrozenChat(request, anchor, now.value));
      if !f.allowed(sources) { return Some(SourceDisallowed); }
    }
  }

  // ----- Freshness -----

  /** Whether the attached heads are what the project holds now; the first difference decides,
      and a document that cannot be read is an error. */
  function SourcesFresh(t: ChatTables, heads: seq<Head>): Result<bool, FreezeError> {
    if heads == [] then Ok(true)
    else match ReadDocument(t, heads[0].documentId, Ordinary)
      case Err(e) => Err(e)
      case Ok(d) => if d.head != heads[0] then Ok(false) else SourcesFresh(t, heads[1..])
  }

  /** Drafts are looked up by document and conversation; a row of another conversation is an
      error, not a difference. */
  function DraftsFresh(t: ChatTables, conversation: string, drafts: seq<DraftRef>): Result<bool, FreezeError> {
    if drafts == [] then Ok(true)
    else
      var id := drafts[0].head.documentId;
      match ReadDocument(t, id, AssistantDraft)
      case Err(e) => Err(e)
      case Ok(d) =>
        if id !in t.drafts || t.drafts[id].conversation != conversation then Err(RowMissing)
        else if d.head != drafts[0].head || t.drafts[id].disposition != "pending"
                || DecimalText(t.drafts[id].version) != drafts[0].dispositionVersion then Ok(false)
        else DraftsFresh(t, conversation, drafts[1..])
  }

  function BasisIsCurrent(t: ChatTables, db: Db, frozen: FrozenChat, rows: seq<Row>): Result<bool, FreezeError> {
    var sources, drafts := SourcesFresh(t, frozen.chat.sources),
      DraftsFresh(t, frozen.chat.conversationId, frozen.chat.drafts);
    if sources != Ok(true) then sources
    else if drafts != Ok(true) then drafts
    else match Collect(db, frozen.chat, rows)
      case Err(e) => Err(Log(e))
      case Ok(now) => Ok(now == frozen.dispositions)
  }

  /** Compare the attached heads one by one, then replay the decisions. */
  method ProjectChatBasisIsCurrent(t: ChatTables, db: Db, frozen: FrozenChat, rows: seq<Row>)
    returns (answer: Result<bool, FreezeError>)
    ensures answer == BasisIsCurrent(t, db, frozen, rows)
  {
    hide Collect, ReadDocument, DecimalText;
    var heads, drafts := frozen.chat.sources, frozen.chat.drafts;
    for i := 0 to |heads|
      invariant SourcesFresh(t, heads) == SourcesFresh(t, heads[i..])
    {
      assert heads[i..][1..] == heads[i + 1..];
      var document := ReadDocument(t, heads[i].documentId, Ordinary);
      if document.Err? { return Err(document.error); }
      if document.value.head != heads[i] { return Ok(false); }
    }
    for i := 0 to |drafts|
      invariant DraftsFresh(t, frozen.chat.conversationId, drafts)
             == DraftsFresh(t, frozen.chat.conversationId, drafts[i..])
    {
      assert drafts[i..][1..] == drafts[i + 1..];
      var id := drafts[i].head.documentId;
      var document := ReadDocument(t, id, AssistantDraft);
      if document.Err? { return Err(document.error); }
      if id !in t.drafts || t.drafts[id].conversation != frozen.chat.conversationId { return Err(RowMissing); }
      var row := t.drafts[id];
      if document.value.head != drafts[i].head || row.disposition != "pending"
         || DecimalText(row.version) != drafts[i].dispositionVersion {
        return Ok(false);
      }
    }
    var now := CollectProjectChatDispositions(db, frozen.chat, rows);
    if now.Err? { return Err(Log(now.error)); }
    return Ok(now.value == frozen.dispositions);
  }

  // ----- A fresh freeze -----

  lemma {:induction false} CheckedSource(t: ChatTables, context: seq<FrozenSource>, heads: seq<Head>, n: nat, k: nat)
    requires k < n <= |heads| && SourcesError(t, context, heads, n).None?
    ensures SourceError(t, context, heads, k).None?
    decreases n
  {
    hide SourceError;
    if k < n - 1 { CheckedSource(t, context, heads, n - 1, k); }
  }

  lemma {:induction false} CheckedDraft(f: Freezing, t: ChatTables, context: seq<FrozenSource>, drafts: seq<DraftRef>,
                                        n: nat, k: nat)
    requires k < n <= |drafts| && WithDrafts(f, t, context, drafts, n).Ok?
    ensures DraftError(f, t, drafts, k).None?
    decreases n
  {
    hide DraftError, HasKey;
    if k < n - 1 { CheckedDraft(f, t, context, drafts, n - 1, k); }
  }

  lemma {:induction false} HeadsAreFresh(t: ChatTables, heads: seq<Head>)
    requires forall k :: 0 <= k < |heads| ==>
      ReadDocument(t, heads[k].documentId, Ordinary).Ok?
        && ReadDocument(t, heads[k].documentId, Ordinary).value.head == heads[k]
    ensures SourcesFresh(t, heads) == Ok(true)
  {
    hide ReadDocument;
    if heads != [] { HeadsAreFresh(t, heads[1..]); }
  }

  predicate InConversation(t: ChatTables, conversation: string, d: DraftRef) {
    d.head.documentId in t.drafts && t.drafts[d.head.documentId].conversation == conversation
  }

  /** A draft as the freeze left it: current, pending, and at the version requested. */
  predicate DraftHolds(t: ChatTables, d: DraftRef) {
    var id := d.head.documentId;
    && ReadDocument(t, id, AssistantDraft).Ok? && ReadDocument(t, id, AssistantDraft).value.head == d.head
    && id in t.drafts && t.drafts[id].disposition == "pending"
      && DecimalText(t.drafts[id].version) == d.dispositionVersion
  }

  lemma DraftPassed(f: Freezing, t: ChatTables, drafts: seq<DraftRef>, k: nat)
    requires k < |drafts| && DraftError(f, t, drafts, k).None?
    ensures DraftHolds(t, drafts[k])
    ensures t.drafts[drafts[k].head.documentId].project == f.project
    ensures t.drafts[drafts[k].head.documentId].namespace == f.namespace
  {
    hide ReadDocument, DecimalText, Canonical, Value;
    ParsedIffWritten(drafts[k].dispositionVersion, t.drafts[drafts[k].head.documentId].version);
  }

  lemma {:induction false} DraftsAreFreshIff(t: ChatTables, conversation: string, drafts: seq<DraftRef>)
    requires forall k :: 0 <= k < |drafts| ==> DraftHolds(t, drafts[k])
    ensures DraftsFresh(t, conversation, drafts)
         == if forall k :: 0 <= k < |drafts| ==>
           InConversation(t, conversation, drafts[k]) then Ok(true) else Err(RowMissing)
  {
    hide ReadDocument, DecimalText;
    if drafts != [] {
      assert DraftHolds(t, drafts[0]);
      forall k | 0 <= k < |drafts[1..]|
        ensures DraftHolds(t, drafts[1..][k]) { assert drafts[1..][k] == drafts[k + 1]; }
      DraftsAreFreshIff(t, conversation, drafts[1..]);
      assert forall k :: 1 <= k < |drafts| ==> drafts[k] == drafts[1..][k - 1];
    }
  }

  /** A freshly frozen chat is current exactly when every attached draft belongs to the chat's
      own conversation, which the freeze never asks; otherwise the check cannot even answer. */
  lemma FreshlyFrozenIsCurrentIff(f: Freezing, t: ChatTables, db: Db, target: SourceKey, context: seq<FrozenSource>,
                                  chat: Chat, rows: seq<Row>)
    requires Freeze(f, t, db, target, context, chat, rows).Ok?
    ensures BasisIsCurrent(t, db, Freeze(f, t, db, target, context, chat, rows).value.chat, rows)
         == if forall k :: 0 <= k < |chat.drafts| ==>
           InConversation(t, chat.conversationId, chat.drafts[k]) then Ok(true)
            else Err(RowMissing)
  {
    hide AnchorError, Collect, ReadDocument, DraftHolds, DraftError, InConversation, AnchorIsTarget;
    forall k | 0 <= k < |chat.sources|
      ensures ReadDocument(t, chat.sources[k].documentId, Ordinary).Ok?
      ensures ReadDocument(t, chat.sources[k].documentId, Ordinary).value.head == chat.sources[k]
    {
      CheckedSource(t, context, chat.sources, |chat.sources|, k);
    }
    HeadsAreFresh(t, chat.sources);
    forall k | 0 <= k < |chat.drafts| ensures DraftHolds(t, chat.drafts[k]) {
      CheckedDraft(f, t, context, chat.drafts, |chat.drafts|, k);
      DraftPassed(f, t, chat.drafts, k);
    }
    DraftsAreFreshIff(t, chat.conversationId, chat.drafts);
  }

  predicate SameOwner(t: ChatTables, a: string, b: string)
    requires a in t.conversations && b in t.conversations
  {
    t.conversations[a].project == t.conversations[b].project
      && t.conversations[a].namespace == t.conversations[b].namespace
  }

  /** The table constraints: a project and namespace have one conversation, and a draft is
      filed under the project and namespace of its conversation. */
  ghost predicate Constrained(t: ChatTables) {
    && (forall a, b :: a in t.conversations && b in t.conversations && SameOwner(t, a, b) ==> a == b)
    && (forall d :: d in t.drafts ==>
          && t.drafts[d].conversation in t.conversations
          && t.drafts[d].project == t.conversations[t.drafts[d].conversation].project
          && t.drafts[d].namespace == t.conversations[t.drafts[d].conversation].namespace)
  }

  lemma DraftsOfTheConversation(f: Freezing, t: ChatTables, db: Db, target: SourceKey, context: seq<FrozenSource>,
                                chat: Chat, rows: seq<Row>, k: nat)
    requires Constrained(t) && Freeze(f, t, db, target, context, chat, rows).Ok? && k < |chat.drafts|
    ensures InConversation(t, chat.conversationId, chat.drafts[k])
  {
    hide Collect, ReadDocument, DraftHolds, DraftError, AnchorIsTarget, SourcesError, CheckId;
    CheckedDraft(f, t, context, chat.drafts, |chat.drafts|, k);
    DraftPassed(f, t, chat.drafts, k);
    DraftHasRow(t, chat.drafts[k]);
  }

  lemma DraftHasRow(t: ChatTables, d: DraftRef)
    requires DraftHolds(t, d)
    ensures d.head.documentId in t.drafts
  {
  }

  /** Under the constraints of the tables a freshly frozen chat is current. */
  lemma FreshlyFrozenIsCurrent(f: Freezing, t: ChatTables, db: Db, target: SourceKey, context: seq<FrozenSource>,
                               chat: Chat, rows: seq<Row>)
    requires Constrained(t) && Freeze(f, t, db, target, context, chat, rows).Ok?
    ensures BasisIsCurrent(t, db, Freeze(f, t, db, target, context, chat, rows).value.chat, rows) == Ok(true)
  {
    hide Freeze, Constrained, BasisIsCurrent, InConversation;
    forall k | 0 <= k < |chat.drafts| ensures InConversation(t, chat.conversationId, chat.drafts[k]) {
      DraftsOfTheConversation(f, t, db, target, context, chat, rows, k);
    }
    FreshlyFrozenIsCurrentIff(f, t, db, target, context, chat, rows);
  }

  /** With attached documents and drafts unchanged, decisions accepted after the freeze make
      the chat stale exactly when one of them supersedes or makes a decision in the chat's
      scope; decisions that were and stay outside it never do. */
  lemma LaterDecisionsStaleIff(f: Freezing, t: ChatTables, db: Db, target: SourceKey, context: seq<FrozenSource>,
                               chat: Chat, before: seq<Row>, more: seq<Row>)
    requires Constrained(t) && Freeze(f, t, db, target, context, chat, before).Ok? && Latest(db, before + more).Ok?
    ensures var frozen := Freeze(f, t, db, target, context, chat, before).value.chat;
            && BasisIsCurrent(t, db, frozen, before + more).Ok?
            && (BasisIsCurrent(t, db, frozen, before + more).value
                <==> forall r :: !Superseded(db, chat, before, before + more, r))
  {
    FreshlyFrozenIsCurrent(f, t, db, target, context, chat, before);
    hide Latest, InScope, Superseded, SourcesFresh, DraftsFresh, AnchorError, SourcesError, WithDrafts, Constrained;
    LaterProjectionEqualIff(db, chat, before, more);
  }

  // ----- A draft of another conversation -----

  const ANCHOR := Head("anchor", "1", "blank")

  const DRAFT := Head("draft", "1", "body")

  const REQUEST := Chat("mine", [], [DraftRef(DRAFT, "1")])

  /** Two conversations of one project, and a draft filed with the other one. */
  const TABLES := ChatTables(
    map["anchor" := Document(ConversationAnchor, false, true, true, ANCHOR),
        "draft" := Document(AssistantDraft, false, true, false, DRAFT)],
    map["mine" := Conversation("project", "space", "anchor"), "other" := Conversation("project", "space", "anchor")],
    map["draft" := DraftRow("other", "project", "space", "pending", 1)])

  const CONTROL := FrozenSource(SourceKey("anchor", "first", "blank"), true)

  function Permissive(): Freezing {
    Freezing("project", "space", (h: Head) => "checkpoint", (sources: seq<FrozenSource>) => true)
  }

  lemma OneDraft(f: Freezing, t: ChatTables, context: seq<FrozenSource>, drafts: seq<DraftRef>)
    requires |drafts| == 1 && DraftError(f, t, drafts, 0).None? && !HasKey(context, DraftKey(f, drafts[0].head))
    ensures WithDrafts(f, t, context, drafts, 1) == Ok(context + [FrozenSource(DraftKey(f, drafts[0].head), false)])
  {
    hide DraftError;
    assert WithDrafts(f, t, context, drafts, 0) == Ok(context);
  }

  /** The failing case: the chat freezes over a draft of another conversation, and asking at once
      whether it is still current is an error. */
  lemma ForeignDraftIsAnError(db: Db)
    ensures var frozen := Freeze(Permissive(), TABLES, db, CONTROL.key, [CONTROL], REQUEST, []);
            frozen.Ok? && BasisIsCurrent(TABLES, db, frozen.value.chat, []) == Err(RowMissing)
  {
    OneIsParsed();
    var f := Permissive();
    assert DraftError(f, TABLES, REQUEST.drafts, 0).None?;
    var extended := [CONTROL, FrozenSource(DraftKey(f, DRAFT), false)];
    assert DraftKey(f, DRAFT) == SourceKey("draft", "checkpoint", "body");
    assert !HasKey([CONTROL], DraftKey(f, DRAFT)) by { assert |"anchor"| != |"draft"|; }
    OneDraft(f, TABLES, [CONTROL], REQUEST.drafts);
    assert [CONTROL] + [extended[1]] == extended;
    assert AnchorIsTarget(CONTROL.key, "anchor", extended) by { assert extended[0] == CONTROL; }
    FreshlyFrozenIsCurrentIff(f, TABLES, db, CONTROL.key, [CONTROL], REQUEST, []);
    assert !InConversation(TABLES, "mine", REQUEST.drafts[0]);
  }
}
