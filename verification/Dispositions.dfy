/** Author decisions on a project chat's questions and assumptions: a versioned event log
    projected to the latest decision on each, and when a frozen projection goes stale. */
module Dispositions {
  import opened Wrappers
  import opened Decimals
  import opened Text
  import opened RunVocabulary
  import opened HistoryOrder

  const MAX_DISPOSITIONS: nat := 64
  const MAX_RATIONALE_BYTES: nat := 8 * 1024
  const MAX_KEY_BYTES: nat := 128

  datatype ChatError = InvalidProjectChatContext | InvalidId | InvalidVersion

  datatype ScopeKind = ProjectScope | TaskScope | ChapterScope | DocumentScope

  datatype Scope = Scope(kind: ScopeKind, reference: Option<string>) {
    predicate Shaped() {
      if kind == ProjectScope then reference.None? else reference.Some? && CheckId(reference.value)
    }
  }

  /** A decoded event payload; scope and unknownTo are None where they do not decode. */
  datatype Payload = Payload(referenceId: Option<string>, disposition: Option<string>, version: Option<string>,
                             rationale: Option<string>, scope: Option<Scope>, unknownTo: Option<Option<string>>)

  datatype Row = Row(itemId: string, referenceId: string, owned: bool, payloadHash: string, bodyHash: string,
                     payload: Option<Payload>)

  datatype OutputItem = OutputItem(key: string, text: string)

  datatype Output = Output(questions: seq<OutputItem>, assumptions: seq<OutputItem>)

  /** A run as the projection sees it: its ownership, whether it completed, whether this
      conversation requested it, and its output where that parses. */
  datatype Producer = Producer(owned: bool, completed: bool, linked: bool, output: Option<Output>)

  datatype Db = Db(producers: map<string, Producer>, documents: set<string>, chapters: set<string>)

  datatype ItemKind = Question | Assumption

  datatype Decision = Decision(itemId: string, payloadHash: string, referenceId: string, producerRunId: string,
                               key: string, kind: ItemKind, text: string, disposition: string, version: nat,
                               rationale: string, scope: Scope, unknownTo: Option<string>)

  datatype Head = Head(documentId: string, version: string, bodyHash: string)

  datatype DraftRef = DraftRef(head: Head, dispositionVersion: string)

  /** The documents and pending drafts attached to a project chat. */
  datatype Chat = Chat(conversationId: string, sources: seq<Head>, drafts: seq<DraftRef>)

  // ----- Resolving one event -----

  function Split(s: string, i: nat): Option<(string, string)>
    decreases |s| - i
  {
    if i >= |s| then None else if s[i] == ':' then Some((s[..i], s[i + 1..])) else Split(s, i + 1)
  }

  predicate AsciiControl(c: char) {
    c as int < 0x20 || c as int == 0x7F
  }

  predicate KeyShaped(key: string) {
    key != "" && Utf8Len(key) <= MAX_KEY_BYTES && forall i :: 0 <= i < |key| ==> !AsciiControl(key[i])
  }

  function FindItem(items: seq<OutputItem>, key: string): Option<OutputItem> {
    if items == [] then None else if items[0].key == key then Some(items[0]) else FindItem(items[1..], key)
  }

  predicate Allowed(kind: ItemKind, disposition: string) {
    match kind
    case Question => disposition == "notNow" || disposition == "notRelevant" || disposition == "keepMysterious"
      || disposition == "reconsider"
    case Assumption => disposition == "assumptionReject" || disposition == "reconsider"
  }

  predicate ScopeReferenceValid(db: Db, scope: Scope, producerRunId: string) {
    scope.Shaped()
    && match scope.kind
       case ProjectScope => true
       case TaskScope => scope.reference.value == producerRunId
       case ChapterScope => scope.reference.value in db.documents && scope.reference.value in db.chapters
       case DocumentScope => scope.reference.value in db.documents
  }

  /** Decisions on assumptions are project-wide, and unknownTo goes with keepMysterious. */
  predicate ShapeAgrees(kind: ItemKind, disposition: string, scope: Scope, unknownTo: Option<string>) {
    && (kind == Assumption ==> scope.kind == ProjectScope && unknownTo.None?)
    && (unknownTo.Some? ==> disposition == "keepMysterious")
  }

  function ItemOf(output: Output, key: string): Option<(ItemKind, string)> {
    var question, assumption := FindItem(output.questions, key), FindItem(output.assumptions, key);
    if question.Some? then Some((Question, question.value.text))
    else if assumption.Some? then Some((Assumption, assumption.value.text))
    else None
  }

  /** A response event's decision; None for a draft event, which has no response key. */
  function Resolve(db: Db, row: Row): Result<Option<Decision>, ChatError> {
    var parts := Split(row.referenceId, 0);
    if !row.owned || row.bodyHash != row.payloadHash then Err(InvalidProjectChatContext)
    else if parts.None? then Ok(None)
    else if !CheckId(parts.value.0) then Err(InvalidId)
    else if !KeyShaped(parts.value.1) || row.payload.None? then Err(InvalidProjectChatContext)
    else ResolvePayload(db, row, parts.value.0, parts.value.1, row.payload.value)
  }

  function ResolvePayload(db: Db, row: Row, producer: string, key: string, p: Payload)
    : Result<Option<Decision>, ChatError>
  {
    var rationale := if p.rationale.Some? then p.rationale.value else "";
    if p.referenceId != Some(row.referenceId) || p.disposition.None? || p.version.None?
       then Err(InvalidProjectChatContext)
    else if ParseVersion(p.version.value).None? then Err(InvalidVersion)
    else if Utf8Len(rationale) > MAX_RATIONALE_BYTES || p.scope.None? || !p.scope.value.Shaped()
            || p.unknownTo.None? then
      Err(InvalidProjectChatContext)
    else if producer !in db.producers then Err(InvalidProjectChatContext)
    else
      var run := db.producers[producer];
      if !run.owned || !run.completed || !run.linked || run.output.None? then Err(InvalidProjectChatContext)
      else
        var item := ItemOf(run.output.value, key);
        if item.None? || !Allowed(item.value.0, p.disposition.value)
           || !ScopeReferenceValid(db, p.scope.value, producer)
           || !ShapeAgrees(item.value.0, p.disposition.value, p.scope.value, p.unknownTo.value)
        then Err(InvalidProjectChatContext)
        else Ok(Some(Decision(row.itemId, row.payloadHash, row.referenceId, producer, key, item.value.0, item.value.1,
                              p.disposition.value, ParseVersion(p.version.value).value, rationale, p.scope.value,
                              p.unknownTo.value)))
  }

  // ----- The latest decision on each reference, in reference order -----

  ghost predicate InOrder(latest: seq<Decision>) {
    forall i, j :: 0 <= i < j < |latest| ==>
      LexLe(latest[i].referenceId, latest[j].referenceId) && latest[i].referenceId != latest[j].referenceId
  }

  function Lookup(latest: seq<Decision>, reference: string): Option<Decision> {
    if latest == [] then None
    else if latest[|latest| - 1].referenceId == reference then Some(latest[|latest| - 1])
    else Lookup(latest[..|latest| - 1], reference)
  }

  function Upsert(latest: seq<Decision>, d: Decision): seq<Decision> {
    if latest == [] then [d]
    else
      var n := |latest| - 1;
      if latest[n].referenceId == d.referenceId then latest[..n] + [d]
      else if LexLe(latest[n].referenceId, d.referenceId) then latest + [d]
      else Upsert(latest[..n], d) + [latest[n]]
  }

  /** Versions of one reference start at one and advance by one. */
  function Accept(latest: seq<Decision>, d: Decision): Result<seq<Decision>, ChatError> {
    var previous := Lookup(latest, d.referenceId);
    if d.version != (if previous.Some? then previous.value.version + 1 else 1) then Err(InvalidProjectChatContext)
    else if |Upsert(latest, d)| > MAX_DISPOSITIONS then Err(InvalidProjectChatContext)
    else Ok(Upsert(latest, d))
  }

  function Latest(db: Db, rows: seq<Row>): Result<seq<Decision>, ChatError> {
    if rows == [] then Ok([])
    else
      var earlier := Latest(db, rows[..|rows| - 1]);
      if earlier.Err? then earlier
      else match Resolve(db, rows[|rows| - 1])
        case Err(e) => Err(e)
        case Ok(None) => earlier
        case Ok(Some(d)) => Accept(earlier.value, d)
  }

  predicate Applies(chat: Chat, scope: Scope) {
    match scope.kind
    case ProjectScope => true
    case TaskScope => false
    case _ =>
      scope.reference.Some?
      && ((exists i :: 0 <= i < |chat.sources| && chat.sources[i].documentId == scope.reference.value)
          || exists i :: 0 <= i < |chat.drafts| && chat.drafts[i].head.documentId == scope.reference.value)
  }

  function InScope(chat: Chat, latest: seq<Decision>): seq<Decision> {
    if latest == [] then []
    else
      var last := latest[|latest| - 1];
      InScope(chat, latest[..|latest| - 1]) + (if Applies(chat, last.scope) then [last] else [])
  }

  function Collect(db: Db, chat: Chat, rows: seq<Row>): Result<seq<Decision>, ChatError> {
    match Latest(db, rows)
    case Err(e) => Err(e)
    case Ok(latest) => Ok(InScope(chat, latest))
  }

  /** Replay the events in order, keeping the last decision on each reference. */
  method CollectProjectChatDispositions(db: Db, chat: Chat, rows: seq<Row>)
    returns (answer: Result<seq<Decision>, ChatError>)
    ensures answer == Collect(db, chat, rows)
  {
    hide Resolve, Accept, InScope;
    var latest := [];
    for i := 0 to |rows|
      invariant Latest(db, rows[..i]) == Ok(latest)
    {
      assert rows[..i + 1][..i] == rows[..i];
      var resolved := Resolve(db, rows[i]);
      if resolved.Err? {
        LatestStops(db, rows, i + 1);
        return Err(resolved.error);
      }
      if resolved.value.Some? {
        var accepted := Accept(latest, resolved.value.value);
        if accepted.Err? {
          LatestStops(db, rows, i + 1);
          return Err(accepted.error);
        }
        latest := accepted.value;
      }
    }
    assert rows[..|rows|] == rows;
    return Ok(InScope(chat, latest));
  }

  lemma {:induction false} LatestStops(db: Db, rows: seq<Row>, n: nat)
    requires n <= |rows| && Latest(db, rows[..n]).Err?
    ensures Latest(db, rows) == Latest(db, rows[..n])
    decreases |rows| - n
  {
    hide Resolve, Accept;
    if n == |rows| {
      assert rows[..n] == rows;
    } else {
      assert rows[..n + 1][..n] == rows[..n];
      LatestStops(db, rows, n + 1);
    }
  }

  // ----- The ordered list as a map -----

  lemma {:induction false} LookupFinds(latest: seq<Decision>, reference: string)
    ensures var r := Lookup(latest, reference); r.Some? ==> r.value in latest && r.value.referenceId == reference
    ensures Lookup(latest, reference).None? <==> forall i :: 0 <= i < |latest| ==> latest[i].referenceId != reference
  {
    if latest != [] {
      var n := |latest| - 1;
      LookupFinds(latest[..n], reference);
      assert latest == latest[..n] + [latest[n]];
    }
  }

  lemma LookupSnoc(init: seq<Decision>, last: Decision, reference: string)
    ensures Lookup(init + [last], reference) == if last.referenceId == reference then Some(last)
      else Lookup(init, reference)
  {
    assert (init + [last])[..|init|] == init;
  }

  lemma UpsertCases(init: seq<Decision>, last: Decision, d: Decision)
    ensures var latest := init + [last];
            Upsert(latest, d) == if last.referenceId == d.referenceId then init + [d]
                                 else if LexLe(last.referenceId, d.referenceId) then latest + [d]
                                 else Upsert(init, d) + [last]
  {
    assert (init + [last])[..|init|] == init;
  }

  lemma {:induction false} UpsertLooksUp(latest: seq<Decision>, d: Decision, reference: string)
    requires InOrder(latest)
    ensures Lookup(Upsert(latest, d), reference) == if reference == d.referenceId then Some(d)
      else Lookup(latest, reference)
    decreases |latest|
  {
    if latest == [] {
      LookupSnoc([], d, reference);
      assert [] + [d] == [d];
    } else {
      hide LexLe, InOrder, Upsert, Lookup;
      var n := |latest| - 1;
      var init, last := latest[..n], latest[n];
      assert latest == init + [last];
      UpsertCases(init, last, d);
      LookupSnoc(init, last, reference);
      LookupSnoc(init, d, reference);
      LookupSnoc(latest, d, reference);
      LookupSnoc(Upsert(init, d), last, reference);
      OrderedPrefix(latest);
      UpsertLooksUp(init, d, reference);
    }
  }

  lemma OrderedPrefix(latest: seq<Decision>)
    requires InOrder(latest) && latest != []
    ensures InOrder(latest[..|latest| - 1])
  {
    hide LexLe;
  }

  ghost predicate AllBefore(latest: seq<Decision>, reference: string) {
    forall i :: 0 <= i < |latest| ==> LexLe(latest[i].referenceId, reference) && latest[i].referenceId != reference
  }

  lemma OrderedSnoc(init: seq<Decision>, last: Decision)
    requires InOrder(init) && AllBefore(init, last.referenceId)
    ensures InOrder(init + [last])
  {
    hide LexLe;
  }

  lemma BeforeLast(latest: seq<Decision>, reference: string)
    requires InOrder(latest) && latest != []
    requires LexLe(latest[|latest| - 1].referenceId, reference) && latest[|latest| - 1].referenceId != reference
    ensures AllBefore(latest, reference)
  {
    var n := |latest| - 1;
    forall i | 0 <= i < n
      ensures LexLe(latest[i].referenceId, reference) && latest[i].referenceId != reference
    {
      LexLeTransitive(latest[i].referenceId, latest[n].referenceId, reference);
      LexLeTotal(latest[i].referenceId, latest[n].referenceId);
    }
  }

  /** Putting a decision in its place keeps the order. */
  lemma {:induction false} UpsertOrdered(latest: seq<Decision>, d: Decision)
    requires InOrder(latest)
    ensures InOrder(Upsert(latest, d))
    ensures forall r :: AllBefore(latest, r) && LexLe(d.referenceId, r) && d.referenceId != r ==>
      AllBefore(Upsert(latest, d), r)
    decreases |latest|
  {
    hide LexLe;
    if latest != [] {
      var n := |latest| - 1;
      var init, last := latest[..n], latest[n];
      OrderedPrefix(latest);
      assert AllBefore(init, last.referenceId);
      if last.referenceId == d.referenceId {
        OrderedSnoc(init, d);
      } else if LexLe(last.referenceId, d.referenceId) {
        BeforeLast(latest, d.referenceId);
        OrderedSnoc(latest, d);
      } else {
        LexLeTotal(last.referenceId, d.referenceId);
        UpsertOrdered(init, d);
        OrderedSnoc(Upsert(init, d), last);
      }
    }
  }

  lemma SomethingListed(a: seq<Decision>)
    requires a != []
    ensures exists r :: Lookup(a, r).Some?
  {
    assert Lookup(a, a[|a| - 1].referenceId).Some?;
  }

  /** Ordered lists are equal when they answer every lookup alike. */
  lemma {:induction false} LookupsDecide(a: seq<Decision>, b: seq<Decision>)
    requires InOrder(a) && InOrder(b) && forall r :: Lookup(a, r) == Lookup(b, r)
    ensures a == b
    decreases |a|
  {
    hide LexLe;
    if a == [] {
      if b != [] { SomethingListed(b); }
    } else if b == [] {
      SomethingListed(a);
    } else {
      var x := a[|a| - 1];
      assert Lookup(a, x.referenceId) == Some(x);
      LookupFinds(b, x.referenceId);
      var y := b[|b| - 1];
      assert Lookup(b, y.referenceId) == Some(y);
      LookupFinds(a, y.referenceId);
      LastIsGreatest(a, y);
      LastIsGreatest(b, x);
      LexLeTotal(x.referenceId, y.referenceId);
      OrderedPrefix(a);
      OrderedPrefix(b);
      var a0, b0 := a[..|a| - 1], b[..|b| - 1];
      forall r ensures Lookup(a0, r) == Lookup(b0, r) {
        LookupInit(a, r);
        LookupInit(b, r);
      }
      LookupsDecide(a0, b0);
      assert a == a0 + [x] && b == b0 + [y];
    }
  }

  lemma LastIsGreatest(a: seq<Decision>, d: Decision)
    requires InOrder(a) && d in a
    ensures LexLe(d.referenceId, a[|a| - 1].referenceId)
  {
    LexLeTotal(d.referenceId, d.referenceId);
  }

  lemma LookupInit(a: seq<Decision>, r: string)
    requires InOrder(a) && a != []
    ensures Lookup(a[..|a| - 1], r) == if r == a[|a| - 1].referenceId then None else Lookup(a, r)
  {
    hide LexLe;
    LookupFinds(a[..|a| - 1], r);
  }

  // ----- Last-writer fold -----

  /** The decision a row carries, if it is a valid response event. */
  function DecisionOf(db: Db, row: Row): Option<Decision> {
    var r := Resolve(db, row);
    if r.Ok? then r.value else None
  }

  function Count(db: Db, rows: seq<Row>, reference: string): nat {
    if rows == [] then 0
    else
      var d := DecisionOf(db, rows[|rows| - 1]);
      Count(db, rows[..|rows| - 1], reference) + (if d.Some? && d.value.referenceId == reference then 1 else 0)
  }

  /** The last event on a reference. */
  function LastOn(db: Db, rows: seq<Row>, reference: string): Option<Decision> {
    if rows == [] then None
    else
      var d := DecisionOf(db, rows[|rows| - 1]);
      if d.Some? && d.value.referenceId == reference then d else LastOn(db, rows[..|rows| - 1], reference)
  }

  function References(db: Db, rows: seq<Row>): set<string> {
    if rows == [] then {}
    else
      var d := DecisionOf(db, rows[|rows| - 1]);
      References(db, rows[..|rows| - 1]) + (if d.Some? then {d.value.referenceId} else {})
  }

  /** Every event resolves, the k-th event of each reference carries version k, and at
      most 64 references are in play. */
  ghost predicate Orderly(db: Db, rows: seq<Row>) {
    && (forall i :: 0 <= i < |rows| ==> EventFits(db, rows, i))
    && |References(db, rows)| <= MAX_DISPOSITIONS
  }

  predicate EventFits(db: Db, rows: seq<Row>, i: nat)
    requires i < |rows|
  {
    && Resolve(db, rows[i]).Ok?
    && (DecisionOf(db, rows[i]).Some? ==>
          var d := DecisionOf(db, rows[i]).value;
          d.version == Count(db, rows[..i], d.referenceId) + 1)
  }

  lemma EventFitsPrefix(db: Db, rows: seq<Row>, n: nat, i: nat)
    requires i < n <= |rows|
    ensures EventFits(db, rows[..n], i) <==> EventFits(db, rows, i)
  {
    hide Resolve, Count;
    assert rows[..n][..i] == rows[..i];
  }

  lemma OrderlySnoc(db: Db, rows: seq<Row>)
    requires rows != []
    ensures var n := |rows| - 1;
            Orderly(db, rows) <==>
              Orderly(db, rows[..n]) && EventFits(db, rows, n) && |References(db, rows)| <= MAX_DISPOSITIONS
    ensures Orderly(db, rows[..|rows| - 1]) ==> |References(db, rows[..|rows| - 1])| <= MAX_DISPOSITIONS
  {
    hide EventFits, References;
    var n := |rows| - 1;
    FewerReferences(db, rows);
    forall i | 0 <= i < n
      ensures EventFits(db, rows[..n], i) <==> EventFits(db, rows, i)
    {
      EventFitsPrefix(db, rows, n, i);
    }
  }

  lemma FewerReferences(db: Db, rows: seq<Row>)
    requires rows != []
    ensures |References(db, rows[..|rows| - 1])| <= |References(db, rows)|
  {
    hide Resolve;
    Subset(References(db, rows[..|rows| - 1]), References(db, rows));
  }

  lemma {:induction false} Subset(a: set<string>, b: set<string>)
    requires a <= b
    ensures |a| <= |b|
    decreases a
  {
    if x :| x in a {
      Subset(a - {x}, b - {x});
    }
  }

  ghost predicate Mirrors(db: Db, rows: seq<Row>, latest: seq<Decision>) {
    && InOrder(latest) && |latest| == |References(db, rows)|
    && (forall r :: r in References(db, rows) <==> Lookup(latest, r).Some?)
    && forall r :: Lookup(latest, r) == LastOn(db, rows, r)
                   && (if Lookup(latest, r).Some? then Lookup(latest, r).value.version == Count(db, rows, r)
                       else Count(db, rows, r) == 0)
  }

  lemma {:induction false} UpsertSize(latest: seq<Decision>, d: Decision)
    requires InOrder(latest)
    ensures |Upsert(latest, d)| == |latest| + (if Lookup(latest, d.referenceId).Some? then 0 else 1)
    decreases |latest|
  {
    hide LexLe;
    if latest != [] {
      var n := |latest| - 1;
      OrderedPrefix(latest);
      if latest[n].referenceId != d.referenceId {
        if LexLe(latest[n].referenceId, d.referenceId) {
          BeforeLast(latest, d.referenceId);
          LookupFinds(latest, d.referenceId);
        } else {
          UpsertSize(latest[..n], d);
        }
      }
    }
  }

  lemma AcceptedMirrors(db: Db, rows: seq<Row>, latest: seq<Decision>, d: Decision)
    requires rows != [] && DecisionOf(db, rows[|rows| - 1]) == Some(d) && Mirrors(db, rows[..|rows| - 1], latest)
    requires d.version == Count(db, rows[..|rows| - 1], d.referenceId) + 1
    ensures Mirrors(db, rows, Upsert(latest, d)) && |Upsert(latest, d)| == |References(db, rows)|
  {
    hide DecisionOf, LexLe, Upsert, Lookup, InOrder, References, Count, LastOn;
    UpsertOrdered(latest, d);
    UpsertSize(latest, d);
    ReferencesSnoc(db, rows);
    forall r
      ensures Lookup(Upsert(latest, d), r) == if r == d.referenceId then Some(d) else Lookup(latest, r)
      ensures Lookup(Upsert(latest, d), r) == LastOn(db, rows, r)
      ensures Count(db, rows, r) == Count(db, rows[..|rows| - 1], r) + (if r == d.referenceId then 1 else 0)
    {
      UpsertLooksUp(latest, d, r);
      LogSnoc(db, rows, r);
    }
    var before := References(db, rows[..|rows| - 1]);
    assert d.referenceId in before ==> before + {d.referenceId} == before;
  }

  lemma ReferencesSnoc(db: Db, rows: seq<Row>)
    requires rows != []
    ensures var d := DecisionOf(db, rows[|rows| - 1]);
            References(db, rows) == References(db, rows[..|rows| - 1]) + (if d.Some? then {d.value.referenceId} else {})
  {
  }

  lemma LogSnoc(db: Db, rows: seq<Row>, r: string)
    requires rows != []
    ensures var d := DecisionOf(db, rows[|rows| - 1]);
            var here := d.Some? && d.value.referenceId == r;
            && LastOn(db, rows, r) == (if here then d else LastOn(db, rows[..|rows| - 1], r))
            && Count(db, rows, r) == Count(db, rows[..|rows| - 1], r) + (if here then 1 else 0)
  {
  }

  /** Collecting succeeds exactly on orderly logs, and then holds, in reference order,
      precisely the last decision on every reference. */
  lemma {:induction false} CollectingIsLastWriter(db: Db, rows: seq<Row>)
    ensures Latest(db, rows).Ok? <==> Orderly(db, rows)
    ensures Latest(db, rows).Ok? ==> Mirrors(db, rows, Latest(db, rows).value)
  {
    hide Resolve, Upsert, Mirrors, Orderly, Count, References;
    if rows == [] {
      EmptyLog(db);
    } else {
      var n := |rows| - 1;
      CollectingIsLastWriter(db, rows[..n]);
      OrderlySnoc(db, rows);
      if Latest(db, rows[..n]).Ok? && Resolve(db, rows[n]).Ok? {
        var latest := Latest(db, rows[..n]).value;
        if DecisionOf(db, rows[n]).Some? {
          var d := DecisionOf(db, rows[n]).value;
          VersionIsNext(db, rows, latest, d);
          if EventFits(db, rows, n) {
            AcceptedMirrors(db, rows, latest, d);
          }
        } else {
          DraftMirrors(db, rows, latest);
        }
      }
    }
  }

  lemma EmptyLog(db: Db)
    ensures Orderly(db, []) && Mirrors(db, [], [])
  {
  }

  /** The version check against the latest decision is the count check. */
  lemma VersionIsNext(db: Db, rows: seq<Row>, latest: seq<Decision>, d: Decision)
    requires rows != [] && DecisionOf(db, rows[|rows| - 1]) == Some(d) && Mirrors(db, rows[..|rows| - 1], latest)
    ensures var previous := Lookup(latest, d.referenceId);
            d.version == Count(db, rows[..|rows| - 1], d.referenceId) + 1
            <==> d.version == (if previous.Some? then previous.value.version + 1 else 1)
  {
    hide Resolve, InOrder, Count, LastOn, References, Lookup;
  }

  lemma DraftMirrors(db: Db, rows: seq<Row>, latest: seq<Decision>)
    requires rows != [] && DecisionOf(db, rows[|rows| - 1]).None? && Mirrors(db, rows[..|rows| - 1], latest)
    ensures Mirrors(db, rows, latest) && References(db, rows) == References(db, rows[..|rows| - 1])
  {
    hide Resolve, InOrder, Lookup, DecisionOf, Count, LastOn, References;
    ReferencesSnoc(db, rows);
    assert References(db, rows[..|rows| - 1]) + {} == References(db, rows[..|rows| - 1]);
    forall r
      ensures LastOn(db, rows, r) == LastOn(db, rows[..|rows| - 1], r)
      ensures Count(db, rows, r) == Count(db, rows[..|rows| - 1], r)
    {
      LogSnoc(db, rows, r);
    }
  }

  // ----- The projection as a map -----

  function ScopedLookup(chat: Chat, latest: seq<Decision>, r: string): Option<Decision> {
    var d := Lookup(latest, r);
    if d.Some? && Applies(chat, d.value.scope) then d else None
  }

  lemma InScopeSnoc(chat: Chat, init: seq<Decision>, last: Decision)
    ensures InScope(chat, init + [last]) == if Applies(chat, last.scope) then InScope(chat, init) + [last]
      else InScope(chat, init)
  {
    assert (init + [last])[..|init|] == init;
    assert InScope(chat, init) + [] == InScope(chat, init);
  }

  lemma {:induction false} InScopeLooksUp(chat: Chat, latest: seq<Decision>, r: string)
    requires InOrder(latest)
    ensures InOrder(InScope(chat, latest))
    ensures Lookup(InScope(chat, latest), r) == ScopedLookup(chat, latest, r)
    ensures forall d :: d in InScope(chat, latest) ==> d in latest
  {
    if latest != [] {
      var n := |latest| - 1;
      var init, last := latest[..n], latest[n];
      assert latest == init + [last];
      OrderedPrefix(latest);
      hide LexLe, Lookup, Applies, InScope, InOrder, AllBefore;
      InScopeLooksUp(chat, init, r);
      InScopeSnoc(chat, init, last);
      LookupSnoc(init, last, r);
      LookupSnoc(InScope(chat, init), last, r);
      if last.referenceId == r { LookupInit(latest, r); }
      InitBefore(latest, InScope(chat, init));
      OrderedSnoc(InScope(chat, init), last);
    }
  }

  lemma InitBefore(latest: seq<Decision>, some: seq<Decision>)
    requires InOrder(latest) && latest != []
    requires forall d :: d in some ==> d in latest[..|latest| - 1]
    ensures AllBefore(some, latest[|latest| - 1].referenceId)
  {
    hide LexLe;
    forall i | 0 <= i < |some| ensures some[i] in latest[..|latest| - 1] { assert some[i] in some; }
  }

  /** Two projections are equal exactly when they answer every reference alike. */
  lemma ProjectionsEqualIff(chat: Chat, a: seq<Decision>, b: seq<Decision>)
    requires InOrder(a) && InOrder(b)
    ensures InScope(chat, a) == InScope(chat, b) <==> forall r :: ScopedLookup(chat, a, r) == ScopedLookup(chat, b, r)
  {
    hide InOrder, InScope, Lookup, ScopedLookup;
    forall r
      ensures InOrder(InScope(chat, a)) && Lookup(InScope(chat, a), r) == ScopedLookup(chat, a, r)
      ensures InOrder(InScope(chat, b)) && Lookup(InScope(chat, b), r) == ScopedLookup(chat, b, r)
    {
      InScopeLooksUp(chat, a, r);
      InScopeLooksUp(chat, b, r);
    }
    InScopeLooksUp(chat, a, "");
    InScopeLooksUp(chat, b, "");
    if forall r :: ScopedLookup(chat, a, r) == ScopedLookup(chat, b, r) {
      LookupsDecide(InScope(chat, a), InScope(chat, b));
    }
  }

  /** A reference was decided on after the freeze, and the decision it had then or the one
      it has now is in the chat's scope. */
  ghost predicate Superseded(db: Db, chat: Chat, before: seq<Row>, after: seq<Row>, r: string) {
    && Count(db, after, r) > Count(db, before, r)
    && ((LastOn(db, before, r).Some? && Applies(chat, LastOn(db, before, r).value.scope))
        || (LastOn(db, after, r).Some? && Applies(chat, LastOn(db, after, r).value.scope)))
  }

  lemma {:induction false} CountOnlyGrows(db: Db, before: seq<Row>, more: seq<Row>, r: string)
    ensures Count(db, before + more, r) >= Count(db, before, r)
    ensures Count(db, before + more, r) == Count(db, before, r) ==>
      LastOn(db, before + more, r) == LastOn(db, before, r)
    decreases |more|
  {
    hide DecisionOf;
    if more == [] {
      assert before + more == before;
    } else {
      CountOnlyGrows(db, before, more[..|more| - 1], r);
      assert (before + more)[..|before + more| - 1] == before + more[..|more| - 1];
    }
  }

  lemma MirroredScope(db: Db, chat: Chat, rows: seq<Row>, latest: seq<Decision>, r: string)
    requires Mirrors(db, rows, latest)
    ensures InOrder(latest)
    ensures var d := LastOn(db, rows, r);
            && ScopedLookup(chat, latest, r) == (if d.Some? && Applies(chat, d.value.scope) then d else None)
            && (if d.Some? then d.value.version == Count(db, rows, r) else Count(db, rows, r) == 0)
  {
    hide InOrder, LastOn, Count, Lookup, Applies, References;
  }

  /** Projections made before and after more decisions are equal exactly when no reference in
      the chat's scope was superseded or first decided by them. */
  lemma LaterProjectionEqualIff(db: Db, chat: Chat, before: seq<Row>, more: seq<Row>)
    requires Collect(db, chat, before).Ok? && Collect(db, chat, before + more).Ok?
    ensures Collect(db, chat, before + more) == Collect(db, chat, before)
       <==> forall r :: !Superseded(db, chat, before, before + more, r)
  {
    hide Latest, InScope, Mirrors, Applies, InOrder, Count, LastOn, ScopedLookup, Orderly;
    var after := before + more;
    var a, b := Latest(db, before).value, Latest(db, after).value;
    CollectingIsLastWriter(db, before);
    CollectingIsLastWriter(db, after);
    MirroredScope(db, chat, before, a, "");
    MirroredScope(db, chat, after, b, "");
    ProjectionsEqualIff(chat, b, a);
    forall r
      ensures ScopedLookup(chat, b, r) == ScopedLookup(chat, a, r) <==> !Superseded(db, chat, before, after, r)
    {
      MirroredScope(db, chat, before, a, r);
      MirroredScope(db, chat, after, b, r);
      CountOnlyGrows(db, before, more, r);
    }
  }

  // ----- Validating a frozen projection -----

  function FindRow(rows: seq<Row>, itemId: string): Option<Row> {
    if rows == [] then None else if rows[0].itemId == itemId then Some(rows[0]) else FindRow(rows[1..], itemId)
  }

  predicate PayloadMatches(p: Payload, d: Decision) {
    && p.scope.Some? && p.scope.value.Shaped() && p.unknownTo.Some?
    && p.referenceId == Some(d.referenceId) && p.disposition == Some(d.disposition)
    && p.version.Some? && ParseVersion(p.version.value) == Some(d.version)
    && p.rationale == Some(d.rationale) && p.scope.value == d.scope && p.unknownTo.value == d.unknownTo
  }

  /** A frozen decision still matches the event it was projected from. */
  predicate FrozenDecisionValid(db: Db, chat: Chat, rows: seq<Row>, d: Decision) {
    var row := FindRow(rows, d.itemId);
    && CheckId(d.itemId) && row.Some? && row.value.owned
    && row.value.referenceId == d.referenceId && row.value.bodyHash == d.payloadHash
    && row.value.payload.Some? && PayloadMatches(row.value.payload.value, d)
    && Split(d.referenceId, 0) == Some((d.producerRunId, d.key))
    && d.producerRunId in db.producers && db.producers[d.producerRunId].owned
    && Allowed(d.kind, d.disposition)
    && ScopeReferenceValid(db, d.scope, d.producerRunId) && ShapeAgrees(d.kind, d.disposition, d.scope, d.unknownTo)
    && Applies(chat, d.scope)
  }

  ghost predicate ValidateFrozen(db: Db, chat: Chat, rows: seq<Row>, frozen: seq<Decision>) {
    && |frozen| <= MAX_DISPOSITIONS
    && (forall i, j :: 0 <= i < j < |frozen| ==> frozen[i].referenceId != frozen[j].referenceId)
    && (forall i :: 0 <= i < |frozen| ==> FrozenDecisionValid(db, chat, rows, frozen[i]))
  }

  ghost predicate DistinctItems(rows: seq<Row>) {
    && (forall i, j :: 0 <= i < j < |rows| ==> rows[i].itemId != rows[j].itemId)
    && (forall i :: 0 <= i < |rows| ==> CheckId(rows[i].itemId))
  }

  lemma {:induction false} FindRowFinds(rows: seq<Row>, i: nat)
    requires DistinctItems(rows) && i < |rows|
    ensures FindRow(rows, rows[i].itemId) == Some(rows[i])
  {
    hide CheckId;
    if i > 0 {
      FindRowFinds(rows[1..], i - 1);
    }
  }

  lemma {:induction false} LastOnRow(db: Db, rows: seq<Row>, r: string) returns (i: nat)
    requires LastOn(db, rows, r).Some?
    ensures i < |rows| && DecisionOf(db, rows[i]) == LastOn(db, rows, r)
  {
    hide DecisionOf;
    var n := |rows| - 1;
    var d := DecisionOf(db, rows[n]);
    if d.Some? && d.value.referenceId == r {
      i := n;
    } else {
      i := LastOnRow(db, rows[..n], r);
    }
  }

  /** An event's own decision matches it again, unless its payload carries no rationale:
      collecting reads that as empty, validating demands the text. */
  lemma ResolvedMatchesIff(db: Db, row: Row, d: Decision)
    requires DecisionOf(db, row) == Some(d)
    ensures row.payload.Some? && row.owned && row.referenceId == d.referenceId && row.bodyHash == d.payloadHash
    ensures d.itemId == row.itemId
    ensures PayloadMatches(row.payload.value, d) <==> row.payload.value.rationale.Some?
    ensures Split(d.referenceId, 0) == Some((d.producerRunId, d.key))
    ensures d.producerRunId in db.producers && db.producers[d.producerRunId].owned
    ensures Allowed(d.kind, d.disposition) && ScopeReferenceValid(db, d.scope, d.producerRunId)
    ensures ShapeAgrees(d.kind, d.disposition, d.scope, d.unknownTo)
  {
    hide Split, CheckId, KeyShaped, Utf8Len, ItemOf, ParseVersion;
  }

  /** A freshly collected projection passes the frozen-chat validation exactly when every
      projected event's payload carries a rationale. */
  lemma CollectedValidatesIff(db: Db, chat: Chat, rows: seq<Row>, frozen: seq<Decision>)
    requires DistinctItems(rows) && Collect(db, chat, rows) == Ok(frozen)
    ensures ValidateFrozen(db, chat, rows, frozen) <==>
      forall i :: 0 <= i < |frozen| ==> HasRationale(rows, frozen[i])
  {
    hide Latest, LexLe, DistinctItems, FrozenDecisionValid, HasRationale;
    CollectingIsLastWriter(db, rows);
    var latest := Latest(db, rows).value;
    hide Orderly;
    CollectedBounds(db, chat, rows, latest);
    hide Mirrors;
    forall i | 0 <= i < |frozen|
      ensures FrozenDecisionValid(db, chat, rows, frozen[i]) <==> HasRationale(rows, frozen[i])
    {
      CollectedDecision(db, chat, rows, latest, frozen, i);
    }
  }

  predicate HasRationale(rows: seq<Row>, d: Decision) {
    var row := FindRow(rows, d.itemId);
    row.Some? && row.value.payload.Some? && row.value.payload.value.rationale.Some?
  }

  lemma {:induction false} InScopeShorter(chat: Chat, latest: seq<Decision>)
    ensures |InScope(chat, latest)| <= |latest|
    ensures forall i :: 0 <= i < |InScope(chat, latest)| ==> Applies(chat, InScope(chat, latest)[i].scope)
  {
    hide Applies;
    if latest != [] { InScopeShorter(chat, latest[..|latest| - 1]); }
  }

  lemma CollectedBounds(db: Db, chat: Chat, rows: seq<Row>, latest: seq<Decision>)
    requires Mirrors(db, rows, latest) && Latest(db, rows) == Ok(latest)
    ensures |InScope(chat, latest)| <= MAX_DISPOSITIONS && InOrder(InScope(chat, latest))
  {
    hide LexLe, InScope;
    CollectingIsLastWriter(db, rows);
    InScopeShorter(chat, latest);
    InScopeLooksUp(chat, latest, "");
  }

  lemma CollectedDecision(db: Db, chat: Chat, rows: seq<Row>, latest: seq<Decision>, frozen: seq<Decision>, i: nat)
    requires DistinctItems(rows) && Mirrors(db, rows, latest) && frozen == InScope(chat, latest) && i < |frozen|
    ensures FrozenDecisionValid(db, chat, rows, frozen[i]) <==> HasRationale(rows, frozen[i])
  {
    hide LexLe, InScope, Resolve, PayloadMatches, Split, CheckId, Allowed, ScopeReferenceValid, ShapeAgrees, Applies,
      FindRow;
    var d := frozen[i];
    InScopeLooksUp(chat, latest, d.referenceId);
    InScopeShorter(chat, latest);
    ListedIsFound(latest, d);
    var k := LastOnRow(db, rows, d.referenceId);
    ResolvedMatchesIff(db, rows[k], d);
    FindRowFinds(rows, k);
  }

  lemma {:induction false} ListedIsFound(latest: seq<Decision>, d: Decision)
    requires InOrder(latest) && d in latest
    ensures Lookup(latest, d.referenceId) == Some(d)
  {
    hide LexLe;
    var n := |latest| - 1;
    assert latest == latest[..n] + [latest[n]];
    if latest[n] != d {
      OrderedPrefix(latest);
      ListedIsFound(latest[..n], d);
    }
  }

  // ----- An imported event without a rationale -----

  const CURIOUS := Db(map["run" := Producer(true, true, true, Some(Output([OutputItem("key", "Why?")], [])))], {}, {})

  /** Decisions made in the application always store a text, if an empty one; only an imported
      project can hold an event like this. */
  const UNEXPLAINED := Row("item", "run:key", true, "hash", "hash",
    Some(Payload(Some("run:key"), Some("notNow"), Some("1"), None, Some(Scope(ProjectScope, None)), Some(None))))

  const UNEXPLAINED_DECISION := Decision("item", "hash", "run:key", "run", "key", Question, "Why?", "notNow", 1, "",
                                         Scope(ProjectScope, None), None)

  lemma UnexplainedParts()
    ensures Split("run:key", 0) == Some(("run", "key")) && CheckId("run") && KeyShaped("key")
    ensures ParseVersion("1") == Some(1) && Utf8Len("") <= MAX_RATIONALE_BYTES
  {
    hide Split, Utf8Len, ParseVersion;
    SplitReference();
    OneIsParsed();
    LengthBounds("key");
    LengthBounds("");
  }

  lemma SplitReference()
    ensures Split("run:key", 0) == Some(("run", "key"))
  {
    var r := "run:key";
    assert r[3] == ':' && r[..3] == "run" && r[4..] == "key";
    assert Split(r, 3) == Some((r[..3], r[4..]));
    assert Split(r, 2) == Split(r, 3) && Split(r, 1) == Split(r, 2) && Split(r, 0) == Split(r, 1);
  }

  lemma UnexplainedResolves()
    ensures Resolve(CURIOUS, UNEXPLAINED) == Ok(Some(UNEXPLAINED_DECISION))
  {
    hide Split, CheckId, KeyShaped, ParseVersion, Utf8Len;
    UnexplainedParts();
    assert FindItem([OutputItem("key", "Why?")], "key") == Some(OutputItem("key", "Why?"));
  }

  lemma CollectsOne(db: Db, chat: Chat, row: Row, d: Decision)
    requires Resolve(db, row) == Ok(Some(d)) && d.version == 1 && Applies(chat, d.scope)
    ensures Collect(db, chat, [row]) == Ok([d])
  {
    hide Resolve, Applies;
    assert [row][..0] == [] && Latest(db, []) == Ok([]);
    assert Lookup([], d.referenceId) == None && Upsert([], d) == [d];
    assert Latest(db, [row]) == Ok([d]);
    assert InScope(chat, []) == [] && [d][..0] == [];
    assert InScope(chat, [d]) == [] + [d] == [d];
  }

  lemma UnexplainedIsRefused(chat: Chat)
    ensures !FrozenDecisionValid(CURIOUS, chat, [UNEXPLAINED], UNEXPLAINED_DECISION)
  {
    hide CheckId, Split, Allowed, ScopeReferenceValid, ShapeAgrees, Applies;
    assert FindRow([UNEXPLAINED], "item") == Some(UNEXPLAINED);
  }

  /** The failing case: collecting accepts the event, and the validation of the frozen chat
      then refuses what was collected. */
  lemma MissingRationaleFailsValidation(chat: Chat)
    ensures Collect(CURIOUS, chat, [UNEXPLAINED]) == Ok([UNEXPLAINED_DECISION])
    ensures !ValidateFrozen(CURIOUS, chat, [UNEXPLAINED], [UNEXPLAINED_DECISION])
  {
    hide Resolve, Collect, FrozenDecisionValid;
    UnexplainedResolves();
    CollectsOne(CURIOUS, chat, UNEXPLAINED, UNEXPLAINED_DECISION);
    UnexplainedIsRefused(chat);
    assert !FrozenDecisionValid(CURIOUS, chat, [UNEXPLAINED], [UNEXPLAINED_DECISION][0]);
  }
}
