/** The lookup auditor: the checks made on every lookup chain when a project is backed up,
    restored or imported, and what they come down to on the chains the protocol leaves. The same
    pass has another auditor, for provider receipts; `LookupVerdict` says what both decide. */
module LookupAudit {
  import opened Wrappers
  import opened Text
  import opened RunVocabulary
  import opened RunCommands
  import opened RunInvariants
  import opened LookupChain
  import opened LookupInvariants

  // ----- The auditor -----

  predicate AuditInvocation(ch: Chain, k: nat)
    requires 0 in ch.invocations && k in ch.invocations
  {
    var root, i := ch.invocations[0], ch.invocations[k];
    && k <= 2 && i.packet.allowance.Valid()
    && i.packet.completed == k && i.packet.allowance == root.packet.allowance
    && i.packet.reviewedMemory == root.packet.reviewedMemory && i.packet.binding == root.packet.binding
    && root.packet.packetId == ch.record.run.packet.packetId && i.frozen == root.frozen
    && ch.record.result.None?
    && (k > 0 ==>
          && k - 1 in ch.invocations && ch.invocations[k - 1].state.NeedsContextRow?
          && ReadExchanges(ch.results, ch.saved, k - 1) == Some(i.packet.exchanges))
    && (match i.state
        case NeedsContextRow => k in ch.results && ch.results[k].cleanup == Settled
        case CompletedRow => k in ch.results && ch.results[k].cleanup == Settled
        case FailedRow => k in ch.results && ch.results[k].cleanup == Settled
        case PreparedRow => k !in ch.results
        case ClaimedRow => k !in ch.results
        case _ => true)
  }

  /** The size and error clauses on one stored result. */
  predicate ResultBounded(saved: LookupResult) {
    Utf8Len(saved.text) <= MAX_LOOKUP_ENVELOPE_BYTES && (saved.error.Some? ==> Sanitized(saved.error.value))
  }

  predicate AuditLookupResult(h: Host, ch: Chain, k: nat)
    requires k in ch.results
  {
    var saved := ch.results[k];
    && CheckId(saved.eventId) && PrintableText(saved.text) && ResultBounded(saved)
    && k in ch.invocations && ch.invocations[k].packet.packetId == saved.packetId
    && (saved.response.Some? ==>
          ValidEnvelope(h, saved.response.value) && ParseResponse(h, saved.text) == Ok(saved.response.value))
    && ch.invocations[k].state == SettledState(saved.response, saved.outcome, saved.cleanup)
    && (saved.outcome == ProviderCompleted <==> saved.response.Some?)
    && (saved.response.Some? ==> Authorized(h, ch.invocations[k].packet, saved.response.value))
    && ch.invocations[k].packet.binding == saved.binding
    && saved.confirmedStdinBytes <= ch.invocations[k].packet.inputBytes
    && (saved.outcome == ProviderCompleted ==>
          && saved.confirmedStdinBytes == ch.invocations[k].packet.inputBytes && saved.cleanup == Settled
          && saved.error.None?)
    && TotalInput(ch.results) <= ch.invocations[k].packet.allowance.InputLimit()
    && TotalOutput(ch.results) <= ch.invocations[k].packet.allowance.OutputLimit()
  }

  function FirstExchange(exchanges: seq<Exchange>, id: string): Option<Exchange> {
    if exchanges == [] then None
    else if exchanges[0].request.id == id then Some(exchanges[0])
    else FirstExchange(exchanges[1..], id)
  }

  predicate AuditRead(h: Host, ch: Chain, id: string)
    requires id in ch.saved
  {
    var row := ch.saved[id];
    && row.ordinal <= 2 && row.request.id == id && row.ordinal in ch.invocations
    && AuthorizedRead(h, ch.invocations[row.ordinal].packet, row.request)
    && row.request in RequestsOf(ch.results, row.ordinal)
    && ch.invocations[row.ordinal].state.NeedsContextRow?
    && row.ordinal + 1 in ch.invocations
    && FirstExchange(ch.invocations[row.ordinal + 1].packet.exchanges, id)
      == Some(Exchange(row.request, row.answer.result))
  }

  function Assistants(messages: seq<Message>): seq<Message> {
    if messages == [] then []
    else (if messages[0].role == Assistant then [messages[0]] else []) + Assistants(messages[1..])
  }

  predicate ClosingResult(ch: Chain, k: nat) {
    && k in ch.results && k in ch.invocations
    && !ch.invocations[k].state.Open() && !ch.invocations[k].state.NeedsContextRow?
  }

  predicate FinalAnswer(ch: Chain, k: nat) {
    k in ch.results && ch.results[k].response.Some? && ch.results[k].response.value.Discussion?
  }

  /** How a sealed run, its terminal event, its messages and its results must agree. */
  ghost predicate AuditEnding(ch: Chain) {
    var run, n := ch.record.run, |ch.record.events|;
    && (run.status.Terminal() ==>
          && n > 0 && ch.record.events[n - 1].kind == TerminalEvent && ch.record.events[n - 1].sequence == run.sequence
          && AuditSeal(ch, ch.record.events[n - 1]))
    && (run.status == Completed ==> n > 0 && HasAnswer(ch, ch.record.events[n - 1]))
    && (run.status != Completed ==> forall k :: FinalAnswer(ch, k) ==> AuditUnpublished(ch, k))
  }

  ghost predicate AuditSeal(ch: Chain, terminal: Event) {
    var run := ch.record.run;
    && (run.status == Completed ==> terminal.chunk == run.outputText)
    && ((exists k :: ClosingResult(ch, k)) ==> exists k ::
        ClosingResult(ch, k) && ch.results[k].eventId == terminal.eventId)
    && (run.status != Completed ==>
          Assistants(ch.record.messages)
            == [Message(Assistant, WithNote(run.outputText, terminal.chunk), Some(run.packet.packetId))])
  }

  ghost predicate HasAnswer(ch: Chain, terminal: Event) {
    exists k :: k in ch.results && AuditAnswer(ch, k, terminal)
  }

  /** The one final answer of a completed run. */
  ghost predicate AuditAnswer(ch: Chain, k: nat, terminal: Event) {
    && FinalAnswer(ch, k) && (forall j :: FinalAnswer(ch, j) ==> j == k)
    && ch.results[k].outcome == ProviderCompleted
    && (forall j :: j in ch.invocations ==> j <= k)
    && terminal.kind == TerminalEvent && terminal.chunk == ch.results[k].response.value.text
    && Assistants(ch.record.messages)
       == [Message(Assistant, ch.results[k].response.value.text, Some(ch.results[k].packetId))]
  }

  /** A final answer that lost the race with a stop was never published. */
  ghost predicate AuditUnpublished(ch: Chain, k: nat) {
    && (ch.record.run.status == Stopped || ch.record.run.status == Interrupted)
    && (forall j :: FinalAnswer(ch, j) ==> j == k)
    && (k in ch.results ==>
          forall i :: 0 <= i < |ch.record.messages| ==>
            !(ch.record.messages[i].role == Assistant
              && ch.record.messages[i].packetId == Some(ch.results[k].packetId)))
  }

  ghost predicate AuditRows(h: Host, ch: Chain) {
    && 0 in ch.invocations
    && (forall k :: k in ch.invocations ==> AuditInvocation(ch, k))
    && (forall k :: k in ch.results ==> AuditLookupResult(h, ch, k))
    && (forall id :: id in ch.saved ==> AuditRead(h, ch, id))
  }

  ghost predicate AuditChain(h: Host, ch: Chain) {
    AuditRows(h, ch) && AuditEnding(ch)
  }

  // ----- The row clauses -----

  ghost predicate ResultsBounded(ch: Chain) {
    forall k :: k in ch.results ==> ResultBounded(ch.results[k])
  }

  lemma SoundInvocation(h: Host, ch: Chain, k: nat)
    requires Sound(h, ch) && k in ch.invocations
    ensures 0 in ch.invocations && AuditInvocation(ch, k)
  {
    hide Allowance.Valid, ParseResponse, Authorized, CheckId, PrintableText, ReadExchanges, EvidenceAccepted, ReadFits,
      TotalInput, TotalOutput, Budget, Progress, Log, TerminalShape, ActiveShape, Utf8Len;
    assert RowFits(ch.invocations, k);
    if k in ch.results {
      assert ReceiptFits(h, ch.invocations[k], ch.results[k]);
    }
  }

  lemma SoundResult(h: Host, ch: Chain, k: nat)
    requires Sound(h, ch) && k in ch.results
    ensures AuditLookupResult(h, ch, k) <==> ResultBounded(ch.results[k])
  {
    hide Good, Allowance.Valid, Authorized, CheckId, PrintableText, Evidence, TotalInput, TotalOutput, ResultBounded,
      Allowance.InputLimit, Allowance.OutputLimit, ValidEnvelope, Utf8Len, RowFits;
    assert ReceiptFits(h, ch.invocations[k], ch.results[k]);
    RootAllowance(ch, k);
  }

  lemma {:induction false} FirstExchangeFound(exchanges: seq<Exchange>, i: nat)
    requires i < |exchanges| && DistinctExchanges(exchanges)
    ensures FirstExchange(exchanges, exchanges[i].request.id) == Some(exchanges[i])
  {
    if i > 0 {
      assert exchanges[0].request.id != exchanges[i].request.id;
      assert forall a, b :: 0 <= a < b < |exchanges[1..]| ==>
        exchanges[1..][a].request.id != exchanges[1..][b].request.id;
      FirstExchangeFound(exchanges[1..], i - 1);
    }
  }

  lemma SavedRoundAuthorized(h: Host, ch: Chain, o: nat, request: LookupRead)
    requires Receipts(h, ch.invocations, ch.results) && request in RequestsOf(ch.results, o)
    ensures o in ch.invocations && AuthorizedRead(h, ch.invocations[o].packet, request)
    ensures ch.invocations[o].state.NeedsContextRow?
  {
    hide ParseResponse, CheckId, PrintableText, AuthorizedRead;
    assert ReceiptFits(h, ch.invocations[o], ch.results[o]);
  }

  lemma SavedExchangeFound(h: Host, ch: Chain, id: string)
    requires Evidence(h, ch.invocations, ch.results, ch.saved) && id in ch.saved
    ensures var row := ch.saved[id];
            && row.ordinal + 1 in ch.invocations
            && FirstExchange(ch.invocations[row.ordinal + 1].packet.exchanges, id)
               == Some(Exchange(row.request, row.answer.result))
  {
    hide ReadExchanges, FirstExchange, AuthorizedRead, DistinctExchanges, RequestsOf;
    var row := ch.saved[id];
    assert ReadFits(ch.invocations, ch.results, id, row);
    var exchanges := ch.invocations[row.ordinal + 1].packet.exchanges;
    var i :| 0 <= i < |exchanges| && exchanges[i] == Exchange(row.request, row.answer.result);
    AcceptedFacts(h, ch.invocations[row.ordinal + 1].packet);
    FirstExchangeFound(exchanges, i);
  }

  lemma SoundRead(h: Host, ch: Chain, id: string)
    requires Sound(h, ch) && id in ch.saved
    ensures AuditRead(h, ch, id)
  {
    hide Good, Allowance.Valid, Receipts, Budget, FirstExchange, AuthorizedRead, RequestsOf, EvidenceAccepted,
      ReadExchanges,
      Progress;
    assert ReadFits(ch.invocations, ch.results, id, ch.saved[id]);
    assert RowFits(ch.invocations, ch.saved[id].ordinal + 1);
    hide RowFits, Evidence;
    SavedRoundAuthorized(h, ch, ch.saved[id].ordinal, ch.saved[id].request);
    SavedExchangeFound(h, ch, id);
  }

  /** On a sound chain the row clauses come down to the two bounds on stored texts. */
  lemma SoundRowsAudit(h: Host, ch: Chain)
    requires Sound(h, ch)
    ensures AuditRows(h, ch) <==> ResultsBounded(ch)
  {
    hide Sound, AuditInvocation, AuditLookupResult, AuditRead, ResultBounded;
    assert 0 in ch.invocations by { SoundRoot(h, ch); }
    forall k | k in ch.invocations ensures AuditInvocation(ch, k) { SoundInvocation(h, ch, k); }
    forall k | k in ch.results ensures AuditLookupResult(h, ch, k) <==>
      ResultBounded(ch.results[k]) { SoundResult(h, ch, k); }
    forall id | id in ch.saved ensures AuditRead(h, ch, id) { SoundRead(h, ch, id); }
  }

  lemma SoundRoot(h: Host, ch: Chain)
    requires Sound(h, ch)
    ensures 0 in ch.invocations
  {
  }

  // ----- How a run ends -----

  /** One terminal event, the sealed row and one assistant message were added. */
  ghost predicate SealedWith(r: Record, b: Record, status: Status, eventId: string, chunk: string, output: string,
                             message: Message)
  {
    && SameIdentity(r.run, b.run) && b.run.status == status && b.run.outputText == output
    && b.run.sequence == r.run.sequence + 1
    && b.events == r.events + [Event(r.run.sequence + 1, eventId, TerminalEvent, chunk)]
    && b.messages == r.messages + [message]
  }

  lemma OneAssistant(r: Record, message: Message)
    requires |r.messages| == 1 && r.messages[0].role == User && message.role == Assistant
    ensures Assistants(r.messages + [message]) == [message]
    ensures forall i :: 0 <= i < 2 && (r.messages + [message])[i].role == Assistant ==>
      (r.messages + [message])[i] == message
  {
    var all := r.messages + [message];
    assert all[1..] == [message] && all[0] == r.messages[0];
    assert Assistants([message]) == [message] + Assistants([]);
  }

  /** What the ending clauses amount to for a run sealed from an active lookup run. */
  ghost predicate EndsWell(b: Chain, status: Status, eventId: string, chunk: string, output: string, message: Message) {
    && ((exists k :: ClosingResult(b, k)) ==> exists k :: ClosingResult(b, k) && b.results[k].eventId == eventId)
    && (status == Completed ==> chunk == output && CompletedWell(b, chunk, message))
    && (status != Completed ==>
          && message == Message(Assistant, WithNote(output, chunk), Some(b.record.run.packet.packetId))
          && forall k :: FinalAnswer(b, k) ==> UnpublishedWell(b, k, status, message))
  }

  ghost predicate CompletedWell(b: Chain, chunk: string, message: Message) {
    exists k :: k in b.results && FinalAnswer(b, k) && AnsweredWell(b, k, chunk, message)
  }

  ghost predicate AnsweredWell(b: Chain, k: nat, chunk: string, message: Message)
    requires FinalAnswer(b, k)
  {
    && (forall j :: FinalAnswer(b, j) ==> j == k) && b.results[k].outcome == ProviderCompleted
    && (forall j :: j in b.invocations ==> j <= k)
    && chunk == b.results[k].response.value.text
    && message == Message(Assistant, chunk, Some(b.results[k].packetId))
  }

  ghost predicate UnpublishedWell(b: Chain, k: nat, status: Status, message: Message)
    requires FinalAnswer(b, k)
  {
    && (status == Stopped || status == Interrupted) && (forall j :: FinalAnswer(b, j) ==> j == k)
    && message.packetId != Some(b.results[k].packetId)
  }

  lemma SealedEnding(r: Record, b: Chain, status: Status, eventId: string, chunk: string, output: string,
                     message: Message)
    requires RecordSound(r) && r.run.status.Active() && status.Terminal() && message.role == Assistant
    requires SealedWith(r, b.record, status, eventId, chunk, output, message)
    ensures AuditEnding(b) <==> EndsWell(b, status, eventId, chunk, output, message)
  {
    hide FinalAnswer, ClosingResult, Assistants, TerminalShape, ResultShape, Utf8Len, WithNote;
    OneAssistant(r, message);
    assert r.run.sequence == 0 && r.events == [];
    var e := Event(1, eventId, TerminalEvent, chunk);
    assert b.record.events == [e];
    hide Good;
    forall k | FinalAnswer(b, k)
      ensures AuditAnswer(b, k, e) <==> AnsweredWell(b, k, chunk, message)
      ensures b.record.run.status == status ==> (AuditUnpublished(b, k) <==> UnpublishedWell(b, k, status, message))
    {
      AnswerClauses(r, b, k, status, chunk, message, e);
    }
    if HasAnswer(b, e) {
      var k :| k in b.results && AuditAnswer(b, k, e);
      assert AnsweredWell(b, k, chunk, message);
    }
    if CompletedWell(b, chunk, message) {
      var k :| k in b.results && FinalAnswer(b, k) && AnsweredWell(b, k, chunk, message);
      assert AuditAnswer(b, k, e);
    }
  }

  lemma AnswerClauses(r: Record, b: Chain, k: nat, status: Status, chunk: string, message: Message, e: Event)
    requires |r.messages| == 1 && r.messages[0].role == User && message.role == Assistant
    requires b.record.messages == r.messages + [message] && b.record.run.status == status
    requires e.kind == TerminalEvent && e.chunk == chunk && FinalAnswer(b, k)
    ensures AuditAnswer(b, k, e) <==> AnsweredWell(b, k, chunk, message)
    ensures AuditUnpublished(b, k) <==> UnpublishedWell(b, k, status, message)
  {
    hide ClosingResult, Assistants;
    OneAssistant(r, message);
    assert b.record.messages[1] == message;
  }

  /** While the run is active every result asked for context, so all clauses hold. */
  lemma QuietResults(h: Host, ch: Chain)
    requires Sound(h, ch) && ch.record.run.status.Active()
    ensures forall k :: !ClosingResult(ch, k) && !FinalAnswer(ch, k)
    ensures ResultsBounded(ch)
  {
    hide Good, Rows, Evidence, Budget, Authorized, CheckId, PrintableText, ValidEnvelope, Utf8Len;
    forall k | k in ch.results
      ensures ResultBounded(ch.results[k]) && ch.invocations[k].state.NeedsContextRow? && !FinalAnswer(ch, k)
    {
      assert ReceiptFits(h, ch.invocations[k], ch.results[k]);
    }
  }

  lemma ActiveChainsPassAudit(h: Host, ch: Chain)
    requires Sound(h, ch) && ch.record.run.status.Active()
    ensures AuditChain(h, ch)
  {
    hide Sound, AuditRows, FinalAnswer, ClosingResult, AuditSeal, HasAnswer;
    QuietResults(h, ch);
    SoundRowsAudit(h, ch);
  }

  /** A seal that stores no result passes exactly when its message shows its event. */
  lemma UnstoredSealAudit(h: Host, ch: Chain, b: Chain, status: Status, eventId: string, chunk: string, output: string,
                          message: Message)
    requires Sound(h, ch) && ch.record.run.status.Active() && Sound(h, b)
    requires b.results == ch.results
    requires (b.invocations == ch.invocations || b.invocations == MarkStopped(ch.invocations))
    requires status.Terminal() && status != Completed && message.role == Assistant
    requires SealedWith(ch.record, b.record, status, eventId, chunk, output, message)
    ensures AuditChain(h, b) <==>
      message == Message(Assistant, WithNote(output, chunk), Some(ch.record.run.packet.packetId))
  {
    QuietResults(h, ch);
    SoundRowsAudit(h, b);
    assert RecordSound(ch.record);
    SealedEnding(ch.record, b, status, eventId, chunk, output, message);
    hide Sound, AuditRows, AuditEnding, CompletedWell, WithNote, UnpublishedWell, RecordSound;
    forall k ensures !ClosingResult(b, k) && !FinalAnswer(b, k) {
      assert !ClosingResult(ch, k) && !FinalAnswer(ch, k);
    }
  }

  /** The rows a sealed lookup run gains from the shared seal. */
  lemma SealChainRows(ch: Chain, status: Status, reason: string, eventId: string, note: string)
    requires RecordSound(ch.record) && ch.record.run.status.Active()
    requires SealChain(ch, status, reason, eventId, note).refusal.None?
    ensures var b := SealChain(ch, status, reason, eventId, note).chain;
            && b.results == ch.results && b.invocations == MarkStopped(ch.invocations)
            && SealedWith(ch.record, b.record, status, eventId, note, "",
                          Message(Assistant, note, Some(ch.record.run.packet.packetId)))
  {
    hide Utf8Len, CheckId, Insertable, TerminalShape, ResultShape, MarkStopped;
    assert ch.record.run.outputText == "";
  }

  lemma SealChainAudit(h: Host, ch: Chain, status: Status, reason: string, eventId: string, note: string)
    requires Sound(h, ch) && ch.record.run.status.Active() && status.Terminal() && status != Completed
    requires SealChain(ch, status, reason, eventId, note).refusal.None?
    ensures AuditChain(h, SealChain(ch, status, reason, eventId, note).chain)
  {
    hide RecordSound, RowsSound, Progress, AuditChain, SealChain, SealedWith, ChainEvolves, MarkStopped;
    SealChainRows(ch, status, reason, eventId, note);
    SealChainKeeps(h, ch, status, reason, eventId, note);
    UnstoredSealAudit(h, ch, SealChain(ch, status, reason, eventId, note).chain, status, eventId, note, "",
                      Message(Assistant, note, Some(ch.record.run.packet.packetId)));
  }

  // ----- Settling reports -----

  predicate IsFinal(row: LookupResult) {
    row.response.Some? && row.response.value.Discussion?
  }

  predicate IsRequest(row: LookupResult) {
    row.response.Some? && row.response.value.NeedsContext?
  }

  /** b holds the rows of ch with one result stored, its open rows possibly stopped. */
  ghost predicate StoredAs(ch: Chain, b: Chain, ordinal: nat, row: LookupResult) {
    && ordinal in ch.invocations && ordinal !in ch.results && b.results == ch.results[ordinal := row]
    && b.invocations.Keys == ch.invocations.Keys
    && b.invocations[ordinal].state == SettledState(row.response, row.outcome, row.cleanup)
    && forall k :: k in ch.results ==> k in ch.invocations && b.invocations[k].state == ch.invocations[k].state
  }

  lemma StoreOutcomeStoredAs(h: Host, ch: Chain, ordinal: nat, row: LookupResult, b: Chain)
    requires Receipts(h, ch.invocations, ch.results) && Storable(ch, ordinal, row)
    requires var stored := StoreOutcome(ch, ordinal, row).value;
             b.results == stored.results
               && (b.invocations == stored.invocations || b.invocations == MarkStopped(stored.invocations))
    ensures StoredAs(ch, b, ordinal, row)
  {
    hide ResultInsertable, ReceiptFits;
    SettledIsNotOpen(row);
    hide SettledState;
  }

  /** The stored result alone can close the chain or answer it. */
  lemma StoredResults(h: Host, ch: Chain, ordinal: nat, row: LookupResult, b: Chain)
    requires forall k :: !ClosingResult(ch, k) && !FinalAnswer(ch, k)
    requires ResultsBounded(ch) && StoredAs(ch, b, ordinal, row)
    ensures OnlyCloser(b, ordinal, row)
    ensures ResultsBounded(b) <==> ResultBounded(row)
  {
    hide ResultBounded;
    SettledIsNotOpen(row);
    forall k | k != ordinal ensures !ClosingResult(b, k) && !FinalAnswer(b, k) {
      assert !ClosingResult(ch, k) && !FinalAnswer(ch, k);
    }
    assert SettledState(row.response, row.outcome, row.cleanup).NeedsContextRow? <==> IsRequest(row);
    hide SettledState;
    forall k | k in b.results && k != ordinal ensures k in ch.results && b.results[k] == ch.results[k] {}
  }

  ghost predicate OnlyCloser(b: Chain, ordinal: nat, row: LookupResult) {
    && ordinal in b.results && b.results[ordinal] == row
    && (forall k :: FinalAnswer(b, k) <==> k == ordinal && IsFinal(row))
    && (forall k :: ClosingResult(b, k) <==> k == ordinal && !IsRequest(row))
  }

  lemma StoppedEndsWell(b: Chain, ordinal: nat, row: LookupResult, status: Status, note: string, root: string)
    requires OnlyCloser(b, ordinal, row) && status != Completed && b.record.run.packet.packetId == root
    requires IsFinal(row) ==> status == Stopped
    ensures EndsWell(b, status, row.eventId, note, "", Message(Assistant, note, Some(root)))
       <==> !(IsFinal(row) && row.packetId == root)
  {
    hide FinalAnswer, ClosingResult, CompletedWell;
    assert WithNote("", note) == note;
    if IsFinal(row) { assert FinalAnswer(b, ordinal); }
    if !IsRequest(row) { assert ClosingResult(b, ordinal); }
  }

  lemma AnsweredEndsWell(b: Chain, ordinal: nat, row: LookupResult)
    requires OnlyCloser(b, ordinal, row) && IsFinal(row) && row.outcome == ProviderCompleted
    requires forall j :: j in b.invocations ==> j <= ordinal
    ensures var text := row.response.value.text;
            EndsWell(b, Completed, row.eventId, text, text, Message(Assistant, text, Some(row.packetId)))
  {
    hide FinalAnswer, ClosingResult;
    var text := row.response.value.text;
    assert ClosingResult(b, ordinal) && FinalAnswer(b, ordinal);
    assert AnsweredWell(b, ordinal, text, Message(Assistant, text, Some(row.packetId)));
  }

  /** A report that stops the chain fails the audit only by the texts it stores, or as
      a root answer that lost the race with a stop: its seal names the root packet. */
  lemma StoppedSettleAudit(h: Host, ch: Chain, ordinal: nat, row: LookupResult, b: Chain, status: Status, note: string)
    requires Sound(h, ch) && ch.record.run.status.Active() && StoredAs(ch, b, ordinal, row) && Sound(h, b)
    requires row.packetId == ch.invocations[ordinal].packet.packetId
    requires status.Terminal() && status != Completed && (IsFinal(row) ==> status == Stopped)
    requires SealedWith(ch.record, b.record, status, row.eventId, note, "",
                        Message(Assistant, note, Some(ch.record.run.packet.packetId)))
    ensures AuditChain(h, b) <==> ResultBounded(row) && !(IsFinal(row) && ordinal == 0)
  {
    var root := ch.record.run.packet.packetId;
    assert RecordSound(ch.record);
    hide RecordSound, RowsSound, Progress, AuditRows, AuditEnding, EndsWell, ResultBounded, FinalAnswer, ClosingResult;
    QuietResults(h, ch);
    StoredResults(h, ch, ordinal, row, b);
    SoundRowsAudit(h, b);
    SealedEnding(ch.record, b, status, row.eventId, note, "", Message(Assistant, note, Some(root)));
    RootPacketId(h, ch, ordinal);
    StoppedEndsWell(b, ordinal, row, status, note, root);
  }

  lemma RootPacketId(h: Host, ch: Chain, k: nat)
    requires Sound(h, ch) && k in ch.invocations
    ensures ch.invocations[k].packet.packetId == ch.record.run.packet.packetId <==> k == 0
  {
    hide Good, RowFits, Receipts, Evidence, Budget, Allowance.Valid;
  }

  /** A final answer given while the run was running completes it as the lookup auditor demands. */
  lemma AnswerSettleAudit(h: Host, ch: Chain, ordinal: nat, row: LookupResult, b: Chain)
    requires Sound(h, ch) && ch.record.run.status.Active() && StoredAs(ch, b, ordinal, row) && Sound(h, b)
    requires ch.invocations[ordinal].state.ClaimedRow? && ResultBounded(row) && row.outcome == ProviderCompleted
    requires IsFinal(row)
    requires var text := row.response.value.text;
             SealedWith(ch.record, b.record, Completed, row.eventId, text, text,
                        Message(Assistant, text, Some(row.packetId)))
    ensures AuditChain(h, b)
  {
    var text := row.response.value.text;
    assert RecordSound(ch.record);
    hide RecordSound, RowsSound, Progress, AuditRows, AuditEnding, EndsWell, ResultBounded, FinalAnswer, ClosingResult;
    QuietResults(h, ch);
    StoredResults(h, ch, ordinal, row, b);
    SoundRowsAudit(h, b);
    SealedEnding(ch.record, b, Completed, row.eventId, text, text, Message(Assistant, text, Some(row.packetId)));
    LastOrdinal(h, ch, ordinal);
    AnsweredEndsWell(b, ordinal, row);
  }

  lemma LastOrdinal(h: Host, ch: Chain, k: nat)
    requires Sound(h, ch) && k in ch.invocations && ch.invocations[k].state.ClaimedRow?
    ensures forall j :: j in ch.invocations ==> j <= k
  {
    hide Good, RowFits, Receipts, Evidence, Budget, Rows;
    forall j | j in ch.invocations ensures j <= k { OpenIsLast(ch.record, ch.invocations, k, j); }
  }
}
