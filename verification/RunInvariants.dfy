/** What every command keeps of one run, and how a run may evolve. */
module RunInvariants {
  import opened Wrappers
  import opened Decimals
  import opened Text
  import opened RunVocabulary
  import opened RunCommands

  // ----- The invariant -----

  /** Sequences are exactly 1..n and event ids never repeat. */
  ghost predicate Log(events: seq<Event>, n: nat) {
    && |events| == n
    && (forall i :: 0 <= i < n ==> events[i].sequence == i + 1)
    && (forall i, j :: 0 <= i < j < n ==> events[i].eventId != events[j].eventId)
  }

  predicate AllChunks(events: seq<Event>) {
    forall i :: 0 <= i < |events| ==> events[i].kind == ChunkEvent
  }

  /** The text streamed so far, in event order. */
  function Streamed(events: seq<Event>): string {
    if events == [] then "" else Streamed(events[..|events| - 1]) + events[|events| - 1].chunk
  }

  predicate OneUserMessage(messages: seq<Message>) {
    |messages| >= 1 && messages[0].role == User
  }

  ghost predicate ActiveShape(r: Record) {
    && AllChunks(r.events) && r.run.outputText == Streamed(r.events)
    && |r.messages| == 1 && r.result.None?
    && (r.run.status == Queued ==> r.events == [] && r.run.dispatch == Pending)
  }

  /** Sealed: one terminal event, the last; one assistant message, which shows the
      saved text; and no streamed chunk lost from that text. */
  ghost predicate TerminalShape(r: Record) {
    var n := |r.events|;
    && n > 0 && r.events[n - 1].kind == TerminalEvent && AllChunks(r.events[..n - 1])
    && Streamed(r.events[..n - 1]) <= r.run.outputText
    && |r.messages| == 2 && r.messages[1].role == Assistant
    && r.run.outputText <= r.messages[1].content
    && (r.run.status == Completed && !r.run.lookup ==>
          r.messages[1].content == r.run.outputText == r.events[n - 1].chunk && r.run.outputText != "")
  }

  /** A saved receipt and the sealed row tell the same story. */
  ghost predicate ResultShape(r: Record) {
    && (r.result.Some? ==> r.run.status.Terminal() && !r.run.lookup && ReceiptAgrees(r, r.result.value))
    && (r.run.status == Completed && !r.run.lookup && r.run.packet.binding.Some? ==> r.result.Some?)
  }

  ghost predicate ReceiptAgrees(r: Record, saved: ProviderResult) {
    && Terminated(r, saved.eventId) && saved.expectedSequence + 1 == r.run.sequence
    && saved.assistantText == r.run.outputText && r.run.packet.binding == Some(saved.binding)
    && ReceiptBounded(r.run.packet, saved) && StatusAllowed(r.run.status, saved)
  }

  /** The run's last event is terminal and carries this id. */
  predicate Terminated(r: Record, eventId: string) {
    r.events != [] && r.events[|r.events| - 1].eventId == eventId && r.events[|r.events| - 1].kind == TerminalEvent
  }

  predicate ReceiptBounded(p: Packet, saved: ProviderResult) {
    && Utf8Len(saved.assistantText) <= saved.binding.OutputLimit()
    && (saved.status == ProviderCompleted ==> saved.assistantText != "" && saved.error.None?)
    && (saved.error.Some? ==> Sanitized(saved.error.value))
    && (if saved.binding.transport == Http then
          && saved.confirmedStdinBytes == 0 && DeliveryShape(saved.delivery, saved.status)
          && saved.delivery.value.bodyHash == p.bodyHash && saved.delivery.value.bodyBytes == p.bodyBytes
        else
          && saved.delivery.None? && saved.confirmedStdinBytes <= p.inputBytes
          && saved.confirmedStdinBytes <= saved.binding.InputLimit()
          && (saved.status == ProviderCompleted ==> saved.confirmedStdinBytes == p.inputBytes))
  }

  /** The run statuses the auditor accepts beside a provider outcome. */
  predicate StatusAllowed(status: Status, saved: ProviderResult) {
    if saved.cleanup == Unresolved then status == Interrupted
    else match saved.status
      case ProviderCompleted => status == Completed || status == Stopped
      case ProviderStopped => status == Stopped
      case _ => status == Failed || status == Stopped
  }

  ghost predicate Good(r: Record) {
    && IsNewId(r.run.owner.runId)
    && Log(r.events, r.run.sequence) && r.run.sequence <= MAX_I64
    && Utf8Len(r.run.outputText) <= MAX_OUTPUT_BYTES
    && OneUserMessage(r.messages)
    && (if r.run.status.Active() then ActiveShape(r) else TerminalShape(r))
    && ResultShape(r)
  }

  // ----- Evolution -----

  predicate SameIdentity(a: RunRow, b: RunRow) {
    && a.owner == b.owner && a.operationId == b.operationId && a.payloadHash == b.payloadHash
    && a.packet == b.packet && a.lookup == b.lookup
  }

  /** b is a possible later state of a: nothing stored is rewritten or lost, the
      status never falls back, and a sealed run is frozen. */
  ghost predicate Evolves(a: Record, b: Record) {
    && SameIdentity(a.run, b.run)
    && a.events <= b.events && a.messages <= b.messages && a.run.outputText <= b.run.outputText
    && a.run.sequence <= b.run.sequence
    && a.run.status.Rank() <= b.run.status.Rank()
    && (a.run.status.Terminal() ==> b == a)
  }

  lemma EvolvesTrans(a: Record, b: Record, c: Record)
    requires Evolves(a, b) && Evolves(b, c)
    ensures Evolves(a, c)
  {
  }

  // ----- The event table -----

  lemma {:induction false} FindEventExact(events: seq<Event>, n: nat, i: nat)
    requires Log(events, n) && i < n
    ensures FindEvent(events, events[i].eventId) == Some(events[i])
  {
    FirstMatch(events, i);
  }

  lemma {:induction false} FirstMatch(events: seq<Event>, i: nat)
    requires i < |events|
    requires forall j :: 0 <= j < i ==> events[j].eventId != events[i].eventId
    ensures FindEvent(events, events[i].eventId) == Some(events[i])
  {
    if i > 0 {
      FirstMatch(events[1..], i - 1);
    }
  }

  lemma {:induction false} FindEventMisses(events: seq<Event>, id: string)
    ensures FindEvent(events, id).None? <==> forall i :: 0 <= i < |events| ==> events[i].eventId != id
  {
    if events != [] {
      FindEventMisses(events[1..], id);
      assert forall i :: 1 <= i < |events| ==> events[i] == events[1..][i - 1];
      if events[0].eventId != id && FindEvent(events, id).Some? {
        assert FindEvent(events[1..], id).Some?;
        var i :| 0 <= i < |events[1..]| && events[1..][i].eventId == id;
        assert events[i + 1].eventId == id;
      }
    }
  }

  lemma LogGrows(events: seq<Event>, n: nat, e: Event)
    requires Log(events, n) && e.sequence == n + 1
    ensures Insertable(events, e) <==> FindEvent(events, e.eventId).None?
    ensures Insertable(events, e) ==> Log(events + [e], n + 1)
  {
    FindEventMisses(events, e.eventId);
  }

  lemma StreamedGrows(events: seq<Event>, e: Event)
    ensures Streamed(events + [e]) == Streamed(events) + e.chunk
  {
    assert (events + [e])[..|events|] == events;
  }

  // ----- Each command -----

  ghost predicate Sealed(a: Record, b: Record, status: Status, eventId: string, chunk: string, output: string) {
    && Evolves(a, b) && b.run.status == status && b.run.outputText == output
    && b.events == a.events + [Event(a.run.sequence + 1, eventId, TerminalEvent, chunk)]
  }

  /** Every terminal transition is made of these parts. */
  lemma TerminateKeeps(r: Record, status: Status, eventId: string, chunk: string, output: string,
                       reason: Option<string>, message: Message)
    requires Good(r) && r.run.status.Active() && status.Terminal()
    requires r.run.outputText <= output && Utf8Len(output) <= MAX_OUTPUT_BYTES
    requires message.role == Assistant && output <= message.content
    requires status == Completed && !r.run.lookup ==> message.content == output == chunk && output != ""
    requires status == Completed && !r.run.lookup ==> r.run.packet.binding.None?
    requires Terminate(r, status, eventId, chunk, output, reason, message).Ok?
    ensures var sealed := Terminate(r, status, eventId, chunk, output, reason, message).value;
            Good(sealed) && Sealed(r, sealed, status, eventId, chunk, output)
  {
    SealedShape(r, status, eventId, chunk, output, reason, message);
  }

  /** One more row in the event table. */
  lemma EventAdded(r: Record, e: Event)
    requires Log(r.events, r.run.sequence) && Insertable(r.events, e) && e.sequence == r.run.sequence + 1
    ensures Log(r.events + [e], r.run.sequence + 1)
    ensures r.events <= r.events + [e] && (r.events + [e])[..|r.events|] == r.events
    ensures (r.events + [e])[|r.events|] == e && |r.events + [e]| == |r.events| + 1
  {
    LogGrows(r.events, r.run.sequence, e);
  }

  /** As above, before any receipt is attached. */
  lemma SealedShape(r: Record, status: Status, eventId: string, chunk: string, output: string,
                    reason: Option<string>, message: Message)
    requires Good(r) && r.run.status.Active() && status.Terminal()
    requires r.run.outputText <= output
    requires message.role == Assistant && output <= message.content
    requires status == Completed && !r.run.lookup ==> message.content == output == chunk && output != ""
    requires Terminate(r, status, eventId, chunk, output, reason, message).Ok?
    ensures var sealed := Terminate(r, status, eventId, chunk, output, reason, message).value;
            && Log(sealed.events, sealed.run.sequence) && sealed.run.sequence <= MAX_I64
            && TerminalShape(sealed) && Sealed(r, sealed, status, eventId, chunk, output)
  {
    hide Utf8Len, ReceiptAgrees, Streamed, FindEvent;
    var e := Event(r.run.sequence + 1, eventId, TerminalEvent, chunk);
    EventAdded(r, e);
    var sealed := Terminate(r, status, eventId, chunk, output, reason, message).value;
    TerminalParts(r, sealed, e, message);
    assert Evolves(r, sealed) by {
      hide Good, Log, TerminalShape, ActiveShape, ResultShape, Insertable;
      assert r.messages <= r.messages + [message];
      assert SameIdentity(r.run, sealed.run);
      assert r.events <= sealed.events;
      assert r.messages <= sealed.messages;
      assert r.run.outputText <= sealed.run.outputText;
      assert r.run.sequence <= sealed.run.sequence;
      assert r.run.status.Rank() <= sealed.run.status.Rank();
    }
    assert sealed.events == r.events + [e];
  }

  /** The rows left by a terminal transition have the sealed shape. */
  lemma TerminalParts(r: Record, b: Record, e: Event, message: Message)
    requires ActiveShape(r) && e.kind == TerminalEvent && message.role == Assistant
    requires b.events == r.events + [e] && b.events[..|r.events|] == r.events && b.messages == r.messages + [message]
    requires b.run.lookup == r.run.lookup
    requires r.run.outputText <= b.run.outputText <= message.content
    requires b.run.status == Completed && !r.run.lookup ==>
      message.content == b.run.outputText == e.chunk && b.run.outputText != ""
    ensures TerminalShape(b)
  {
    hide Streamed, AllChunks;
    assert b.messages[1] == message && b.events[|r.events|] == e;
    assert |b.events| - 1 == |r.events|;
  }

  lemma SealKeeps(r: Record, status: Status, reason: string, eventId: string, note: string)
    requires Good(r) && status.Terminal() && (status == Completed ==> r.run.lookup)
    requires SealRun(r, status, reason, eventId, note).Ok?
    ensures var sealed := SealRun(r, status, reason, eventId, note).value;
            Good(sealed) && Sealed(r, sealed, status, eventId, note, r.run.outputText)
  {
    WithNoteKeepsText(r.run.outputText, note);
    TerminateKeeps(r, status, eventId, note, r.run.outputText, Some(reason),
                   Message(Assistant, WithNote(r.run.outputText, note), Some(r.run.packet.packetId)));
  }

  ghost predicate Keeps(r: Record, reply: Reply) {
    Good(reply.record) && Evolves(r, reply.record)
  }

  lemma UnchangedKeeps(r: Record, e: Option<Error>)
    requires Good(r)
    ensures Keeps(r, Reply(r, e))
  {
  }

  lemma AppendKeeps(r: Record, eventId: string, chunk: string, expected: nat)
    requires Good(r)
    ensures Keeps(r, Append(r, eventId, chunk, expected))
  {
    var reply := Append(r, eventId, chunk, expected);
    if reply.record == r {
      UnchangedKeeps(r, reply.error);
    } else {
      ChunkKeeps(r, Event(r.run.sequence + 1, eventId, ChunkEvent, chunk));
    }
  }

  lemma ChunkKeeps(r: Record, e: Event)
    requires Good(r) && r.run.status == Running && r.run.sequence < MAX_I64
    requires e.kind == ChunkEvent && e.sequence == r.run.sequence + 1 && Insertable(r.events, e)
    requires Utf8Len(r.run.outputText) + Utf8Len(e.chunk) <= MAX_OUTPUT_BYTES
    ensures var b := Record(r.run.(sequence := r.run.sequence + 1, outputText := r.run.outputText + e.chunk),
                            r.events + [e], r.messages, r.result);
            Good(b) && Evolves(r, b)
  {
    EventAdded(r, e);
    StreamedGrows(r.events, e);
    Utf8LenAppend(r.run.outputText, e.chunk);
  }

  /** Moving an active row on without touching its log or text. */
  lemma RowKeeps(r: Record, row: RunRow)
    requires Good(r) && r.run.status.Active() && row.status.Active() && row.status != Queued
    requires r.run.status.Rank() <= row.status.Rank()
    requires SameIdentity(r.run, row) && row.sequence == r.run.sequence && row.outputText == r.run.outputText
    ensures Good(r.(run := row)) && Evolves(r, r.(run := row))
  {
  }

  lemma SealReplyKeeps(r: Record, status: Status, reason: string, eventId: string, note: string)
    requires Good(r) && status.Terminal() && status != Completed
    ensures Keeps(r, OrRefuse(r, SealRun(r, status, reason, eventId, note)))
  {
    if SealRun(r, status, reason, eventId, note).Ok? {
      SealKeeps(r, status, reason, eventId, note);
    } else {
      UnchangedKeeps(r, OrRefuse(r, SealRun(r, status, reason, eventId, note)).error);
    }
  }

  lemma BeginKeeps(r: Record, contextCurrent: bool)
    requires Good(r)
    ensures Keeps(r, Begin(r, contextCurrent))
  {
    var reply := Begin(r, contextCurrent);
    if reply.record == r {
      UnchangedKeeps(r, reply.error);
    } else if contextCurrent {
      RowKeeps(r, reply.record.run);
    } else {
      SealReplyKeeps(r, Failed, "context_stale", STALE_PREFIX + r.run.owner.runId, STALE_MESSAGE);
    }
  }

  lemma MarkDeliveredKeeps(r: Record)
    requires Good(r)
    ensures Keeps(r, MarkDelivered(r))
  {
    var reply := MarkDelivered(r);
    if reply.record == r {
      UnchangedKeeps(r, reply.error);
    } else {
      RowKeeps(r, reply.record.run);
    }
  }

  lemma FinishKeeps(r: Record, eventId: string, text: string, expected: nat)
    requires Good(r)
    ensures Keeps(r, Finish(r, eventId, text, expected))
  {
    var reply := Finish(r, eventId, text, expected);
    if reply.record == r {
      UnchangedKeeps(r, reply.error);
    } else {
      TerminateKeeps(r, Completed, eventId, text, text, r.run.stopReason, Message(Assistant, text, None));
    }
  }

  lemma FailKeeps(r: Record, eventId: string, reason: string, expected: nat)
    requires Good(r)
    ensures Keeps(r, Fail(r, eventId, reason, expected))
  {
    hide Good, Evolves, RunCommands.SealRun, FindEvent;
    var reply := Fail(r, eventId, reason, expected);
    if reply.record == r {
      UnchangedKeeps(r, reply.error);
    } else {
      SealReplyKeeps(r, Failed, reason, eventId, FailureText(reason));
    }
  }

  lemma StopKeeps(r: Record)
    requires Good(r)
    ensures Keeps(r, Stop(r))
  {
    var reply := Stop(r);
    if reply.record == r {
      UnchangedKeeps(r, reply.error);
    } else if r.run.status == Queued {
      SealReplyKeeps(r, Stopped, "author_stopped", STOP_PREFIX + r.run.owner.runId, STOP_SETTLED_MESSAGE);
    } else {
      RowKeeps(r, reply.record.run);
    }
  }

  lemma SettleStopKeeps(r: Record, eventId: string, text: string, expected: nat, cleanup: Cleanup)
    requires Good(r)
    ensures Keeps(r, SettleStop(r, eventId, text, expected, cleanup))
  {
    var reply := SettleStop(r, eventId, text, expected, cleanup);
    if reply.record == r {
      UnchangedKeeps(r, reply.error);
    } else {
      WithNoteKeepsText(text, StopNote(cleanup));
      var reason := if cleanup == Settled then "author_stopped" else "stop_cleanup_unresolved";
      TerminateKeeps(r, StopStatus(cleanup), eventId, text, text, Some(reason),
        Message(Assistant, WithNote(text, StopNote(cleanup)), Some(r.run.packet.packetId)));
    }
  }

  /** A settlement that passes its checks leaves a receipt the auditor accepts. */
  lemma SettlementAgrees(r: Record, q: Report, expected: nat)
    requires r.run.status == Running || r.run.status == Stopping
    requires ReportShapeError(q).None? && SettlementError(r, q, expected).None?
    ensures ReceiptBounded(r.run.packet, Saved(q, expected))
    ensures StatusAllowed(SettledStatus(r.run.status, q.status, q.cleanup), Saved(q, expected))
    ensures r.run.outputText <= q.assistantText && Utf8Len(q.assistantText) <= MAX_OUTPUT_BYTES
    ensures SettledStatus(r.run.status, q.status, q.cleanup) == Completed ==> q.assistantText != ""
    ensures expected == r.run.sequence && r.run.packet.binding == Some(q.binding)
  {
  }

  lemma SettleProviderKeeps(r: Record, q: Report, expected: nat)
    requires Good(r) && ReportShapeError(q).None?
    ensures Keeps(r, SettleProvider(r, q, expected))
  {
    var reply := SettleProvider(r, q, expected);
    if reply.record == r {
      UnchangedKeeps(r, reply.error);
    } else {
      SettledKeeps(r, q, expected);
    }
  }

  lemma SettledKeeps(r: Record, q: Report, expected: nat)
    requires Good(r) && ReportShapeError(q).None? && SettleProvider(r, q, expected).record != r
    ensures Keeps(r, SettleProvider(r, q, expected))
  {
    hide Utf8Len, ReceiptBounded, StatusAllowed, Log, DeliveryMatches, ReportShapeError, BoundedNote, Insertable,
      FindEvent;
    var status := SettledStatus(r.run.status, q.status, q.cleanup);
    var note := SettledNote(q, status);
    var content := if status == Completed then q.assistantText else WithNote(q.assistantText, note);
    var reason := SettledReason(r.run.status, q.status, q.cleanup);
    var message := Message(Assistant, content, Some(r.run.packet.packetId));
    WithNoteKeepsText(q.assistantText, note);
    assert !r.run.lookup && r.run.status.Active() && status.Terminal();
    SettlementAgrees(r, q, expected);
    SealedShape(r, status, q.eventId, note, q.assistantText, reason, message);
    ReceiptAttached(r, Terminate(r, status, q.eventId, note, q.assistantText, reason, message).value, status, q.eventId,
                    note, q.assistantText, if WasDelivered(r.run.packet, q) then Delivered else r.run.dispatch,
                    Saved(q, expected));
  }

  /** Attaching the receipt of the terminal event just inserted. */
  lemma ReceiptAttached(r: Record, sealed: Record, status: Status, eventId: string, chunk: string, output: string,
                        dispatch: DispatchState, saved: ProviderResult)
    requires Good(r) && r.run.status.Active() && status.Terminal() && !r.run.lookup
    requires Log(sealed.events, sealed.run.sequence) && sealed.run.sequence <= MAX_I64 && TerminalShape(sealed)
    requires Sealed(r, sealed, status, eventId, chunk, output) && Utf8Len(output) <= MAX_OUTPUT_BYTES
    requires saved.eventId == eventId && saved.expectedSequence == r.run.sequence && saved.assistantText == output
    requires r.run.packet.binding == Some(saved.binding)
    requires ReceiptBounded(r.run.packet, saved) && StatusAllowed(status, saved)
    ensures var b := sealed.(run := sealed.run.(dispatch := dispatch), result := Some(saved));
            Good(b) && Evolves(r, b)
  {
    hide ReceiptBounded, StatusAllowed, Utf8Len, TerminalShape, Streamed;
    assert |sealed.events| == sealed.run.sequence;
    hide Log;
    var b := sealed.(run := sealed.run.(dispatch := dispatch), result := Some(saved));
    SameTerminal(sealed, b);
    assert ResultShape(b) && Good(b) && Evolves(r, b);
  }

  lemma SameTerminal(a: Record, b: Record)
    requires TerminalShape(a) && b.events == a.events && b.messages == a.messages
    requires b.run == a.run.(dispatch := b.run.dispatch)
    ensures TerminalShape(b)
  {
    hide Streamed, AllChunks;
  }

  lemma InterruptKeeps(r: Record, reason: string, note: string)
    requires Good(r) && Interrupt(r, reason, note).Ok?
    ensures Good(Interrupt(r, reason, note).value) && Evolves(r, Interrupt(r, reason, note).value)
    ensures Interrupt(r, reason, note).value.run.status == Interrupted
  {
    SealKeeps(r, Interrupted, reason, INTERRUPTED_PREFIX + r.run.owner.runId, note);
  }

  lemma InterruptRunKeeps(r: Record)
    requires Good(r)
    ensures Keeps(r, InterruptRun(r))
  {
    var reply := InterruptRun(r);
    if reply.record == r {
      UnchangedKeeps(r, reply.error);
    } else {
      InterruptKeeps(r, "project_close_cleanup", STOP_UNRESOLVED_MESSAGE);
    }
  }

  /** Sealing an active run with a well-formed system id fails only when the id is
      already taken or the sequence is exhausted. */
  lemma SealSucceedsIff(r: Record, status: Status, reason: string, eventId: string, note: string)
    requires Good(r) && r.run.status.Active() && status.Terminal()
    requires CheckId(eventId) && reason != "" && BoundedNote(note)
    ensures SealRun(r, status, reason, eventId, note).Ok?
       <==> FindEvent(r.events, eventId).None? && r.run.sequence < MAX_I64
  {
    LogGrows(r.events, r.run.sequence, Event(r.run.sequence + 1, eventId, TerminalEvent, note));
  }

  lemma InterruptSucceedsIff(r: Record, reason: string, note: string)
    requires Good(r) && r.run.status.Active() && reason != "" && BoundedNote(note)
    ensures Interrupt(r, reason, note).Ok?
       <==> FindEvent(r.events, INTERRUPTED_PREFIX + r.run.owner.runId).None? && r.run.sequence < MAX_I64
  {
    SystemIdChecks(INTERRUPTED_PREFIX, r.run.owner.runId);
    SealSucceedsIff(r, Interrupted, reason, INTERRUPTED_PREFIX + r.run.owner.runId, note);
  }
}
