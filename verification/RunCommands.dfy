/** What each command does to one run. A reply carries the run's rows after the
    transaction and the error returned, if any; a refused command returns the rows
    it was given. Only a queued run found stale commits a change and still errs. */
module RunCommands {
  import opened Wrappers
  import opened Decimals
  import opened Text
  import opened RunVocabulary

  datatype Reply = Reply(record: Record, error: Option<Error>)

  function Refuse(r: Record, e: Error): Reply {
    Reply(r, Some(e))
  }

  function Done(r: Record): Reply {
    Reply(r, None)
  }

  // ----- The event table -----

  function FindEvent(events: seq<Event>, id: string): (e: Option<Event>)
    ensures e.Some? ==> e.value in events && e.value.eventId == id
  {
    if events == [] then None
    else if events[0].eventId == id then Some(events[0])
    else FindEvent(events[1..], id)
  }

  /** Unique sequence and unique event id within the run. */
  predicate Insertable(events: seq<Event>, e: Event) {
    forall i :: 0 <= i < |events| ==> events[i].sequence != e.sequence && events[i].eventId != e.eventId
  }

  /** The event a request names is already stored with the same meaning. */
  predicate SameEvent(e: Event, kind: EventKind, text: string, expected: nat) {
    e.kind == kind && e.chunk == text && expected + 1 == e.sequence
  }

  function StartedError(s: Status): Option<Error> {
    match s
    case Running => None
    case Queued => Some(RunNotStarted)
    case Stopping => Some(RunStopping)
    case _ => Some(RunSealed)
  }

  function FinalOutputError(current: string, text: string, allowEmpty: bool): Option<Error> {
    if !allowEmpty && text == "" then Some(InvalidRequest)
    else if Utf8Len(text) > MAX_OUTPUT_BYTES then Some(OutputTooLarge)
    else if !(current <= text) then Some(OutputConflict)
    else None
  }

  // ----- Terminal transitions -----

  /** Insert the terminal event, seal the row and insert the assistant message. */
  function Terminate(r: Record, status: Status, eventId: string, chunk: string, output: string,
                     reason: Option<string>, message: Message): Result<Record, Error>
  {
    var e := Event(r.run.sequence + 1, eventId, TerminalEvent, chunk);
    if r.run.sequence >= MAX_I64 then Err(InvalidRequest)
    else if !Insertable(r.events, e) then Err(ConstraintViolation)
    else Ok(Record(
      r.run.(status := status, sequence := r.run.sequence + 1, outputText := output, stopReason := reason),
      r.events + [e], r.messages + [message], r.result))
  }

  function SealRun(r: Record, status: Status, reason: string, eventId: string, note: string): Result<Record, Error> {
    if !r.run.status.Active() || !status.Terminal() then Err(RunSealed)
    else if !CheckId(eventId) then Err(InvalidRequest)
    else if reason == "" || !BoundedNote(note) then Err(InvalidRequest)
    else Terminate(r, status, eventId, note, r.run.outputText, Some(reason),
                   Message(Assistant, WithNote(r.run.outputText, note), Some(r.run.packet.packetId)))
  }

  function OrRefuse(r: Record, result: Result<Record, Error>): Reply {
    match result
    case Ok(sealed) => Done(sealed)
    case Err(e) => Refuse(r, e)
  }

  // ----- Commands -----

  function Append(r: Record, eventId: string, chunk: string, expected: nat): Reply {
    var saved := FindEvent(r.events, eventId);
    var e := Event(r.run.sequence + 1, eventId, ChunkEvent, chunk);
    if r.run.lookup then Refuse(r, LookupInvocationRequired)
    else if saved.Some? then
      if SameEvent(saved.value, ChunkEvent, chunk, expected) then Done(r) else Refuse(r, EventIdReused)
    else if StartedError(r.run.status).Some? then Refuse(r, StartedError(r.run.status).value)
    else if expected != r.run.sequence then Refuse(r, SequenceConflict)
    else if Utf8Len(r.run.outputText) + Utf8Len(chunk) > MAX_OUTPUT_BYTES then Refuse(r, OutputTooLarge)
    else if r.run.sequence >= MAX_I64 then Refuse(r, InvalidRequest)
    else if !Insertable(r.events, e) then Refuse(r, ConstraintViolation)
    else Done(Record(
      r.run.(sequence := r.run.sequence + 1, outputText := r.run.outputText + chunk),
      r.events + [e], r.messages, r.result))
  }

  const STALE_PREFIX := "system-stale-"
  const STOP_PREFIX := "system-stop-"
  const INTERRUPTED_PREFIX := "system-interrupted-"

  /** Claim a queued run; contextCurrent says whether its frozen context still is. */
  function Begin(r: Record, contextCurrent: bool): Reply {
    match r.run.status
    case Queued =>
      if !contextCurrent then
        match SealRun(r, Failed, "context_stale", STALE_PREFIX + r.run.owner.runId, STALE_MESSAGE)
        case Ok(sealed) => Reply(sealed, Some(ContextChanged))
        case Err(e) => Refuse(r, e)
      else if r.run.dispatch != Pending then Refuse(r, RunAlreadyStarted)
      else Done(r.(run := r.run.(status := Running, dispatch := Claimed)))
    case Running => Refuse(r, RunAlreadyStarted)
    case _ => Refuse(r, RunSealed)
  }

  function MarkDelivered(r: Record): Reply {
    if r.run.packet.binding.Some? then Refuse(r, ProviderResultRequired)
    else if r.run.status == Stopping then Refuse(r, RunStopping)
    else if r.run.status != Running then Refuse(r, RunSealed)
    else Done(r.(run := r.run.(dispatch := Delivered)))
  }

  function Finish(r: Record, eventId: string, text: string, expected: nat): Reply {
    var saved := FindEvent(r.events, eventId);
    if r.run.lookup then Refuse(r, LookupInvocationRequired)
    else if r.run.packet.binding.Some? then Refuse(r, ProviderResultRequired)
    else if saved.Some? then
      if SameEvent(saved.value, TerminalEvent, text, expected) && r.run.status == Completed then Done(r)
      else Refuse(r, EventIdReused)
    else if StartedError(r.run.status).Some? then Refuse(r, StartedError(r.run.status).value)
    else if FinalOutputError(r.run.outputText, text, false).Some? then
      Refuse(r, FinalOutputError(r.run.outputText, text, false).value)
    else if expected != r.run.sequence then Refuse(r, SequenceConflict)
    else OrRefuse(r, Terminate(r, Completed, eventId, text, text, r.run.stopReason, Message(Assistant, text, None)))
  }

  function FailureText(reason: string): string {
    "Discussion failed: " + reason
  }

  function Fail(r: Record, eventId: string, reason: string, expected: nat): Reply {
    var saved := FindEvent(r.events, eventId);
    if r.run.lookup then Refuse(r, LookupInvocationRequired)
    else if r.run.status == Stopping then Refuse(r, RunStopping)
    else if saved.Some? then
      if SameEvent(saved.value, TerminalEvent, FailureText(reason), expected) && r.run.status == Failed then Done(r)
      else Refuse(r, EventIdReused)
    else if expected != r.run.sequence then Refuse(r, SequenceConflict)
    else OrRefuse(r, SealRun(r, Failed, reason, eventId, FailureText(reason)))
  }

  function Stop(r: Record): Reply {
    match r.run.status
    case Queued =>
      OrRefuse(r, SealRun(r, Stopped, "author_stopped", STOP_PREFIX + r.run.owner.runId, STOP_SETTLED_MESSAGE))
    case Running => Done(r.(run := r.run.(status := Stopping, stopReason := Some("author_stopped"))))
    case _ => Done(r)
  }

  function StopStatus(cleanup: Cleanup): Status {
    if cleanup == Settled then Stopped else Interrupted
  }

  function StopNote(cleanup: Cleanup): string {
    if cleanup == Settled then STOP_SETTLED_MESSAGE else STOP_UNRESOLVED_MESSAGE
  }

  function SettleStop(r: Record, eventId: string, text: string, expected: nat, cleanup: Cleanup): Reply {
    var saved := FindEvent(r.events, eventId);
    if saved.Some? then
      if SameEvent(saved.value, TerminalEvent, text, expected) && r.run.status == StopStatus(cleanup)
         && r.run.outputText == text
      then Done(r)
      else Refuse(r, EventIdReused)
    else if r.run.status != Stopping then Refuse(r, RunSealed)
    else if expected != r.run.sequence then Refuse(r, SequenceConflict)
    else if FinalOutputError(r.run.outputText, text, true).Some? then
      Refuse(r, FinalOutputError(r.run.outputText, text, true).value)
    else
      var reason := if cleanup == Settled then "author_stopped" else "stop_cleanup_unresolved";
      OrRefuse(r, Terminate(r, StopStatus(cleanup), eventId, text, text, Some(reason),
                            Message(Assistant, WithNote(text, StopNote(cleanup)), Some(r.run.packet.packetId))))
  }

  // ----- Provider settlement -----

  datatype Report = Report(
    eventId: string,
    assistantText: string,
    binding: Binding,
    status: ProviderStatus,
    confirmedStdinBytes: nat,
    usage: Option<string>,
    cleanup: Cleanup,
    error: Option<string>,
    delivery: Option<Delivery>)

  function Saved(q: Report, expected: nat): ProviderResult {
    ProviderResult(q.eventId, expected, q.assistantText, q.binding, q.status, q.confirmedStdinBytes,
                   q.usage, q.cleanup, q.error, q.delivery)
  }

  predicate LowerHexHash(s: string) {
    |s| == 64 && forall i :: 0 <= i < |s| ==> '0' <= s[i] <= '9' || 'a' <= s[i] <= 'f'
  }

  predicate DeliveryShape(d: Option<Delivery>, status: ProviderStatus) {
    && d.Some? && LowerHexHash(d.value.bodyHash)
    && 0 < d.value.bodyBytes <= HTTP_INPUT_LIMIT_BYTES
    && (status == ProviderCompleted ==> d.value.submission == ResponseReceived)
  }

  /** The checks made on a report before the transaction opens. */
  function ReportShapeError(q: Report): Option<Error> {
    if q.binding.transport == Http && q.confirmedStdinBytes != 0 then Some(InvalidRequest)
    else if q.binding.transport == Cli && q.confirmedStdinBytes > CLI_INPUT_LIMIT_BYTES then Some(InputTooLarge)
    else if Utf8Len(q.assistantText) > q.binding.OutputLimit() then Some(OutputTooLarge)
    else if q.binding.transport == Http && !DeliveryShape(q.delivery, q.status) then Some(InvalidRequest)
    else if q.binding.transport == Cli && q.delivery.Some? then Some(InvalidRequest)
    else if q.error.Some? && !Sanitized(q.error.value) then Some(InvalidRequest)
    else None
  }

  /** The evidence agrees with the immutable packet. */
  predicate DeliveryMatches(p: Packet, q: Report) {
    if q.binding.transport == Http then
      && DeliveryShape(q.delivery, q.status)
      && q.delivery.value.bodyHash == p.bodyHash && q.delivery.value.bodyBytes == p.bodyBytes
    else
      && q.delivery.None? && q.confirmedStdinBytes <= p.inputBytes
      && (q.status == ProviderCompleted ==> q.confirmedStdinBytes == p.inputBytes)
  }

  predicate WasDelivered(p: Packet, q: Report) {
    if q.binding.transport == Http then q.delivery.Some? && q.delivery.value.submission == ResponseReceived
    else q.confirmedStdinBytes == p.inputBytes
  }

  function SettledStatus(current: Status, outcome: ProviderStatus, cleanup: Cleanup): Status {
    if cleanup == Unresolved then Interrupted
    else if current == Stopping || outcome == ProviderStopped then Stopped
    else if outcome == ProviderCompleted then Completed
    else Failed
  }

  function SettledReason(current: Status, outcome: ProviderStatus, cleanup: Cleanup): Option<string> {
    if cleanup == Unresolved then Some("provider_cleanup_unresolved")
    else if current == Stopping then Some("author_stopped")
    else match outcome
      case ProviderCompleted => None
      case ProviderStopped => Some("provider_stopped")
      case ProviderTimedOut => Some("provider_timed_out")
      case ProviderOutputLimit => Some("provider_output_limit")
      case ProviderFailed => Some("provider_failed")
  }

  function SettledNote(q: Report, status: Status): string {
    if status == Completed then q.assistantText
    else if q.error.Some? then "Provider request failed: " + q.error.value
    else match status
      case Stopped => STOP_SETTLED_MESSAGE
      case Interrupted => STOP_UNRESOLVED_MESSAGE
      case Failed =>
        (match q.status
         case ProviderTimedOut => "The provider request timed out."
         case ProviderOutputLimit => "The provider output reached the application limit."
         case _ => "The provider request failed.")
      case _ => "The provider request ended without a completed response."
  }

  function SettlementError(r: Record, q: Report, expected: nat): Option<Error> {
    if r.run.packet.binding.None? then Some(ProviderBindingMissing)
    else if r.run.packet.binding.value != q.binding then Some(ProviderBindingMismatch)
    else if !DeliveryMatches(r.run.packet, q) then Some(ProviderInputMismatch)
    else if Utf8Len(q.assistantText) > q.binding.OutputLimit() then Some(OutputTooLarge)
    else if FinalOutputError(r.run.outputText, q.assistantText, true).Some? then
      FinalOutputError(r.run.outputText, q.assistantText, true)
    else if q.status == ProviderCompleted && q.assistantText == "" then Some(InvalidRequest)
    else if q.status == ProviderCompleted && q.error.Some? then Some(InvalidRequest)
    else if expected != r.run.sequence then Some(SequenceConflict)
    else if FindEvent(r.events, q.eventId).Some? then Some(EventIdReused)
    else if SettledStatus(r.run.status, q.status, q.cleanup) != Completed
            && !BoundedNote(SettledNote(q, SettledStatus(r.run.status, q.status, q.cleanup)))
    then Some(InvalidRequest)
    else None
  }

  function SettleProvider(r: Record, q: Report, expected: nat): Reply {
    var status := SettledStatus(r.run.status, q.status, q.cleanup);
    var note := SettledNote(q, status);
    var content := if status == Completed then q.assistantText else WithNote(q.assistantText, note);
    if r.run.lookup then Refuse(r, LookupInvocationRequired)
    else if r.result.Some? then
      if r.result.value == Saved(q, expected) then Done(r) else Refuse(r, ProviderResultConflict)
    else if r.run.status != Running && r.run.status != Stopping then Refuse(r, RunNotStarted)
    else if SettlementError(r, q, expected).Some? then Refuse(r, SettlementError(r, q, expected).value)
    else
      match Terminate(r, status, q.eventId, note, q.assistantText, SettledReason(r.run.status, q.status, q.cleanup),
                      Message(Assistant, content, Some(r.run.packet.packetId)))
      case Err(e) => Refuse(r, e)
      case Ok(sealed) => Done(sealed.(
        run := sealed.run.(dispatch := if WasDelivered(r.run.packet, q) then Delivered else r.run.dispatch),
        result := Some(Saved(q, expected))))
  }

  // ----- Closing and reopening the project -----

  function Interrupt(r: Record, reason: string, note: string): Result<Record, Error> {
    SealRun(r, Interrupted, reason, INTERRUPTED_PREFIX + r.run.owner.runId, note)
  }

  function InterruptRun(r: Record): Reply {
    if r.run.status.Terminal() then Done(r)
    else OrRefuse(r, Interrupt(r, "project_close_cleanup", STOP_UNRESOLVED_MESSAGE))
  }
}
