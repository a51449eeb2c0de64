/** A bounded lookup discussion: one run and up to three paid provider invocations,
    their immutable results and the local reads each round of expansion records. */
module LookupChain {
  import opened Wrappers
  import opened Decimals
  import opened Text
  import opened RunVocabulary
  import opened RunCommands
  import opened RunStore

  const MAX_LOOKUP_INVOCATIONS: nat := 3
  const MAX_LOOKUP_ENVELOPE_BYTES: nat := 64 * 1024
  const MAX_LOOKUP_READS: nat := 8
  const MAX_LOOKUP_TOTAL_INPUT_BYTES: nat := 3 * 24_576
  const MAX_LOOKUP_TOTAL_OUTPUT_BYTES: nat := 3 * 65_536

  const STALE_LOOKUP_MESSAGE :=
    "The story or disclosure policy changed before this lookup started; the saved response was not dispatched."
  const LIMIT_MESSAGE := "This lookup request reached its bounded context-expansion limit."
  const STALE_EXPANSION_MESSAGE :=
    "The story changed before the next lookup request; no new provider call was made."
  const TOO_LARGE_DETAIL := "invalidEnvelope: The lookup envelope exceeds the 64 KiB UTF-8 byte limit."
  const UNAUTHORIZED_DETAIL :=
    "invalidCapability: Reviewed-memory reads require the reviewed-memory.v1 capability."

  // ----- Rows -----

  predicate PositiveDecimal(s: string, maximum: nat) {
    Canonical(s) && 0 < Value(s) <= maximum
  }

  datatype Allowance = Allowance(maxAdditional: nat, totalInputBytes: string, totalOutputBytes: string) {
    predicate Valid() {
      && maxAdditional <= 2
      && PositiveDecimal(totalInputBytes, MAX_LOOKUP_TOTAL_INPUT_BYTES)
      && PositiveDecimal(totalOutputBytes, MAX_LOOKUP_TOTAL_OUTPUT_BYTES)
    }

    function InputLimit(): nat {
      if Digits(totalInputBytes) then Value(totalInputBytes) else 0
    }

    function OutputLimit(): nat {
      if Digits(totalOutputBytes) then Value(totalOutputBytes) else 0
    }
  }

  const DEFAULT_ALLOWANCE := Allowance(2, "73728", "196608")

  datatype LookupRead = LookupRead(id: string, memory: bool, query: string)

  datatype Answer = Answer(result: string, truncated: bool)

  datatype Exchange = Exchange(request: LookupRead, result: string)

  datatype Envelope = NeedsContext(requests: seq<LookupRead>) | Discussion(text: string)

  /** The frozen story an invocation reads from. */
  datatype Frozen = Frozen(snapshotId: string, sourceEpoch: nat, policyEpoch: nat)

  /** The immutable packet one invocation dispatches, with its lookup receipt. */
  datatype LookupPacket = LookupPacket(
    packetId: string,
    binding: Option<Binding>,
    inputBytes: nat,
    allowance: Allowance,
    completed: nat,
    exchanges: seq<Exchange>,
    reviewedMemory: bool)

  datatype InvocationState =
    | PreparedRow | ClaimedRow | NeedsContextRow | CompletedRow | FailedRow | StoppedRow | UnknownRow {
    predicate Open() {
      PreparedRow? || ClaimedRow?
    }
  }

  datatype Invocation = Invocation(packet: LookupPacket, frozen: Frozen, state: InvocationState)

  datatype LookupReport = LookupReport(
    eventId: string,
    text: string,
    binding: Option<Binding>,
    status: ProviderStatus,
    confirmedStdinBytes: nat,
    usage: Option<string>,
    cleanup: Cleanup,
    error: Option<string>)

  datatype LookupResult = LookupResult(
    packetId: string,
    eventId: string,
    text: string,
    response: Option<Envelope>,
    binding: Option<Binding>,
    outcome: ProviderStatus,
    confirmedStdinBytes: nat,
    usage: Option<string>,
    cleanup: Cleanup,
    error: Option<string>)

  datatype ReadRow = ReadRow(ordinal: nat, request: LookupRead, answer: Answer)

  /** The rows of one lookup discussion; reads are keyed by their id within the run. */
  datatype Chain = Chain(
    record: Record,
    invocations: map<nat, Invocation>,
    results: map<nat, LookupResult>,
    saved: map<string, ReadRow>)

  /** JSON decoding and the flat field checks on one read, as the host performs them. */
  datatype Host = Host(
    decode: string -> Result<Envelope, string>,
    complaint: Envelope -> string,
    validRead: LookupRead -> bool)

  datatype Refusal =
    | Run(error: Error)
    | InvalidLookupCounter | LookupInvocationNotFound | LookupInvocationAlreadyClaimed | LookupAllowanceExceeded
    | LookupInvocationNotClaimed | LookupResultConflict | LookupExpansionUnavailable | LookupResponseMissing
    | LookupAlreadyFinished
    | LookupReadConflict | InvalidProject | InvalidLookupCapability | InvalidLookupEvidence | PacketRefused
    | InvalidLookupAllowance | LookupNotEnabled

  datatype ChainReply = ChainReply(chain: Chain, refusal: Option<Refusal>)

  function Deny(ch: Chain, e: Refusal): ChainReply {
    ChainReply(ch, Some(e))
  }

  function Commit(ch: Chain): ChainReply {
    ChainReply(ch, None)
  }

  // ----- The provider's envelope -----

  predicate DistinctIds(requests: seq<LookupRead>) {
    forall i, j :: 0 <= i < j < |requests| ==> requests[i].id != requests[j].id
  }

  predicate PrintableText(s: string) {
    forall i :: 0 <= i < |s| ==> !Control(s[i]) || s[i] == '\n' || s[i] == '\r' || s[i] == '\t'
  }

  predicate ValidEnvelope(h: Host, e: Envelope) {
    match e
    case NeedsContext(requests) =>
      && 1 <= |requests| <= MAX_LOOKUP_READS && DistinctIds(requests)
      && forall i :: 0 <= i < |requests| ==> h.validRead(requests[i])
    case Discussion(text) =>
      Trim(text) != "" && Utf8Len(text) <= MAX_LOOKUP_ENVELOPE_BYTES && PrintableText(text)
  }

  function ParseResponse(h: Host, raw: string): Result<Envelope, string> {
    if Utf8Len(raw) > MAX_LOOKUP_ENVELOPE_BYTES then Err(TOO_LARGE_DETAIL)
    else match h.decode(raw)
      case Err(detail) => Err(detail)
      case Ok(e) => if ValidEnvelope(h, e) then Ok(e) else Err(h.complaint(e))
  }

  predicate AuthorizedRead(h: Host, packet: LookupPacket, read: LookupRead) {
    h.validRead(read) && (read.memory ==> packet.reviewedMemory)
  }

  predicate Authorized(h: Host, packet: LookupPacket, e: Envelope) {
    e.NeedsContext? ==> forall i :: 0 <= i < |e.requests| ==> AuthorizedRead(h, packet, e.requests[i])
  }

  /** The authorized envelope of a completed report, or why there is none. */
  function Response(h: Host, packet: LookupPacket, q: LookupReport): Result<Envelope, Option<string>> {
    if q.status != ProviderCompleted then Err(None)
    else match ParseResponse(h, q.text)
      case Err(detail) => Err(Some(detail))
      case Ok(e) => if Authorized(h, packet, e) then Ok(e) else Err(Some(UNAUTHORIZED_DETAIL))
  }

  // ----- Byte totals -----

  function InputOf(results: map<nat, LookupResult>, k: nat): nat {
    if k in results then results[k].confirmedStdinBytes else 0
  }

  function OutputOf(results: map<nat, LookupResult>, k: nat): nat {
    if k in results then Utf8Len(results[k].text) else 0
  }

  function TotalInput(results: map<nat, LookupResult>): nat {
    InputOf(results, 0) + InputOf(results, 1) + InputOf(results, 2)
  }

  function TotalOutput(results: map<nat, LookupResult>): nat {
    OutputOf(results, 0) + OutputOf(results, 1) + OutputOf(results, 2)
  }

  // ----- Sealing -----

  function StoppedState(state: InvocationState): InvocationState {
    match state
    case PreparedRow => StoppedRow
    case ClaimedRow => UnknownRow
    case _ => state
  }

  function MarkStopped(invocations: map<nat, Invocation>): map<nat, Invocation> {
    map k | k in invocations :: invocations[k].(state := StoppedState(invocations[k].state))
  }

  /** Stop every open invocation and seal the run, or change nothing. */
  function SealChain(ch: Chain, status: Status, reason: string, eventId: string, note: string): ChainReply {
    match SealRun(ch.record, status, reason, eventId, note)
    case Err(e) => Deny(ch, Run(e))
    case Ok(sealed) => Commit(ch.(record := sealed, invocations := MarkStopped(ch.invocations)))
  }

  // ----- Claim -----

  function ClaimRow(ch: Chain, ordinal: nat): ChainReply
    requires ordinal in ch.invocations
  {
    var i := ch.invocations[ordinal];
    if i.state != PreparedRow then Deny(ch, LookupInvocationAlreadyClaimed)
    else if TotalInput(ch.results) + i.packet.inputBytes > i.packet.allowance.InputLimit()
         || TotalOutput(ch.results) + MAX_LOOKUP_ENVELOPE_BYTES > i.packet.allowance.OutputLimit()
    then Deny(ch, LookupAllowanceExceeded)
    else Commit(ch.(invocations := ch.invocations[ordinal := i.(state := ClaimedRow)]))
  }

  function Claim(ch: Chain, ordinal: nat, sourceEpoch: nat, policyEpoch: nat): ChainReply {
    if ordinal >= MAX_LOOKUP_INVOCATIONS then Deny(ch, InvalidLookupCounter)
    else if StartedError(ch.record.run.status).Some? then Deny(ch, Run(StartedError(ch.record.run.status).value))
    else if ordinal !in ch.invocations then Deny(ch, LookupInvocationNotFound)
    else
      var frozen := ch.invocations[ordinal].frozen;
      if frozen.sourceEpoch != sourceEpoch || frozen.policyEpoch != policyEpoch then
        var sealed := SealChain(ch, Failed, "context_stale",
          "lookup-stale-" + ch.record.run.owner.runId + "-" + DecimalText(ordinal), STALE_LOOKUP_MESSAGE);
        if sealed.refusal.None? then ChainReply(sealed.chain, Some(Run(ContextChanged))) else sealed
      else ClaimRow(ch, ordinal)
  }

  // ----- Settle -----

  function LookupShapeError(q: LookupReport): Option<Error> {
    if !CheckId(q.eventId) then Some(InvalidRequest)
    else if Utf8Len(q.text) > MAX_OUTPUT_BYTES || !PrintableText(q.text) then Some(OutputTooLarge)
    else if q.error.Some? && !Sanitized(q.error.value) then Some(InvalidRequest)
    else if q.status == ProviderCompleted && (q.text == "" || q.error.Some?) then Some(InvalidRequest)
    else if q.status == ProviderCompleted && q.cleanup == Unresolved then Some(InvalidRequest)
    else None
  }

  /** A saved result answers this report: the same delivery, where a report of a
      completed call also matches a saved failure. */
  predicate ResultMatches(saved: LookupResult, q: LookupReport) {
    && saved.eventId == q.eventId && saved.text == q.text
    && (saved.outcome == q.status || (q.status == ProviderCompleted && saved.outcome == ProviderFailed))
    && saved.confirmedStdinBytes == q.confirmedStdinBytes && saved.cleanup == q.cleanup
    && (saved.error == q.error
        || (q.status == ProviderCompleted && saved.outcome == ProviderFailed && q.error.None? && saved.error.Some?))
    && saved.binding == q.binding && saved.usage == q.usage
  }

  function PacketOutputLimit(packet: LookupPacket): nat {
    if packet.binding.Some? then packet.binding.value.OutputLimit() else MAX_OUTPUT_BYTES
  }

  function ProviderBytesError(ch: Chain, packet: LookupPacket, q: LookupReport): Option<Refusal> {
    if q.confirmedStdinBytes > packet.inputBytes
       || (q.status == ProviderCompleted && q.confirmedStdinBytes != packet.inputBytes)
    then Some(Run(ProviderInputMismatch))
    else if Utf8Len(q.text) > PacketOutputLimit(packet) then Some(Run(OutputTooLarge))
    else if TotalInput(ch.results) + q.confirmedStdinBytes > packet.allowance.InputLimit()
         || TotalOutput(ch.results) + Utf8Len(q.text) > packet.allowance.OutputLimit()
    then Some(LookupAllowanceExceeded)
    else None
  }

  function SettledState(response: Option<Envelope>, outcome: ProviderStatus, cleanup: Cleanup): InvocationState {
    match response
    case Some(NeedsContext(_)) => NeedsContextRow
    case Some(Discussion(_)) => CompletedRow
    case None =>
      if cleanup == Unresolved then UnknownRow
      else if outcome == ProviderStopped then StoppedRow
      else FailedRow
  }

  function OrElse(a: Option<string>, b: Option<string>): Option<string> {
    if a.Some? then a else b
  }

  /** The immutable row a report leaves behind. */
  function ResultRow(packet: LookupPacket, q: LookupReport, response: Result<Envelope, Option<string>>): LookupResult {
    LookupResult(packet.packetId, q.eventId, q.text,
      if response.Ok? then Some(response.value) else None,
      q.binding,
      if response.Err? && q.status == ProviderCompleted then ProviderFailed else q.status,
      q.confirmedStdinBytes, q.usage, q.cleanup,
      OrElse(q.error, if response.Ok? then None else response.error))
  }

  /** Unique event id and packet id among the results. */
  predicate ResultInsertable(results: map<nat, LookupResult>, row: LookupResult) {
    forall k :: k in results ==> results[k].eventId != row.eventId && results[k].packetId != row.packetId
  }

  function StoreOutcome(ch: Chain, ordinal: nat, row: LookupResult): Option<Chain>
    requires ordinal in ch.invocations
  {
    if ordinal in ch.results || !ResultInsertable(ch.results, row) then None
    else Some(ch.(
      results := ch.results[ordinal := row],
      invocations := ch.invocations[ordinal :=
        ch.invocations[ordinal].(state := SettledState(row.response, row.outcome, row.cleanup))]))
  }

  function FailureReason(status: ProviderStatus, cleanup: Cleanup): string {
    if cleanup == Unresolved then "lookup_cleanup_unresolved"
    else match status
      case ProviderCompleted => "lookup_invalid_response"
      case ProviderStopped => "lookup_stopped"
      case ProviderTimedOut => "lookup_timed_out"
      case ProviderOutputLimit => "lookup_output_limit"
      case ProviderFailed => "lookup_failed"
  }

  function FailureStatus(status: ProviderStatus, cleanup: Cleanup): Status {
    if cleanup == Unresolved then Interrupted
    else if status == ProviderStopped then Stopped
    else Failed
  }

  function FailureNote(row: LookupResult, q: LookupReport): string {
    if row.error.Some? && row.error.value != "" then row.error.value else FailureReason(q.status, q.cleanup)
  }

  /** The final answer: the run completes with the text of the envelope. */
  function SealDiscussion(ch: Chain, packetId: string, eventId: string, text: string): ChainReply {
    if ch.record.run.status != Running then Deny(ch, Run(RunSealed))
    else if text == "" then Deny(ch, Run(InvalidRequest))
    else if Utf8Len(text) > MAX_OUTPUT_BYTES then Deny(ch, Run(OutputTooLarge))
    else match Terminate(ch.record, Completed, eventId, text, text, None, Message(Assistant, text, Some(packetId)))
      case Err(e) => Deny(ch, Run(e))
      case Ok(sealed) => Commit(ch.(record := sealed))
  }

  /** What the settled row means for the run. */
  function Conclude(stored: Chain, row: LookupResult, q: LookupReport): ChainReply {
    match row.response
    case Some(e) =>
      if stored.record.run.status == Stopping then
        SealChain(stored, StopStatus(q.cleanup), if q.cleanup == Unresolved then "stop_cleanup_unresolved"
                  else "author_stopped",
                  q.eventId, StopNote(q.cleanup))
      else if e.Discussion? then SealDiscussion(stored, row.packetId, q.eventId, e.text)
      else Commit(stored)
    case None =>
      SealChain(stored, FailureStatus(q.status, q.cleanup), FailureReason(q.status, q.cleanup), q.eventId,
                FailureNote(row, q))
  }

  /** Conclude, or undo the stored row when the run cannot be sealed. */
  function Settled(ch: Chain, stored: Chain, row: LookupResult, q: LookupReport): ChainReply {
    var concluded := Conclude(stored, row, q);
    if concluded.refusal.Some? then Deny(ch, concluded.refusal.value) else concluded
  }

  function SettleClaimed(h: Host, ch: Chain, ordinal: nat, q: LookupReport): ChainReply
    requires ordinal in ch.invocations
  {
    var i := ch.invocations[ordinal];
    var row := ResultRow(i.packet, q, Response(h, i.packet, q));
    if i.state != ClaimedRow then Deny(ch, LookupInvocationNotClaimed)
    else if i.packet.binding != q.binding then Deny(ch, Run(ProviderBindingMismatch))
    else if ProviderBytesError(ch, i.packet, q).Some? then Deny(ch, ProviderBytesError(ch, i.packet, q).value)
    else match StoreOutcome(ch, ordinal, row)
      case None => Deny(ch, Run(ConstraintViolation))
      case Some(stored) => Settled(ch, stored, row, q)
  }

  function Settle(h: Host, ch: Chain, ordinal: nat, q: LookupReport): ChainReply {
    if LookupShapeError(q).Some? then Deny(ch, Run(LookupShapeError(q).value))
    else if ordinal >= MAX_LOOKUP_INVOCATIONS then Deny(ch, InvalidLookupCounter)
    else if ordinal in ch.results then
      if ResultMatches(ch.results[ordinal], q) then Commit(ch) else Deny(ch, LookupResultConflict)
    else if ch.record.run.status != Running && ch.record.run.status != Stopping then Deny(ch, Run(RunNotStarted))
    else if ordinal !in ch.invocations then Deny(ch, LookupInvocationNotFound)
    else SettleClaimed(h, ch, ordinal, q)
  }

  // ----- Advance -----

  /** One saved round: each request with the answer recorded for it. */
  function RoundExchanges(saved: map<string, ReadRow>, ordinal: nat, requests: seq<LookupRead>): Option<seq<Exchange>> {
    if requests == [] then Some([])
    else
      var earlier := RoundExchanges(saved, ordinal, requests[..|requests| - 1]);
      var last := requests[|requests| - 1];
      if earlier.None? || last.id !in saved || saved[last.id].ordinal != ordinal then None
      else Some(earlier.value + [Exchange(last, saved[last.id].answer.result)])
  }

  /** The requests a saved result makes, none for a final answer or a failure. */
  function RequestsOf(results: map<nat, LookupResult>, ordinal: nat): seq<LookupRead> {
    if ordinal in results && results[ordinal].response.Some? && results[ordinal].response.value.NeedsContext? then
      results[ordinal].response.value.requests
    else []
  }

  /** Every exchange up to and including one ordinal, in order. */
  function ReadExchanges(results: map<nat, LookupResult>, saved: map<string, ReadRow>,
                         through: nat): Option<seq<Exchange>> {
    var earlier := if through == 0 then Some([]) else ReadExchanges(results, saved, through - 1);
    var round := RoundExchanges(saved, through, RequestsOf(results, through));
    if earlier.None? || round.None? then None else Some(earlier.value + round.value)
  }

  /** Record the answers of one round; an id already used must carry the same receipt. */
  function StoreReads(saved: map<string, ReadRow>, ordinal: nat, requests: seq<LookupRead>,
                      answer: LookupRead -> Answer)
    : Option<map<string, ReadRow>>
  {
    if requests == [] then Some(saved)
    else
      var earlier := StoreReads(saved, ordinal, requests[..|requests| - 1], answer);
      var last := requests[|requests| - 1];
      if earlier.None? then None
      else if last.id in earlier.value then
        if earlier.value[last.id].request == last && earlier.value[last.id].answer.result == answer(last).result
           then earlier
        else None
      else Some(earlier.value[last.id := ReadRow(ordinal, last, answer(last))])
  }

  function Answered(requests: seq<LookupRead>, answer: LookupRead -> Answer): (round: seq<Exchange>)
    ensures |round| == |requests|
  {
    seq(|requests|, i requires 0 <= i < |requests| => Exchange(requests[i], answer(requests[i]).result))
  }

  predicate DistinctExchanges(exchanges: seq<Exchange>) {
    forall i, j :: 0 <= i < j < |exchanges| ==> exchanges[i].request.id != exchanges[j].request.id
  }

  /** The checks packet compilation makes on the lookup evidence. */
  predicate EvidenceAccepted(h: Host, packet: LookupPacket) {
    && packet.completed <= packet.allowance.maxAdditional
    && (packet.completed == 0 <==> packet.exchanges == [])
    && |packet.exchanges| <= packet.completed * MAX_LOOKUP_READS
    && (forall i :: 0 <= i < |packet.exchanges| ==> AuthorizedRead(h, packet, packet.exchanges[i].request))
    && DistinctExchanges(packet.exchanges)
  }

  /** What the rest of packet compilation yields: a packet id and the input's length. */
  datatype Compiled = Compiled(packetId: string, inputBytes: nat)

  function ChildPacket(parent: LookupPacket, compiled: Compiled, completed: nat,
                       exchanges: seq<Exchange>): LookupPacket {
    LookupPacket(compiled.packetId, parent.binding, compiled.inputBytes, parent.allowance, completed + 1, exchanges,
                 parent.reviewedMemory)
  }

  predicate PacketIdUnused(invocations: map<nat, Invocation>, packetId: string) {
    forall k :: k in invocations ==> invocations[k].packet.packetId != packetId
  }

  function InsertChild(ch: Chain, ordinal: nat, packet: LookupPacket, frozen: Frozen): ChainReply {
    if ordinal == 0 || ordinal > 2 then Deny(ch, InvalidLookupCounter)
    else if ordinal in ch.invocations || !PacketIdUnused(ch.invocations, packet.packetId)
            then Deny(ch, Run(ConstraintViolation))
    else Commit(ch.(invocations := ch.invocations[ordinal := Invocation(packet, frozen, PreparedRow)]))
  }

  function Expand(h: Host, ch: Chain, completed: nat, answer: LookupRead -> Answer,
                  compiled: Option<Compiled>): ChainReply
    requires completed in ch.invocations
  {
    var i := ch.invocations[completed];
    var requests := RequestsOf(ch.results, completed);
    var stored := StoreReads(ch.saved, completed, requests, answer);
    var earlier := if completed == 0 then Some([]) else ReadExchanges(ch.results, ch.saved, completed - 1);
    if completed !in ch.results || ch.results[completed].response.None? then Deny(ch, LookupResponseMissing)
    else if ch.results[completed].response.value.Discussion? then Deny(ch, LookupAlreadyFinished)
    else if exists j :: 0 <= j < |requests| && !AuthorizedRead(h, i.packet, requests[j])
            then Deny(ch, InvalidLookupCapability)
    else if stored.None? then Deny(ch, LookupReadConflict)
    else if earlier.None? then Deny(ch, InvalidProject)
    else if compiled.None? then Deny(ch, PacketRefused)
    else
      var packet := ChildPacket(i.packet, compiled.value, completed, earlier.value + Answered(requests, answer));
      if !EvidenceAccepted(h, packet) then Deny(ch, InvalidLookupEvidence)
      else
        var inserted := InsertChild(ch, completed + 1, packet, i.frozen);
        if inserted.refusal.Some? then inserted
        else Commit(inserted.chain.(saved := stored.value))
  }

  function Advance(h: Host, ch: Chain, completed: nat, sourceEpoch: nat, answer: LookupRead -> Answer,
                   compiled: Option<Compiled>): ChainReply
  {
    if completed >= MAX_LOOKUP_INVOCATIONS then Deny(ch, InvalidLookupCounter)
    else if ch.record.run.status != Running then Deny(ch, Run(RunSealed))
    else if completed !in ch.invocations then Deny(ch, LookupInvocationNotFound)
    else if ch.invocations[completed].state != NeedsContextRow then Deny(ch, LookupExpansionUnavailable)
    else if completed >= ch.invocations[completed].packet.allowance.maxAdditional + 1 || completed >= 2 then
      SealChain(ch, Failed, "lookup_limit", "lookup-limit-" + DecimalText(completed), LIMIT_MESSAGE)
    else if ch.invocations[completed].frozen.sourceEpoch != sourceEpoch then
      SealChain(ch, Failed, "context_stale", "lookup-stale-" + DecimalText(completed), STALE_EXPANSION_MESSAGE)
    else Expand(h, ch, completed, answer, compiled)
  }

  // ----- Halt, reopen, and the run commands -----

  function Halt(ch: Chain, reason: string): ChainReply {
    if Trim(reason) == "" || Utf8Len(reason) > 4096 then Deny(ch, Run(InvalidRequest))
    else if ch.record.run.status.Terminal() then Commit(ch)
    else SealChain(ch, Interrupted, "lookup_halted", "lookup-halt-" + DecimalText(ch.record.run.sequence), reason)
  }

  /** This run's part of reopening the project. */
  function Reopen(ch: Chain): ChainReply {
    if ch.record.run.status.Terminal() then Commit(ch)
    else SealChain(ch, Interrupted, "project_reopened", INTERRUPTED_PREFIX + ch.record.run.owner.runId,
                   REOPENED_MESSAGE)
  }

  /** A command of the ordinary run protocol, sent to a lookup run. Interrupting the
      run also stops its open invocations. */
  function Plain(ch: Chain, identity: Access, c: Command): ChainReply
    requires !c.Start? && !c.Recover?
  {
    if Precheck(identity, c).Some? then Deny(ch, Run(Precheck(identity, c).value))
    else
      var reply := Apply(ch.record, c);
      var refusal := if reply.error.Some? then Some(Run(reply.error.value)) else None;
      if c.InterruptActive? && ch.record.run.status.Active() && reply.error.None? then
        ChainReply(ch.(record := reply.record, invocations := MarkStopped(ch.invocations)), refusal)
      else ChainReply(ch.(record := reply.record), refusal)
  }

  datatype ChainCommand =
    | ClaimInvocation(ordinal: nat, sourceEpoch: nat, policyEpoch: nat)
    | SettleInvocation(ordinal: nat, report: LookupReport)
    | AdvanceLookup(ordinal: nat, sourceEpoch: nat, answer: LookupRead -> Answer, compiled: Option<Compiled>)
    | HaltLookup(reason: string)
    | ReopenProject
    | RunCommand(identity: Access, command: Command)

  predicate Addressed(c: ChainCommand) {
    c.RunCommand? ==> !c.command.Start? && !c.command.Recover?
  }

  type RunChainCommand = c: ChainCommand | Addressed(c) witness ReopenProject

  function ChainStep(h: Host, ch: Chain, c: RunChainCommand): ChainReply {
    match c
    case ClaimInvocation(ordinal, sourceEpoch, policyEpoch) => Claim(ch, ordinal, sourceEpoch, policyEpoch)
    case SettleInvocation(ordinal, q) => Settle(h, ch, ordinal, q)
    case AdvanceLookup(ordinal, sourceEpoch, answer, compiled) => Advance(h, ch, ordinal, sourceEpoch, answer, compiled)
    case HaltLookup(reason) => Halt(ch, reason)
    case ReopenProject => Reopen(ch)
    case RunCommand(identity, command) => Plain(ch, identity, command)
  }

  function RunChain(h: Host, ch: Chain, commands: seq<RunChainCommand>): Chain
    decreases |commands|
  {
    if commands == [] then ch else RunChain(h, ChainStep(h, ch, commands[0]).chain, commands[1..])
  }

  /** The rows a started lookup discussion begins with. */
  ghost predicate Started(ch: Chain, c: Command, packet: LookupPacket, frozen: Frozen) {
    && c.Start? && c.lookup && !HttpBound(c.packet.binding) && ch.record == NewRecord(c)
    && packet.allowance.Valid() && packet.completed == 0 && packet.exchanges == []
    && packet.packetId == c.packet.packetId && packet.binding == c.packet.binding
      && packet.inputBytes == c.packet.inputBytes
    && ch.invocations == map[0 := Invocation(packet, frozen, PreparedRow)]
    && ch.results == map[] && ch.saved == map[]
  }
}
