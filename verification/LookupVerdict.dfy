/** One database is validated by two auditors in one pass: the lookup rows by one, the provider
    receipts of every run, lookup runs included, by the other. What both say of one chain. */
module LookupVerdict {
  import opened Wrappers
  import opened Decimals
  import opened Text
  import opened RunVocabulary
  import opened RunCommands
  import opened RunInvariants
  import opened RunStore
  import opened RunTheorems
  import opened LookupChain
  import opened LookupInvariants
  import opened LookupAudit
  import opened LookupTheorems
  import opened LookupLaws

  ghost predicate BothAccept(h: Host, ch: Chain) {
    AuditChain(h, ch) && AuditRun(ch.record)
  }

  /** The one lookup run the receipt auditor refuses: completed under a provider binding. Its
      receipt would have to be a provider result, which lookup runs never get and the lookup
      auditor forbids. */
  predicate LiveAnswered(r: Record) {
    r.run.status == Completed && r.run.packet.binding.Some?
  }

  lemma ReceiptVerdict(h: Host, ch: Chain)
    requires Sound(h, ch)
    ensures AuditRun(ch.record) <==> !LiveAnswered(ch.record)
  {
    hide Good, RowsSound, Progress, AuditRun;
    GoodRunsPassAudit(ch.record);
  }

  /** The two auditors accept a chain after any commands exactly when no step sealed it
      harmfully and no live answer completed it. */
  lemma ReachableVerdict(h: Host, ch: Chain, commands: seq<RunChainCommand>)
    requires Sound(h, ch) && AuditChain(h, ch)
    ensures var b := RunChain(h, ch, commands);
            BothAccept(h, b) <==> Unharmed(h, ch, commands) && !LiveAnswered(b.record)
  {
    hide Sound, AuditChain, Unharmed, RunChain, AuditRun, LiveAnswered;
    ReachableChainAudit(h, ch, commands);
    EveryChainKeeps(h, ch, commands);
    ReceiptVerdict(h, RunChain(h, ch, commands));
  }

  lemma StartedVerdict(h: Host, ch: Chain, c: Command, packet: LookupPacket, frozen: Frozen,
                       commands: seq<RunChainCommand>)
    requires Started(ch, c, packet, frozen)
    ensures var b := RunChain(h, ch, commands);
            BothAccept(h, b) <==> Unharmed(h, ch, commands) && !LiveAnswered(b.record)
  {
    hide Sound, AuditChain, Unharmed, RunChain, LiveAnswered, BothAccept;
    StartedSound(h, ch, c, packet, frozen);
    ActiveChainsPassAudit(h, ch);
    ReachableVerdict(h, ch, commands);
  }

  // ----- Which step completes a run -----

  /** A final answer settled while the run is running. */
  ghost predicate Answers(h: Host, ch: Chain, c: RunChainCommand) {
    && c.SettleInvocation? && ch.record.run.status == Running && c.ordinal in ch.invocations
    && FinalAnswerGiven(h, ch.invocations[c.ordinal].packet, c.report)
  }

  lemma SealIsNotCompleted(ch: Chain, status: Status, reason: string, eventId: string, note: string)
    requires status != Completed && ch.record.run.status != Completed
    ensures SealChain(ch, status, reason, eventId, note).chain.record.run.status != Completed
  {
    hide MarkStopped, Insertable, BoundedNote, CheckId;
  }

  lemma PlainNeverCompletes(ch: Chain, identity: Access, c: Command)
    requires ch.record.run.lookup && ch.record.run.status != Completed && !c.Start? && !c.Recover?
    ensures Plain(ch, identity, c).chain.record.run.status != Completed
  {
    hide Apply, Precheck, MarkStopped;
    ApplyNeverCompletesLookup(ch.record, c);
  }

  lemma SettleCompletesIff(h: Host, ch: Chain, ordinal: nat, q: LookupReport)
    requires Sound(h, ch) && Seals(h, ch, SettleInvocation(ordinal, q))
    ensures Settle(h, ch, ordinal, q).chain.record.run.status == Completed <==>
      Answers(h, ch, SettleInvocation(ordinal, q))
  {
    hide RecordSound, RowsSound, Progress, SealChain, Settle, StoreOutcome, Conclude, Settles, FinalAnswerGiven;
    SettledParts(h, ch, ordinal, q);
    var row := RowOf(h, ch, ordinal, q);
    var stored := StoreOutcome(ch, ordinal, row).value;
    StoredRecord(ch, ordinal, row);
    AnswerIffFinal(h, ch, ordinal, q);
    ConcludedStatus(stored, row, q);
  }

  lemma AnswerIffFinal(h: Host, ch: Chain, ordinal: nat, q: LookupReport)
    requires ordinal in ch.invocations
    ensures IsFinal(RowOf(h, ch, ordinal, q)) <==> FinalAnswerGiven(h, ch.invocations[ordinal].packet, q)
  {
    hide Response;
  }

  lemma ConcludedStatus(stored: Chain, row: LookupResult, q: LookupReport)
    requires stored.record.run.status.Active() && Conclude(stored, row, q).refusal.None?
    requires Conclude(stored, row, q).chain.record.run.status.Terminal()
    ensures Conclude(stored, row, q).chain.record.run.status == Completed
       <==> IsFinal(row) && stored.record.run.status == Running
  {
    hide SealChain, SealDiscussion, FailureReason, FailureNote;
    if row.response.None? {
      SealIsNotCompleted(stored, FailureStatus(q.status, q.cleanup), FailureReason(q.status, q.cleanup), q.eventId,
                         FailureNote(row, q));
    } else if stored.record.run.status == Stopping {
      var reason := if q.cleanup == Unresolved then "stop_cleanup_unresolved" else "author_stopped";
      SealIsNotCompleted(stored, StopStatus(q.cleanup), reason, q.eventId, StopNote(q.cleanup));
    } else if IsFinal(row) {
      SealDiscussionRows(stored, row.packetId, q.eventId, row.response.value.text);
    }
  }

  lemma AdvanceNeverCompletes(h: Host, ch: Chain, k: nat, sourceEpoch: nat, answer: LookupRead -> Answer,
                              compiled: Option<Compiled>)
    requires ch.record.run.status != Completed
    ensures Advance(h, ch, k, sourceEpoch, answer, compiled).chain.record.run.status != Completed
  {
    hide SealChain, Expand, DecimalText;
    ExpandStaysActive(h, ch, k, answer, compiled);
    SealIsNotCompleted(ch, Failed, "lookup_limit", "lookup-limit-" + DecimalText(k), LIMIT_MESSAGE);
    SealIsNotCompleted(ch, Failed, "context_stale", "lookup-stale-" + DecimalText(k), STALE_EXPANSION_MESSAGE);
  }

  /** A step completes an active chain exactly when it settles a final answer on the running run. */
  lemma CompletesIff(h: Host, ch: Chain, c: RunChainCommand)
    requires Sound(h, ch) && Seals(h, ch, c)
    ensures ChainStep(h, ch, c).chain.record.run.status == Completed <==> Answers(h, ch, c)
  {
    hide RowsSound, Progress, SealChain, ClaimRow, Settle, Advance, Plain, DecimalText, Good;
    match c
    case ClaimInvocation(ordinal, sourceEpoch, policyEpoch) =>
      ClaimRowStaysActive(ch, ordinal);
      SealIsNotCompleted(ch, Failed, "context_stale",
        "lookup-stale-" + ch.record.run.owner.runId + "-" + DecimalText(ordinal), STALE_LOOKUP_MESSAGE);
    case SettleInvocation(ordinal, q) => SettleCompletesIff(h, ch, ordinal, q);
    case AdvanceLookup(ordinal, sourceEpoch, answer, compiled) =>
      AdvanceNeverCompletes(h, ch, ordinal, sourceEpoch, answer, compiled);
    case HaltLookup(reason) =>
      SealIsNotCompleted(ch, Interrupted, "lookup_halted", "lookup-halt-" + DecimalText(ch.record.run.sequence),
                         reason);
    case ReopenProject =>
      SealIsNotCompleted(ch, Interrupted, "project_reopened", INTERRUPTED_PREFIX + ch.record.run.owner.runId,
                         REOPENED_MESSAGE);
    case RunCommand(identity, command) => PlainNeverCompletes(ch, identity, command);
  }

  /** The steps after which the project is refused: those the lookup auditor refuses, and every
      final answer of a live run. */
  ghost predicate Refused(h: Host, ch: Chain, c: RunChainCommand) {
    Harmful(h, ch, c) || (Answers(h, ch, c) && ch.record.run.packet.binding.Some?)
  }

  /** The step that seals an active chain leaves rows both auditors accept exactly when it is
      none of these. */
  lemma SealingStepVerdict(h: Host, ch: Chain, c: RunChainCommand)
    requires Sound(h, ch) && Seals(h, ch, c)
    ensures BothAccept(h, ChainStep(h, ch, c).chain) <==> !Refused(h, ch, c)
  {
    var b := ChainStep(h, ch, c).chain;
    ChainStepKeeps(h, ch, c);
    hide Sound, AuditChain, ChainStep, Harmful, Answers, AuditRun;
    assert b.record.run.packet == ch.record.run.packet;
    SealingStepAudit(h, ch, c);
    CompletesIff(h, ch, c);
    ReceiptVerdict(h, b);
  }

  // ----- The failing case: an ordinary live answer -----

  /** The first call is claimed, the run is running, and the report is a final answer to the exact
      frozen input. */
  ghost predicate RootAnswers(h: Host, ch: Chain, q: LookupReport) {
    && ch.record.run.status == Running && 0 in ch.invocations && ch.invocations[0].state.ClaimedRow?
    && LookupShapeError(q).None? && q.binding == ch.invocations[0].packet.binding
    && q.confirmedStdinBytes == ch.invocations[0].packet.inputBytes
    && FinalAnswerGiven(h, ch.invocations[0].packet, q)
  }

  function AnswerText(h: Host, ch: Chain, q: LookupReport): string
    requires 0 in ch.invocations && FinalAnswerGiven(h, ch.invocations[0].packet, q)
  {
    Response(h, ch.invocations[0].packet, q).value.text
  }

  /** An envelope that parses is within the limits, and its final answer is not blank. */
  lemma AnswerBounds(h: Host, ch: Chain, q: LookupReport)
    requires 0 in ch.invocations && FinalAnswerGiven(h, ch.invocations[0].packet, q)
    ensures AnswerText(h, ch, q) != "" && Utf8Len(AnswerText(h, ch, q)) <= MAX_OUTPUT_BYTES
    ensures Utf8Len(q.text) <= MAX_LOOKUP_ENVELOPE_BYTES && q.status == ProviderCompleted
  {
    hide Utf8Len, Authorized, PrintableText;
    assert Trim("") == "";
  }

  /** The failing case, and the ordinary course of a live lookup: the first call of a running
      discussion answers, the settlement completes the run, the lookup rows are exactly as their
      auditor demands, and the receipt auditor refuses the project. */
  lemma LiveAnswerFailsAudit(h: Host, ch: Chain, q: LookupReport)
    requires Sound(h, ch) && RootAnswers(h, ch, q) && ch.record.run.packet.binding.Some?
    ensures var b := Settle(h, ch, 0, q).chain;
            && Settle(h, ch, 0, q).refusal.None? && b.record.run.status == Completed
            && AuditChain(h, b) && !AuditRun(b.record)
  {
    hide Sound, AuditChain, Settle, AuditRun, ChainStep, Harmful, RootAnswers, Seals, ChainKeeps;
    AnswerSettles(h, ch, q);
    AnswerIsHarmless(h, ch, q);
    var b := Settle(h, ch, 0, q).chain;
    var c: RunChainCommand := SettleInvocation(0, q);
    SettlingSeals(h, ch, q);
    SealingStepAudit(h, ch, c);
    SettleKeeps(h, ch, 0, q);
    PacketStays(h, ch, b);
    ReceiptVerdict(h, b);
  }

  lemma SettlingSeals(h: Host, ch: Chain, q: LookupReport)
    requires RootAnswers(h, ch, q) && Settle(h, ch, 0, q).chain.record.run.status == Completed
    ensures Seals(h, ch, SettleInvocation(0, q))
    ensures ChainStep(h, ch, SettleInvocation(0, q)) == Settle(h, ch, 0, q)
  {
    hide Settle, LookupShapeError, FinalAnswerGiven;
  }

  lemma PacketStays(h: Host, ch: Chain, b: Chain)
    requires ChainKeeps(h, ch, b)
    ensures Sound(h, b) && b.record.run.packet == ch.record.run.packet
  {
    hide Sound, Streamed;
  }

  lemma AnswerIsHarmless(h: Host, ch: Chain, q: LookupReport)
    requires RootAnswers(h, ch, q)
    ensures !Harmful(h, ch, SettleInvocation(0, q))
  {
    AnswerBounds(h, ch, q);
    hide Sanitized, PrintableText, CheckId, Utf8Len, ParseResponse, Authorized;
  }

  lemma AnswerSettles(h: Host, ch: Chain, q: LookupReport)
    requires Sound(h, ch) && RootAnswers(h, ch, q)
    ensures Settle(h, ch, 0, q).refusal.None? && Settle(h, ch, 0, q).chain.record.run.status == Completed
  {
    hide RecordSound, RowsSound, Progress, ProviderBytesError, Response, CheckId, Utf8Len, SealDiscussion, SealChain;
    AnswerBounds(h, ch, q);
    ReservationCoversReport(h, ch, 0, q);
    RootHasNoResults(h, ch);
    var row := RowOf(h, ch, 0, q);
    var stored := StoreOutcome(ch, 0, row).value;
    StoredRecord(ch, 0, row);
    ShapedId(q);
    DiscussionSeals(stored, row.packetId, q.eventId, AnswerText(h, ch, q));
    hide LookupShapeError, StoreOutcome;
  }

  lemma DiscussionSeals(ch: Chain, packetId: string, eventId: string, text: string)
    requires RecordSound(ch.record) && ch.record.run.status == Running && CheckId(eventId)
    requires text != "" && Utf8Len(text) <= MAX_OUTPUT_BYTES
    ensures SealDiscussion(ch, packetId, eventId, text).refusal.None?
    ensures SealDiscussion(ch, packetId, eventId, text).chain.record.run.status == Completed
  {
    hide Utf8Len, CheckId, TerminalShape, ResultShape;
    assert ch.record.run.sequence == 0;
  }
}
