/** Safety of the bounded lookup chain over whole histories: reserved bytes, single
    claims, replayed settlements, closing, and the lookup auditor's exact verdict. */
module LookupTheorems {
  import opened Wrappers
  import opened Decimals
  import opened Text
  import opened RunVocabulary
  import opened RunCommands
  import opened RunInvariants
  import opened RunStore
  import opened LookupChain
  import opened LookupInvariants
  import opened LookupAudit

  // ----- The auditor's verdict -----

  /** A report stores its text whole. */
  predicate OverlongText(q: LookupReport) {
    Utf8Len(q.text) > MAX_LOOKUP_ENVELOPE_BYTES
  }

  /** The error a report leaves behind, its own or the reason its text was not an envelope, is
      empty, over-long or holds control characters. */
  predicate UnsanitizedError(h: Host, packet: LookupPacket, q: LookupReport) {
    if q.error.Some? then !Sanitized(q.error.value)
    else
      var response := Response(h, packet, q);
      response.Err? && response.error.Some? && !Sanitized(response.error.value)
  }

  predicate FinalAnswerGiven(h: Host, packet: LookupPacket, q: LookupReport) {
    Response(h, packet, q).Ok? && Response(h, packet, q).value.Discussion?
  }

  /** The settlements and stops whose seal the lookup auditor refuses: a text over 64 KiB, an
      error that is not sanitized, a final answer at the root that lost the race with a stop, and a
      plain stop settlement whose text is not the stock note, the empty text included. */
  ghost predicate Harmful(h: Host, ch: Chain, c: RunChainCommand) {
    match c
    case SettleInvocation(ordinal, q) =>
      ordinal in ch.invocations
      && (OverlongText(q) || UnsanitizedError(h, ch.invocations[ordinal].packet, q)
          || (ordinal == 0 && ch.record.run.status == Stopping && FinalAnswerGiven(h, ch.invocations[0].packet, q)))
    case RunCommand(_, command) => command.SettleStopped? && command.assistantText != StopNote(command.cleanup)
    case _ => false
  }

  /** The auditor's bounds on a stored result, told of the report it came from. */
  lemma BoundedIff(h: Host, ch: Chain, ordinal: nat, q: LookupReport)
    requires ordinal in ch.invocations
    ensures ResultBounded(RowOf(h, ch, ordinal, q))
       <==> !OverlongText(q) && !UnsanitizedError(h, ch.invocations[ordinal].packet, q)
  {
    hide Response, Sanitized, Utf8Len;
  }

  ghost predicate Seals(h: Host, ch: Chain, c: RunChainCommand) {
    ch.record.run.status.Active() && ChainStep(h, ch, c).chain.record.run.status.Terminal()
  }

  lemma WithNoteTells(text: string, note: string)
    requires note != ""
    ensures WithNote(text, text) == WithNote(text, note) <==> text == note
  {
    if text != "" && WithNote(text, text) == WithNote(text, note) {
      var n := |text| + 3;
      assert WithNote(text, text)[n..n + |text|] == text;
      assert WithNote(text, note)[n..n + |note|] == note;
      assert |WithNote(text, text)| == |WithNote(text, note)|;
    }
  }

  /** One terminal event and one assistant message were added, and whether the message shows the
      event's text. */
  ghost predicate SealOf(r: Record, b: Record, shown: bool) {
    && |b.events| == 1 && |b.messages| == 2 && b.messages[1].role == Assistant && b.run.status != Completed
    && SealedWith(r, b, b.run.status, b.events[0].eventId, b.events[0].chunk, b.run.outputText, b.messages[1])
    && (b.messages[1] == Message(Assistant, WithNote(b.run.outputText, b.events[0].chunk), Some(r.run.packet.packetId))
        <==> shown)
  }

  lemma SealedIsSeal(r: Record, status: Status, reason: string, eventId: string, note: string)
    requires RecordSound(r) && r.run.status.Active() && status != Completed
    requires RunCommands.SealRun(r, status, reason, eventId, note).Ok?
    ensures SealOf(r, RunCommands.SealRun(r, status, reason, eventId, note).value, true)
  {
    hide Utf8Len, CheckId, Insertable, TerminalShape, ResultShape, BoundedNote, WithNote;
    var b := RunCommands.SealRun(r, status, reason, eventId, note).value;
    assert r.events == [] && |r.messages| == 1;
    assert b.events == [b.events[0]] && b.messages == r.messages + [b.messages[1]];
  }

  lemma SettledStopIsSeal(r: Record, eventId: string, text: string, expected: nat, cleanup: Cleanup)
    requires RecordSound(r) && r.run.status.Active()
    requires SettleStop(r, eventId, text, expected, cleanup).record.run.status.Terminal()
    ensures SealOf(r, SettleStop(r, eventId, text, expected, cleanup).record, text == StopNote(cleanup))
  {
    hide Utf8Len, CheckId, Insertable, TerminalShape, ResultShape, FinalOutputError, FindEvent, WithNote;
    var b := SettleStop(r, eventId, text, expected, cleanup).record;
    assert r.events == [] && |r.messages| == 1;
    assert b.events == [b.events[0]] && b.messages == r.messages + [b.messages[1]];
    WithNoteTells(text, StopNote(cleanup));
  }

  /** Every seal the run protocol makes, and when its message shows its event. */
  lemma ApplySeals(r: Record, c: Command)
    requires RecordSound(r) && r.run.status.Active() && !c.Start? && !c.Recover?
    requires Apply(r, c).record.run.status.Terminal()
    ensures SealOf(r, Apply(r, c).record, !(c.SettleStopped? && c.assistantText != StopNote(c.cleanup)))
  {
    hide Good, RunCommands.SealRun, SealOf, SettleStop, FinalOutputError, FindEvent, SettlementError, Trim, FailureText;
    match c
    case BeginRun(_, current) =>
      SealedIsSeal(r, Failed, "context_stale", STALE_PREFIX + r.run.owner.runId, STALE_MESSAGE);
    case StopRun(_, _) =>
      SealedIsSeal(r, Stopped, "author_stopped", STOP_PREFIX + r.run.owner.runId, STOP_SETTLED_MESSAGE);
    case InterruptActive(_, _) =>
      SealedIsSeal(r, Interrupted, "project_close_cleanup", INTERRUPTED_PREFIX + r.run.owner.runId,
                   STOP_UNRESOLVED_MESSAGE);
    case SettleStopped(_, expected, id, text, cleanup) =>
      SettledStopIsSeal(r, id, text, Expected(expected), cleanup);
    case _ =>
  }

  lemma PlainSealAudit(h: Host, ch: Chain, identity: Access, c: Command)
    requires Sound(h, ch) && ch.record.run.status.Active() && !c.Start? && !c.Recover?
    requires Plain(ch, identity, c).chain.record.run.status.Terminal()
    ensures AuditChain(h, Plain(ch, identity, c).chain) <==>
      !(c.SettleStopped? && c.assistantText != StopNote(c.cleanup))
  {
    hide RecordSound, RowsSound, Progress, AuditChain, SealedWith, Apply, Precheck, MarkStopped, ChainEvolves;
    ApplySeals(ch.record, c);
    var b := Plain(ch, identity, c).chain;
    PlainKeeps(h, ch, identity, c);
    UnstoredSealAudit(h, ch, b, b.record.run.status, b.record.events[0].eventId, b.record.events[0].chunk,
                      b.record.run.outputText, b.record.messages[1]);
  }

  lemma SealAudit(h: Host, ch: Chain, b: Chain, status: Status, reason: string, eventId: string, note: string)
    requires Sound(h, ch) && ch.record.run.status.Active() && status.Terminal() && status != Completed
    requires b == SealChain(ch, status, reason, eventId, note).chain && b.record.run.status.Terminal()
    ensures AuditChain(h, b)
  {
    hide Sound, AuditChain, SealChain;
    if SealChain(ch, status, reason, eventId, note).refusal.Some? {
      SealRefused(ch, status, reason, eventId, note);
      assert false;
    }
    SealChainAudit(h, ch, status, reason, eventId, note);
  }

  /** A settlement that was stored, with the chain it was concluded from. */
  lemma SettledParts(h: Host, ch: Chain, ordinal: nat, q: LookupReport)
    requires Settle(h, ch, ordinal, q).chain != ch
    ensures Settles(h, ch, ordinal, q) && Storable(ch, ordinal, RowOf(h, ch, ordinal, q))
    ensures var row := RowOf(h, ch, ordinal, q);
            var stored := StoreOutcome(ch, ordinal, row).value;
            Conclude(stored, row, q).refusal.None? && Settle(h, ch, ordinal, q) == Conclude(stored, row, q)
  {
    hide LookupShapeError, ResultMatches, ProviderBytesError, Response, ResultRow, StoreOutcome, Conclude;
  }

  lemma SettleSealAudit(h: Host, ch: Chain, ordinal: nat, q: LookupReport)
    requires Sound(h, ch) && ch.record.run.status.Active()
    requires Settle(h, ch, ordinal, q).chain.record.run.status.Terminal()
    ensures AuditChain(h, Settle(h, ch, ordinal, q).chain) <==> !Harmful(h, ch, SettleInvocation(ordinal, q))
  {
    hide RecordSound, RowsSound, Progress, AuditChain, SealChain, SealDiscussion, StoreOutcome, Settle, ChainEvolves,
      Conclude, Settles, ResultBounded, OverlongText, UnsanitizedError;
    var b := Settle(h, ch, ordinal, q).chain;
    SettledParts(h, ch, ordinal, q);
    SettleKeeps(h, ch, ordinal, q);
    var row := RowOf(h, ch, ordinal, q);
    var stored := StoreOutcome(ch, ordinal, row).value;
    StoredRecord(ch, ordinal, row);
    SettledFacts(h, ch, ordinal, q);
    assert RecordSound(stored.record);
    ConcludedAudit(h, ch, ordinal, q, row, stored, b);
  }

  lemma SettledFacts(h: Host, ch: Chain, ordinal: nat, q: LookupReport)
    requires Sound(h, ch) && Settles(h, ch, ordinal, q)
    ensures var row := RowOf(h, ch, ordinal, q);
            && row.packetId == ch.invocations[ordinal].packet.packetId && row.eventId == q.eventId
            && ch.invocations[ordinal].state.ClaimedRow? && Receipts(h, ch.invocations, ch.results)
            && (row.response.Some? ==> ResultBounded(row) && row.outcome == ProviderCompleted && q.cleanup == Settled)
            && (IsFinal(row) <==>
                  Response(h, ch.invocations[ordinal].packet, q).Ok?
                  && Response(h, ch.invocations[ordinal].packet, q).value.Discussion?)
  {
    hide RecordSound, Rows, Receipts, Evidence, Budget, Progress, ValidEnvelope, Authorized, ProviderBytesError,
      CheckId,
      PrintableText, Utf8Len;
  }

  /** Conclude's three seals, each against the auditor's ending clauses. */
  lemma ConcludedAudit(h: Host, ch: Chain, ordinal: nat, q: LookupReport, row: LookupResult, stored: Chain, b: Chain)
    requires Sound(h, ch) && ch.record.run.status.Active() && Sound(h, b) && ordinal in ch.invocations
    requires row == RowOf(h, ch, ordinal, q) && StoreOutcome(ch, ordinal, row) == Some(stored)
    requires stored.record == ch.record && RecordSound(stored.record)
    requires Conclude(stored, row, q) == Commit(b) && b.record.run.status.Terminal()
    requires row.packetId == ch.invocations[ordinal].packet.packetId && row.eventId == q.eventId
    requires ch.invocations[ordinal].state.ClaimedRow? && Receipts(h, ch.invocations, ch.results)
    requires row.response.Some? ==> ResultBounded(row) && row.outcome == ProviderCompleted && q.cleanup == Settled
    requires IsFinal(row) <==>
      Response(h, ch.invocations[ordinal].packet, q).Ok?
        && Response(h, ch.invocations[ordinal].packet, q).value.Discussion?
    ensures AuditChain(h, b) <==> !Harmful(h, ch, SettleInvocation(ordinal, q))
  {
    hide Sound, RecordSound, AuditChain, SealChain, SealDiscussion, StoreOutcome, ResultBounded, Response, ResultRow,
      FailureReason, FailureNote, SealedWith, MarkStopped, Receipts, StoredAs, OverlongText, UnsanitizedError;
    BoundedIff(h, ch, ordinal, q);
    if row.response.None? {
      var status, note := FailureStatus(q.status, q.cleanup), FailureNote(row, q);
      SealChainRows(stored, status, FailureReason(q.status, q.cleanup), q.eventId, note);
      StoreOutcomeStoredAs(h, ch, ordinal, row, b);
      StoppedSettleAudit(h, ch, ordinal, row, b, status, note);
    } else if stored.record.run.status == Stopping {
      SealChainRows(stored, Stopped, "author_stopped", q.eventId, STOP_SETTLED_MESSAGE);
      StoreOutcomeStoredAs(h, ch, ordinal, row, b);
      StoppedSettleAudit(h, ch, ordinal, row, b, Stopped, STOP_SETTLED_MESSAGE);
    } else if IsFinal(row) {
      SealDiscussionRows(stored, row.packetId, q.eventId, row.response.value.text);
      StoreOutcomeStoredAs(h, ch, ordinal, row, b);
      AnswerSettleAudit(h, ch, ordinal, row, b);
    }
  }

  lemma SealDiscussionRows(ch: Chain, packetId: string, eventId: string, text: string)
    requires SealDiscussion(ch, packetId, eventId, text).refusal.None?
    ensures var b := SealDiscussion(ch, packetId, eventId, text).chain;
            && ch.record.run.status == Running && b.results == ch.results && b.invocations == ch.invocations
            && SealedWith(ch.record, b.record, Completed, eventId, text, text, Message(Assistant, text, Some(packetId)))
  {
    hide Utf8Len, Insertable;
  }

  /** The step that seals an active chain passes the lookup auditor exactly when it is not one
      of the harmful ones. */
  lemma SealingStepAudit(h: Host, ch: Chain, c: RunChainCommand)
    requires Sound(h, ch) && Seals(h, ch, c)
    ensures AuditChain(h, ChainStep(h, ch, c).chain) <==> !Harmful(h, ch, c)
  {
    hide Sound, AuditChain, SealChain, ClaimRow, Settle, Expand, Plain, DecimalText, OverlongText, UnsanitizedError;
    match c
    case ClaimInvocation(ordinal, sourceEpoch, policyEpoch) =>
      ClaimRowStaysActive(ch, ordinal);
      SealAudit(h, ch, ChainStep(h, ch, c).chain, Failed, "context_stale",
        "lookup-stale-" + ch.record.run.owner.runId + "-" + DecimalText(ordinal), STALE_LOOKUP_MESSAGE);
    case SettleInvocation(ordinal, q) => SettleSealAudit(h, ch, ordinal, q);
    case AdvanceLookup(ordinal, sourceEpoch, answer, compiled) =>
      ExpandStaysActive(h, ch, ordinal, answer, compiled);
      AdvanceSealAudit(h, ch, ordinal, sourceEpoch, answer, compiled);
    case HaltLookup(reason) =>
      SealAudit(h, ch, ChainStep(h, ch, c).chain, Interrupted, "lookup_halted",
        "lookup-halt-" + DecimalText(ch.record.run.sequence), reason);
    case ReopenProject =>
      SealAudit(h, ch, ChainStep(h, ch, c).chain, Interrupted, "project_reopened",
        INTERRUPTED_PREFIX + ch.record.run.owner.runId, REOPENED_MESSAGE);
    case RunCommand(identity, command) => PlainSealAudit(h, ch, identity, command);
  }

  lemma ClaimRowStaysActive(ch: Chain, ordinal: nat)
    ensures ordinal in ch.invocations ==> ClaimRow(ch, ordinal).chain.record == ch.record
  {
  }

  lemma ExpandStaysActive(h: Host, ch: Chain, k: nat, answer: LookupRead -> Answer, compiled: Option<Compiled>)
    ensures k in ch.invocations ==> Expand(h, ch, k, answer, compiled).chain.record == ch.record
  {
    hide EvidenceAccepted, StoreReads, ReadExchanges, RequestsOf, Answered, PacketIdUnused, AuthorizedRead;
  }

  lemma AdvanceSealAudit(h: Host, ch: Chain, k: nat, sourceEpoch: nat, answer: LookupRead -> Answer,
                         compiled: Option<Compiled>)
    requires Sound(h, ch) && ch.record.run.status.Active()
    requires k in ch.invocations ==> Expand(h, ch, k, answer, compiled).chain.record == ch.record
    requires Advance(h, ch, k, sourceEpoch, answer, compiled).chain.record.run.status.Terminal()
    ensures AuditChain(h, Advance(h, ch, k, sourceEpoch, answer, compiled).chain)
  {
    hide Sound, AuditChain, SealChain, Expand, DecimalText;
    var b := Advance(h, ch, k, sourceEpoch, answer, compiled).chain;
    if k >= ch.invocations[k].packet.allowance.maxAdditional + 1 || k >= 2 {
      SealAudit(h, ch, b, Failed, "lookup_limit", "lookup-limit-" + DecimalText(k), LIMIT_MESSAGE);
    } else {
      SealAudit(h, ch, b, Failed, "context_stale", "lookup-stale-" + DecimalText(k), STALE_EXPANSION_MESSAGE);
    }
  }

  /** A sealed chain never changes again. */
  lemma SealedChainIsFrozen(h: Host, ch: Chain, c: RunChainCommand)
    requires Sound(h, ch) && ch.record.run.status.Terminal()
    ensures ChainStep(h, ch, c).chain == ch
  {
    hide RecordSound, RowsSound, Progress, SealChain, ClaimRow, SettleClaimed, Expand, Plain, LookupShapeError,
      ResultMatches,
      Trim, Utf8Len;
    if c.RunCommand? {
      PlainFrozen(h, ch, c.identity, c.command);
    }
  }

  lemma PlainFrozen(h: Host, ch: Chain, identity: Access, c: Command)
    requires Sound(h, ch) && ch.record.run.status.Terminal() && !c.Start? && !c.Recover?
    ensures Plain(ch, identity, c).chain == ch
  {
    PlainKeeps(h, ch, identity, c);
    hide Sound, Apply, Precheck, MarkStopped;
  }

  /** No step of the run seals the chain harmfully. */
  ghost predicate Unharmed(h: Host, ch: Chain, commands: seq<RunChainCommand>)
    decreases |commands|
  {
    commands == []
    || ((Seals(h, ch, commands[0]) ==> !Harmful(h, ch, commands[0]))
        && Unharmed(h, ChainStep(h, ch, commands[0]).chain, commands[1..]))
  }

  /** Every history of a lookup chain is accepted by the lookup auditor exactly when no step
      sealed it harmfully: reserved bytes, contiguous ordinals, recomputed states, exchanges
      and read receipts never fail it. The receipt auditor of the same pass has its say in
      `LookupVerdict.ReachableVerdict`. */
  lemma {:induction false} ReachableChainAudit(h: Host, ch: Chain, commands: seq<RunChainCommand>)
    requires Sound(h, ch) && AuditChain(h, ch)
    ensures AuditChain(h, RunChain(h, ch, commands)) <==> Unharmed(h, ch, commands)
    decreases |commands|
  {
    hide Sound, AuditChain, ChainStep, Harmful;
    if commands != [] {
      var next := ChainStep(h, ch, commands[0]).chain;
      ChainStepKeeps(h, ch, commands[0]);
      if Seals(h, ch, commands[0]) {
        SealingStepAudit(h, ch, commands[0]);
        FrozenRun(h, next, commands[1..]);
      } else if ch.record.run.status.Terminal() {
        SealedChainIsFrozen(h, ch, commands[0]);
      } else {
        ActiveChainsPassAudit(h, next);
      }
      if AuditChain(h, next) {
        ReachableChainAudit(h, next, commands[1..]);
      }
    }
  }

  /** After its seal a chain stays as it is, whatever is sent to it. */
  lemma {:induction false} FrozenRun(h: Host, ch: Chain, commands: seq<RunChainCommand>)
    requires Sound(h, ch) && ch.record.run.status.Terminal()
    ensures RunChain(h, ch, commands) == ch
    decreases |commands|
  {
    hide Sound, ChainStep;
    if commands != [] {
      SealedChainIsFrozen(h, ch, commands[0]);
      FrozenRun(h, ch, commands[1..]);
    }
  }

  /** The lookup auditor's verdict for a lookup discussion from its start. */
  lemma StartedChainAudit(h: Host, ch: Chain, c: Command, packet: LookupPacket, frozen: Frozen,
                          commands: seq<RunChainCommand>)
    requires Started(ch, c, packet, frozen)
    ensures AuditChain(h, RunChain(h, ch, commands)) <==> Unharmed(h, ch, commands)
  {
    hide AuditChain, Sound, RunChain, Unharmed;
    StartedSound(h, ch, c, packet, frozen);
    ActiveChainsPassAudit(h, ch);
    ReachableChainAudit(h, ch, commands);
  }
}
