/** What a lookup chain promises its callers: reserved bytes, one paid claim an
    ordinal, replayed settlements, one expansion, and a closed chain after its seal. */
module LookupLaws {
  import opened Wrappers
  import opened Decimals
  import opened Text
  import opened RunVocabulary
  import opened RunCommands
  import opened RunInvariants
  import opened RunStore
  import opened LookupChain
  import opened LookupInvariants
  import opened LookupAudit
  import opened LookupTheorems

  // ----- Reserved bytes -----

  /** A claim's reservation covers its report: a consistent report of at most 64 KiB is
      never refused for bytes, whatever was settled before it. */
  lemma ReservationCoversReport(h: Host, ch: Chain, k: nat, q: LookupReport)
    requires Sound(h, ch) && k in ch.invocations && ch.invocations[k].state.ClaimedRow?
    requires q.confirmedStdinBytes <= ch.invocations[k].packet.inputBytes
    requires q.status == ProviderCompleted ==> q.confirmedStdinBytes == ch.invocations[k].packet.inputBytes
    requires Utf8Len(q.text) <= MAX_LOOKUP_ENVELOPE_BYTES
    ensures ProviderBytesError(ch, ch.invocations[k].packet, q).None?
  {
    hide RecordSound, Receipts, Evidence, Progress, Utf8Len, TotalInput, TotalOutput, RowFits, Allowance.InputLimit,
      Allowance.OutputLimit, Allowance.Valid;
    RootAllowance(ch, k);
  }

  lemma ValueStep(s: string, rest: nat)
    requires |s| > 1 && Digits(s) && Value(s[1..]) == rest
    ensures Value(s) == DigitValue(s[0]) * Pow10(|s| - 1) + rest
  {
  }

  lemma Powers()
    ensures Pow10(1) == 10 && Pow10(2) == 100 && Pow10(3) == 1000 && Pow10(4) == 10_000 && Pow10(5) == 100_000
  {
    assert Pow10(1) == 10 && Pow10(2) == 100 && Pow10(3) == 1000;
  }

  lemma FiveDigits(s: string)
    requires |s| == 5 && Digits(s)
    ensures Value(s) == DigitValue(s[0]) * 10_000 + DigitValue(s[1]) * 1000 + DigitValue(s[2]) * 100
                      + DigitValue(s[3]) * 10 + DigitValue(s[4])
  {
    Powers();
    ValueStep(s[3..], Value(s[4..]));
    ValueStep(s[2..], Value(s[3..]));
    ValueStep(s[1..], Value(s[2..]));
    ValueStep(s, Value(s[1..]));
    assert Value(s[4..]) == DigitValue(s[4]) by { assert s[4..][1..] == ""; }
  }

  lemma DefaultLimits()
    ensures DEFAULT_ALLOWANCE.Valid()
    ensures DEFAULT_ALLOWANCE.InputLimit() == 3 * 24_576 && DEFAULT_ALLOWANCE.OutputLimit() == 3 * 65_536
  {
    Powers();
    FiveDigits("73728");
    assert "196608"[1..] == "96608";
    FiveDigits("96608");
    ValueStep("196608", 96_608);
  }

  predicate SmallPackets(ch: Chain) {
    forall k :: k in ch.invocations ==> ch.invocations[k].packet.inputBytes <= 24_576
  }

  /** What a receipt took, and that a call which asked for context answered within the limit. */
  lemma ReceiptBytes(h: Host, i: Invocation, saved: LookupResult)
    requires ReceiptFits(h, i, saved)
    ensures saved.confirmedStdinBytes <= i.packet.inputBytes
    ensures i.state.NeedsContextRow? ==> Utf8Len(saved.text) <= MAX_LOOKUP_ENVELOPE_BYTES
    ensures !i.state.Open()
  {
    hide Utf8Len, Authorized, CheckId, PrintableText, ValidEnvelope;
  }

  lemma SettledBytes(h: Host, ch: Chain, k: nat, j: nat)
    requires Sound(h, ch) && SmallPackets(ch) && k in ch.invocations && ch.invocations[k].state.Open() && j <= 2
    ensures InputOf(ch.results, j) <= (if j < k then 24_576 else 0)
    ensures OutputOf(ch.results, j) <= (if j < k then 65_536 else 0)
  {
    hide RecordSound, Evidence, Progress, Budget, Utf8Len, Allowance.Valid, ReceiptFits, RowFits;
    if j in ch.results {
      OpenIsLast(ch.record, ch.invocations, k, j);
      assert ReceiptFits(h, ch.invocations[j], ch.results[j]);
      ReceiptBytes(h, ch.invocations[j], ch.results[j]);
      if !ch.invocations[j].state.NeedsContextRow? {
        OpenIsLast(ch.record, ch.invocations, j, k);
      }
    }
  }

  /** With the default allowance and packets of at most 24,576 bytes, no claim of a
      three-call chain is ever refused for bytes. */
  lemma DefaultAllowanceNeverRefusesClaim(h: Host, ch: Chain, k: nat)
    requires Sound(h, ch) && SmallPackets(ch) && k in ch.invocations && ch.invocations[k].state.PreparedRow?
    requires ch.invocations[k].packet.allowance == DEFAULT_ALLOWANCE
    ensures ClaimRow(ch, k).refusal.None?
  {
    hide RecordSound, RowsSound, Progress, Allowance.Valid, Allowance.InputLimit, Allowance.OutputLimit, InputOf,
      OutputOf;
    DefaultLimits();
    SettledBytes(h, ch, k, 0);
    SettledBytes(h, ch, k, 1);
    SettledBytes(h, ch, k, 2);
    OrdinalBound(h, ch, k);
  }

  lemma OrdinalBound(h: Host, ch: Chain, k: nat)
    requires Sound(h, ch) && k in ch.invocations
    ensures k <= 2
  {
    hide RecordSound, Receipts, Evidence, Progress, Budget, Allowance.Valid;
    assert RowFits(ch.invocations, k);
  }

  // ----- One paid claim -----

  /** An invocation once claimed is never claimed again, whatever happens in between. */
  lemma ClaimSucceedsOnce(h: Host, ch: Chain, k: nat, sourceEpoch: nat, policyEpoch: nat, between: seq<RunChainCommand>,
                          sourceAgain: nat, policyAgain: nat)
    requires Sound(h, ch) && Claim(ch, k, sourceEpoch, policyEpoch).refusal.None?
    ensures var later := RunChain(h, Claim(ch, k, sourceEpoch, policyEpoch).chain, between);
            Claim(later, k, sourceAgain, policyAgain).refusal.Some?
  {
    hide Sound, ChainEvolves, Claim;
    var claimed := Claim(ch, k, sourceEpoch, policyEpoch).chain;
    ClaimKeeps(h, ch, k, sourceEpoch, policyEpoch);
    ClaimLeavesClaimed(ch, k, sourceEpoch, policyEpoch);
    EveryChainKeeps(h, claimed, between);
    ClaimedRefuses(claimed, RunChain(h, claimed, between), k, sourceAgain, policyAgain);
  }

  lemma ClaimLeavesClaimed(ch: Chain, k: nat, sourceEpoch: nat, policyEpoch: nat)
    requires Claim(ch, k, sourceEpoch, policyEpoch).refusal.None?
    ensures var b := Claim(ch, k, sourceEpoch, policyEpoch).chain;
            k in b.invocations && b.invocations[k].state.ClaimedRow?
  {
    hide SealChain, DecimalText, TotalInput, TotalOutput;
  }

  lemma ClaimedRefuses(a: Chain, b: Chain, k: nat, sourceEpoch: nat, policyEpoch: nat)
    requires ChainEvolves(a, b) && k in a.invocations && !a.invocations[k].state.PreparedRow?
    ensures Claim(b, k, sourceEpoch, policyEpoch).refusal.Some?
  {
    hide Evolves, SealChain, DecimalText, TotalInput, TotalOutput;
    assert RowEvolves(a.invocations[k], b.invocations[k]);
  }

  // ----- Replayed settlements -----

  lemma StoredRowMatches(h: Host, packet: LookupPacket, q: LookupReport)
    requires LookupShapeError(q).None? && packet.binding == q.binding
    ensures ResultMatches(ResultRow(packet, q, Response(h, packet, q)), q)
  {
    hide ParseResponse, Authorized, CheckId, PrintableText, Utf8Len, Sanitized;
  }

  lemma SettledIsStored(h: Host, ch: Chain, k: nat, q: LookupReport)
    requires Sound(h, ch) && Settle(h, ch, k, q).refusal.None?
    ensures var b := Settle(h, ch, k, q).chain;
            LookupShapeError(q).None? && k < 3 && k in b.results && ResultMatches(b.results[k], q)
  {
    hide RecordSound, RowsSound, Progress, ResultMatches, LookupShapeError, ProviderBytesError, Response, ResultRow,
      SealChain, SealDiscussion, ResultInsertable, SettledState, FailureNote, FailureReason;
    if k !in ch.results {
      StoredRowMatches(h, ch.invocations[k].packet, q);
      SealsKeepResults(StoreOutcome(ch, k, RowOf(h, ch, k, q)).value, RowOf(h, ch, k, q), q);
    }
  }

  lemma SealsKeepResults(stored: Chain, row: LookupResult, q: LookupReport)
    ensures Conclude(stored, row, q).chain.results == stored.results
  {
    hide RunCommands.SealRun, Terminate, FailureNote, FailureReason, FailureStatus, MarkStopped, Utf8Len;
  }

  /** A lost acknowledgement is safe: re-sending a settled report, after anything else
      has happened, succeeds and changes nothing. */
  lemma LostSettlementAcknowledgement(h: Host, ch: Chain, k: nat, q: LookupReport, between: seq<RunChainCommand>)
    requires Sound(h, ch) && Settle(h, ch, k, q).refusal.None?
    ensures var later := RunChain(h, Settle(h, ch, k, q).chain, between);
            Settle(h, later, k, q) == Commit(later)
  {
    hide Sound, ResultMatches, LookupShapeError, SettleClaimed, RowEvolves, Evolves;
    SettledIsStored(h, ch, k, q);
    SettleKeeps(h, ch, k, q);
    EveryChainKeeps(h, Settle(h, ch, k, q).chain, between);
  }

  /** After that, another report for the ordinal changes nothing, and is accepted exactly
      when it repeats the delivery with the stored outcome and error, or tells the same
      delivery as a completed call where a failure was stored. */
  lemma SecondReportAnswers(h: Host, ch: Chain, k: nat, q: LookupReport, again: LookupReport)
    requires Sound(h, ch) && Settle(h, ch, k, q).refusal.None? && LookupShapeError(again).None?
    requires k !in ch.results
    ensures var b := Settle(h, ch, k, q).chain;
            && k in b.results && Settle(h, b, k, again).chain == b
            && (Settle(h, b, k, again).refusal.None? <==>
                  && again.(status := q.status, error := q.error) == q
                  && ((again.status == b.results[k].outcome && again.error == b.results[k].error)
                      || (again.status == ProviderCompleted && b.results[k].outcome == ProviderFailed)))
  {
    hide RecordSound, RowsSound, Progress, LookupShapeError, ProviderBytesError, Response, SealChain, SealDiscussion,
      ResultInsertable, SettledState, FailureNote, FailureReason;
    SettledIsStored(h, ch, k, q);
    SealsKeepResults(StoreOutcome(ch, k, RowOf(h, ch, k, q)).value, RowOf(h, ch, k, q), q);
    var b := Settle(h, ch, k, q).chain;
    assert b.results[k] == RowOf(h, ch, k, q);
    if again.status == ProviderCompleted { CompletedHasNoError(again); }
  }

  lemma CompletedHasNoError(q: LookupReport)
    requires LookupShapeError(q).None? && q.status == ProviderCompleted
    ensures q.error.None? && q.text != "" && q.cleanup == Settled
  {
  }

  // ----- Expansion -----

  /** A round is expanded at most once: with a child in place, no answer or packet is
      accepted for the same ordinal again. */
  lemma ExpansionIsOnce(h: Host, ch: Chain, k: nat, answer: LookupRead -> Answer, compiled: Option<Compiled>)
    requires k in ch.invocations && k + 1 in ch.invocations
    ensures Expand(h, ch, k, answer, compiled).refusal.Some? && Expand(h, ch, k, answer, compiled).chain == ch
  {
    hide EvidenceAccepted, StoreReads, ReadExchanges, RequestsOf, Answered, PacketIdUnused, AuthorizedRead;
  }

  /** At the last permitted ordinal, with the story unchanged, an expansion ends the run
      exactly when the allowance is the full two extra calls. Under a smaller allowance
      the limit branch is out of reach: packet compilation refuses the child instead, so
      the request fails and the run stays running. */
  lemma LimitSealsIffFullAllowance(h: Host, ch: Chain, k: nat, answer: LookupRead -> Answer, compiled: Option<Compiled>)
    requires Sound(h, ch) && ch.record.run.status == Running && k in ch.invocations
    requires ch.invocations[k].state.NeedsContextRow? && k == ch.invocations[k].packet.allowance.maxAdditional
    ensures var reply := Advance(h, ch, k, ch.invocations[k].frozen.sourceEpoch, answer, compiled);
            if k == 2 then reply.refusal.None? && reply.chain.record.run.status == Failed
            else reply.refusal.Some? && reply.chain == ch
  {
    hide RecordSound, RowsSound, Progress, SealChain, Expand, DecimalText, BoundedNote, CheckId;
    OrdinalBound(h, ch, k);
    if k == 2 {
      LimitIdChecks();
      ShortTextsAreBounded(LIMIT_MESSAGE);
      SealChainSucceedsIff(h, ch, Failed, "lookup_limit", "lookup-limit-" + DecimalText(2), LIMIT_MESSAGE);
      SealChainKeeps(h, ch, Failed, "lookup_limit", "lookup-limit-" + DecimalText(2), LIMIT_MESSAGE);
    } else {
      ExpandBeyondMaximum(h, ch, k, answer, compiled);
    }
  }

  lemma LimitIdChecks()
    ensures CheckId("lookup-limit-" + DecimalText(2))
  {
    assert DecimalText(2) == "2";
  }

  lemma ExpandBeyondMaximum(h: Host, ch: Chain, k: nat, answer: LookupRead -> Answer, compiled: Option<Compiled>)
    requires k in ch.invocations && k >= ch.invocations[k].packet.allowance.maxAdditional
    ensures Expand(h, ch, k, answer, compiled).refusal.Some? && Expand(h, ch, k, answer, compiled).chain == ch
  {
    hide StoreReads, ReadExchanges, RequestsOf, Answered, PacketIdUnused, AuthorizedRead, DistinctExchanges;
  }

  // ----- Closing -----

  ghost predicate NothingOpen(ch: Chain) {
    forall k :: k in ch.invocations ==> !ch.invocations[k].state.Open()
  }

  lemma MarkedIsClosed(ch: Chain, record: Record)
    ensures NothingOpen(ch.(record := record, invocations := MarkStopped(ch.invocations)))
  {
  }

  /** Reopening always closes an active lookup run, and with it every invocation. */
  lemma ReopenCloses(h: Host, ch: Chain)
    requires Sound(h, ch) && ch.record.run.status.Active()
    ensures Reopen(ch).refusal.None? && Reopen(ch).chain.record.run.status == Interrupted
    ensures NothingOpen(Reopen(ch).chain)
  {
    hide RowsSound, Progress, BoundedNote, CheckId, Good;
    ShortTextsAreBounded(REOPENED_MESSAGE);
    RunIdIsNew(ch.record);
    SystemIdChecks(INTERRUPTED_PREFIX, ch.record.run.owner.runId);
    var id := INTERRUPTED_PREFIX + ch.record.run.owner.runId;
    SealChainSucceedsIff(h, ch, Interrupted, "project_reopened", id, REOPENED_MESSAGE);
    SealChainKeeps(h, ch, Interrupted, "project_reopened", id, REOPENED_MESSAGE);
    MarkedIsClosed(ch, Reopen(ch).chain.record);
  }

  lemma RunIdIsNew(r: Record)
    requires Good(r)
    ensures IsNewId(r.run.owner.runId)
  {
  }

  /** A halt with a reason closes an active lookup run in the same way. */
  lemma HaltCloses(h: Host, ch: Chain, reason: string)
    requires Sound(h, ch) && ch.record.run.status.Active()
    ensures Halt(ch, reason).refusal.None? <==> Trim(reason) != "" && Utf8Len(reason) <= 4096
    ensures Halt(ch, reason).refusal.None? ==>
      Halt(ch, reason).chain.record.run.status == Interrupted && NothingOpen(Halt(ch, reason).chain)
  {
    hide RowsSound, Progress, CheckId, Utf8Len, SealChain;
    var id := "lookup-halt-" + DecimalText(ch.record.run.sequence);
    if Trim(reason) != "" && Utf8Len(reason) <= 4096 {
      HaltIdChecks(ch.record);
      assert reason != "" by { assert Trim("") == ""; }
      SealChainSucceedsIff(h, ch, Interrupted, "lookup_halted", id, reason);
      SealChainKeeps(h, ch, Interrupted, "lookup_halted", id, reason);
      SealedIsClosed(ch, Interrupted, "lookup_halted", id, reason);
    }
  }

  lemma HaltIdChecks(r: Record)
    requires RecordSound(r) && r.run.status.Active()
    ensures CheckId("lookup-halt-" + DecimalText(r.run.sequence))
  {
    hide TerminalShape, ResultShape, Utf8Len;
    assert r.run.sequence == 0 && DecimalText(0) == "0";
  }

  lemma SealedIsClosed(ch: Chain, status: Status, reason: string, eventId: string, note: string)
    requires SealChain(ch, status, reason, eventId, note).refusal.None?
    ensures NothingOpen(SealChain(ch, status, reason, eventId, note).chain)
  {
    MarkedIsClosed(ch, SealChain(ch, status, reason, eventId, note).chain.record);
  }

  /** Which seals leave a dispatchable row behind: begin and stop on a queued run, which
      never stop its prepared root, and a plain stop settlement over an open claim. */
  lemma SealingClosesTheChain(h: Host, ch: Chain, c: RunChainCommand)
    requires Sound(h, ch) && Seals(h, ch, c)
    ensures NothingOpen(ChainStep(h, ch, c).chain) <==>
      !(c.RunCommand? && (c.command.BeginRun? || c.command.StopRun? || (c.command.SettleStopped? && !NothingOpen(ch))))
  {
    hide Sound, NothingOpen, SealChain, ClaimRow, Settle, Expand, Plain, DecimalText;
    match c
    case ClaimInvocation(ordinal, sourceEpoch, policyEpoch) =>
      ClaimRowStaysActive(ch, ordinal);
      SealOrSame(ch, Failed, "context_stale", "lookup-stale-" + ch.record.run.owner.runId + "-" + DecimalText(ordinal),
                 STALE_LOOKUP_MESSAGE);
    case SettleInvocation(ordinal, q) => SettleCloses(h, ch, ordinal, q);
    case AdvanceLookup(ordinal, sourceEpoch, answer, compiled) =>
      ExpandStaysActive(h, ch, ordinal, answer, compiled);
      SealOrSame(ch, Failed, "lookup_limit", "lookup-limit-" + DecimalText(ordinal), LIMIT_MESSAGE);
      SealOrSame(ch, Failed, "context_stale", "lookup-stale-" + DecimalText(ordinal), STALE_EXPANSION_MESSAGE);
    case HaltLookup(reason) =>
      SealOrSame(ch, Interrupted, "lookup_halted", "lookup-halt-" + DecimalText(ch.record.run.sequence), reason);
    case ReopenProject =>
      SealOrSame(ch, Interrupted, "project_reopened", INTERRUPTED_PREFIX + ch.record.run.owner.runId, REOPENED_MESSAGE);
    case RunCommand(identity, command) => PlainCloses(h, ch, identity, command);
  }

  lemma SealOrSame(ch: Chain, status: Status, reason: string, eventId: string, note: string)
    ensures var reply := SealChain(ch, status, reason, eventId, note);
            reply.chain == ch || NothingOpen(reply.chain)
  {
    hide NothingOpen;
    if SealChain(ch, status, reason, eventId, note).refusal.None? {
      SealedIsClosed(ch, status, reason, eventId, note);
    }
  }

  lemma SettleCloses(h: Host, ch: Chain, k: nat, q: LookupReport)
    requires Sound(h, ch) && ch.record.run.status.Active() && Settle(h, ch, k, q).chain.record.run.status.Terminal()
    ensures NothingOpen(Settle(h, ch, k, q).chain)
  {
    hide RecordSound, RowsSound, Progress, NothingOpen, SealChain, SealDiscussion, Settle, StoreOutcome, ResultRow,
      Response,
      ProviderBytesError, LookupShapeError, FailureNote, FailureReason, FailureStatus;
    SettledParts(h, ch, k, q);
    var row := RowOf(h, ch, k, q);
    var stored := StoreOutcome(ch, k, row).value;
    StoredRecord(ch, k, row);
    if row.response.None? {
      SealOrSame(stored, FailureStatus(q.status, q.cleanup), FailureReason(q.status, q.cleanup), q.eventId,
                 FailureNote(row, q));
    } else if stored.record.run.status == Stopping {
      SealOrSame(stored, StopStatus(q.cleanup), if q.cleanup == Unresolved then "stop_cleanup_unresolved"
                 else "author_stopped",
                 q.eventId, StopNote(q.cleanup));
    } else if IsFinal(row) {
      AnswerCloses(h, ch, k, row);
      SealDiscussionRows(stored, row.packetId, q.eventId, row.response.value.text);
      SameRowsClosed(stored, SealDiscussion(stored, row.packetId, q.eventId, row.response.value.text).chain);
    }
  }

  lemma SameRowsClosed(a: Chain, b: Chain)
    requires NothingOpen(a) && b.invocations == a.invocations
    ensures NothingOpen(b)
  {
  }

  /** A claimed row is the only open one, so storing its result closes the chain. */
  lemma AnswerCloses(h: Host, ch: Chain, k: nat, row: LookupResult)
    requires Sound(h, ch) && ch.record.run.status.Active() && Storable(ch, k, row)
    requires ch.invocations[k].state.ClaimedRow?
    ensures NothingOpen(StoreOutcome(ch, k, row).value)
  {
    hide RecordSound, RowFits, Receipts, Evidence, Budget, Allowance.Valid, ResultInsertable;
    SettledIsNotOpen(row);
    var b := StoreOutcome(ch, k, row).value;
    hide SettledState;
    forall j | j in b.invocations
      ensures !b.invocations[j].state.Open()
    {
      if j != k && ch.invocations[j].state.Open() {
        OpenIsLast(ch.record, ch.invocations, j, k);
        OpenIsLast(ch.record, ch.invocations, k, j);
      }
    }
  }

  lemma PlainCloses(h: Host, ch: Chain, identity: Access, c: Command)
    requires Sound(h, ch) && ch.record.run.status.Active() && !c.Start? && !c.Recover?
    requires Plain(ch, identity, c).chain.record.run.status.Terminal()
    ensures NothingOpen(Plain(ch, identity, c).chain) <==>
      !(c.BeginRun? || c.StopRun? || (c.SettleStopped? && !NothingOpen(ch)))
  {
    hide RecordSound, RowsSound, Precheck, Apply, MarkStopped, NothingOpen;
    assert ch.record.run.lookup by { LookupRun(ch.record); }
    PlainSealers(ch.record, c);
    if c.InterruptActive? {
      MarkedIsClosed(ch, Apply(ch.record, c).record);
    } else if c.BeginRun? || c.StopRun? {
      QueuedIsOpen(h, ch, Plain(ch, identity, c).chain);
    } else {
      if NothingOpen(ch) { SameRowsClosed(ch, Plain(ch, identity, c).chain); }
      if NothingOpen(Plain(ch, identity, c).chain) { SameRowsClosed(Plain(ch, identity, c).chain, ch); }
    }
  }

  lemma LookupRun(r: Record)
    requires RecordSound(r)
    ensures r.run.lookup
  {
    hide Good;
  }

  /** The run commands that can seal a lookup run, and from which status. */
  lemma PlainSealers(r: Record, c: Command)
    requires r.run.lookup && r.run.status.Active() && !c.Start? && !c.Recover?
    requires Apply(r, c).record.run.status.Terminal()
    ensures ((c.BeginRun? || c.StopRun?) && r.run.status == Queued)
         || c.SettleStopped? || (c.InterruptActive? && Apply(r, c).error.None?)
  {
    hide Utf8Len, CheckId, Insertable, BoundedNote, FinalOutputError, FindEvent, SettlementError, Trim, FailureText,
      WithNote;
  }

  lemma QueuedIsOpen(h: Host, ch: Chain, b: Chain)
    requires Sound(h, ch) && ch.record.run.status == Queued && b.invocations == ch.invocations
    ensures !NothingOpen(b)
  {
    hide RecordSound, RowFits, Receipts, Evidence, Budget;
    assert 0 in ch.invocations;
  }

  /** The failing case: a queued lookup run that the author stops is sealed, and its root
      invocation is still prepared. */
  lemma QueuedStopLeavesRoot(h: Host, ch: Chain, identity: Access, c: Command)
    requires Sound(h, ch) && ch.record.run.status == Queued && c.StopRun? && Precheck(identity, c).None?
    ensures var reply := Plain(ch, identity, c);
            && reply.refusal.None? && reply.chain.record.run.status == Stopped
            && 0 in reply.chain.invocations && reply.chain.invocations[0].state.PreparedRow?
  {
    hide RowsSound, Progress, Precheck, Good;
    StopsQueued(ch.record, c);
    PreparedRoot(h, ch);
  }

  lemma StopsQueued(r: Record, c: Command)
    requires RecordSound(r) && r.run.status == Queued && c.StopRun?
    ensures Apply(r, c).error.None? && Apply(r, c).record.run.status == Stopped
  {
    hide CheckId, BoundedNote, TerminalShape, ResultShape, Utf8Len;
    assert r.events == [] && r.run.sequence == 0;
    ShortTextsAreBounded(STOP_SETTLED_MESSAGE);
    SystemIdChecks(STOP_PREFIX, r.run.owner.runId);
  }

  lemma PreparedRoot(h: Host, ch: Chain)
    requires Sound(h, ch) && ch.record.run.status == Queued
    ensures 0 in ch.invocations && ch.invocations[0].state.PreparedRow?
  {
    hide RecordSound, RowFits, Receipts, Evidence, Budget;
  }

  // ----- A root answer that loses the race with a stop -----

  lemma RootHasNoResults(h: Host, ch: Chain)
    requires Sound(h, ch) && 0 in ch.invocations && ch.invocations[0].state.ClaimedRow?
    ensures ch.results == map[]
  {
    hide RecordSound, RowFits, ReceiptFits, Evidence, Budget, Progress, Allowance.Valid;
    forall k | k in ch.results ensures false {
      OpenIsLast(ch.record, ch.invocations, 0, k);
    }
  }

  /** The failing case the stop race leaves: the author stops the run while its first
      call is out, the call then answers, the settlement is committed, and the project
      no longer passes its own audit, because the stop message names the root packet. */
  lemma RootAnswerAfterStopFailsAudit(h: Host, ch: Chain, q: LookupReport)
    requires Sound(h, ch) && ch.record.run.status == Stopping
    requires 0 in ch.invocations && ch.invocations[0].state.ClaimedRow?
    requires LookupShapeError(q).None? && q.binding == ch.invocations[0].packet.binding
    requires q.confirmedStdinBytes == ch.invocations[0].packet.inputBytes
    requires var answer := Response(h, ch.invocations[0].packet, q);
             answer.Ok? && answer.value.Discussion? && Utf8Len(q.text) <= MAX_LOOKUP_ENVELOPE_BYTES
    ensures Settle(h, ch, 0, q).refusal.None? && !AuditChain(h, Settle(h, ch, 0, q).chain)
  {
    hide RecordSound, RowsSound, Progress, AuditChain, SealChain, LookupShapeError, ProviderBytesError, Response,
      BoundedNote,
      CheckId, ResultBounded, Utf8Len;
    ReservationCoversReport(h, ch, 0, q);
    RootHasNoResults(h, ch);
    var row := RowOf(h, ch, 0, q);
    var stored := StoreOutcome(ch, 0, row).value;
    StoredRecord(ch, 0, row);
    ShapedId(q);
    ShortTextsAreBounded(StopNote(q.cleanup));
    var reason := if q.cleanup == Unresolved then "stop_cleanup_unresolved" else "author_stopped";
    SealChainSucceedsIff(h, stored, StopStatus(q.cleanup), reason, q.eventId, StopNote(q.cleanup));
    SealedStatus(stored, StopStatus(q.cleanup), reason, q.eventId, StopNote(q.cleanup));
    SettleSealAudit(h, ch, 0, q);
  }

  // ----- A settlement that stores too much -----

  /** A report of the root that is no envelope is settled whenever its shape, its bytes and its
      failure note are in bounds; the project then fails its own audit when the stored text is
      over-long or the stored error is not sanitized. */
  lemma StoredTextsFailAudit(h: Host, ch: Chain, q: LookupReport)
    requires Sound(h, ch) && ch.record.run.status == Running && 0 in ch.invocations
    requires ch.invocations[0].state.ClaimedRow?
    requires LookupShapeError(q).None? && q.binding == ch.invocations[0].packet.binding
    requires ProviderBytesError(ch, ch.invocations[0].packet, q).None?
    requires Response(h, ch.invocations[0].packet, q).Err? && BoundedNote(FailureNote(RowOf(h, ch, 0, q), q))
    requires OverlongText(q) || UnsanitizedError(h, ch.invocations[0].packet, q)
    ensures Settle(h, ch, 0, q).refusal.None? && !AuditChain(h, Settle(h, ch, 0, q).chain)
  {
    hide RecordSound, RowsSound, Progress, AuditChain, SealChain, LookupShapeError, ProviderBytesError, Response,
      BoundedNote,
      CheckId, ResultBounded, Utf8Len, FailureNote, OverlongText, UnsanitizedError;
    RootHasNoResults(h, ch);
    var row := RowOf(h, ch, 0, q);
    var stored := StoreOutcome(ch, 0, row).value;
    StoredRecord(ch, 0, row);
    ShapedId(q);
    var status, reason, note := FailureStatus(q.status, q.cleanup), FailureReason(q.status, q.cleanup),
      FailureNote(row, q);
    SealChainSucceedsIff(h, stored, status, reason, q.eventId, note);
    SealedStatus(stored, status, reason, q.eventId, note);
    SettleSealAudit(h, ch, 0, q);
  }

  /** The failing case of an over-long text: a failed call without a provider binding, whose own
      output limit is higher than the auditor's 64 KiB. */
  lemma OverlongTextFailsAudit(h: Host, ch: Chain, q: LookupReport)
    requires Sound(h, ch) && ch.record.run.status == Running && 0 in ch.invocations
    requires ch.invocations[0].state.ClaimedRow?
    requires LookupShapeError(q).None? && q.binding == ch.invocations[0].packet.binding
    requires q.status == ProviderFailed && q.error.None? && q.confirmedStdinBytes <= ch.invocations[0].packet.inputBytes
    requires MAX_LOOKUP_ENVELOPE_BYTES < Utf8Len(q.text) <= PacketOutputLimit(ch.invocations[0].packet)
    requires Utf8Len(q.text) <= ch.invocations[0].packet.allowance.OutputLimit()
    ensures Settle(h, ch, 0, q).refusal.None? && !AuditChain(h, Settle(h, ch, 0, q).chain)
  {
    hide Sound, AuditChain, LookupShapeError, BoundedNote, Utf8Len, Settle, PacketOutputLimit, FailureNote;
    RootHasNoResults(h, ch);
    RootInputFits(h, ch);
    FailedNoteIsBounded(h, ch, q);
    StoredTextsFailAudit(h, ch, q);
  }

  lemma FailedNoteIsBounded(h: Host, ch: Chain, q: LookupReport)
    requires 0 in ch.invocations && q.status == ProviderFailed && q.error.None?
    ensures BoundedNote(FailureNote(RowOf(h, ch, 0, q), q))
  {
    ShortTextsAreBounded(FailureReason(q.status, q.cleanup));
  }

  lemma RootInputFits(h: Host, ch: Chain)
    requires Sound(h, ch) && 0 in ch.invocations && ch.invocations[0].state.ClaimedRow?
    ensures TotalInput(ch.results)
      + ch.invocations[0].packet.inputBytes <= ch.invocations[0].packet.allowance.InputLimit()
  {
    hide RecordSound, Receipts, Evidence, Progress, Utf8Len, TotalInput, TotalOutput, RowFits, Allowance.InputLimit,
      Allowance.OutputLimit, Allowance.Valid;
    RootAllowance(ch, 0);
  }

  /** The failing case of an unsanitized error: a completed call whose text is no envelope, and
      whose decoding error quotes a control character or runs too long. */
  lemma UnsanitizedDetailFailsAudit(h: Host, ch: Chain, q: LookupReport, detail: string)
    requires Sound(h, ch) && ch.record.run.status == Running && 0 in ch.invocations
    requires ch.invocations[0].state.ClaimedRow?
    requires LookupShapeError(q).None? && q.binding == ch.invocations[0].packet.binding
    requires q.status == ProviderCompleted && q.confirmedStdinBytes == ch.invocations[0].packet.inputBytes
    requires Utf8Len(q.text) <= MAX_LOOKUP_ENVELOPE_BYTES
    requires ParseResponse(h, q.text) == Err(detail) && !Sanitized(detail) && BoundedNote(detail)
    ensures Settle(h, ch, 0, q).refusal.None? && !AuditChain(h, Settle(h, ch, 0, q).chain)
  {
    ReservationCoversReport(h, ch, 0, q);
    hide Sound, AuditChain, BoundedNote, Utf8Len, Settle, ParseResponse, ProviderBytesError, CheckId, PrintableText,
      Sanitized;
    StoredTextsFailAudit(h, ch, q);
  }

  /** The failing case of the plain stop settlement: its text, mostly the empty one, becomes the
      event and the output, the assistant message closes with the stock note, and the auditor
      expects the event's text there. */
  lemma PlainStopTextFailsAudit(h: Host, ch: Chain, identity: Access, c: Command)
    requires Sound(h, ch) && ch.record.run.status == Stopping && c.SettleStopped? && Precheck(identity, c).None?
    requires Expected(c.expectedSequence) == 0 && c.assistantText != StopNote(c.cleanup)
    requires FinalOutputError("", c.assistantText, true).None?
    ensures Plain(ch, identity, c).refusal.None? && !AuditChain(h, Plain(ch, identity, c).chain)
  {
    hide Sound, AuditChain, Precheck, Apply, FinalOutputError, MarkStopped;
    StopSettles(h, ch, c);
    PlainSealAudit(h, ch, identity, c);
  }

  lemma StopSettles(h: Host, ch: Chain, c: Command)
    requires Sound(h, ch) && ch.record.run.status == Stopping && c.SettleStopped?
    requires Expected(c.expectedSequence) == 0 && FinalOutputError("", c.assistantText, true).None?
    ensures Apply(ch.record, c).error.None? && Apply(ch.record, c).record.run.status == StopStatus(c.cleanup)
  {
    hide RowsSound, Progress, Utf8Len, FinalOutputError, ParseVersion, ResultShape, WithNote;
    assert RecordSound(ch.record);
    assert ch.record.events == [] && ch.record.run.sequence == 0 && ch.record.run.outputText == "";
  }

  lemma ShapedId(q: LookupReport)
    requires LookupShapeError(q).None?
    ensures CheckId(q.eventId)
  {
  }

  lemma SealedStatus(ch: Chain, status: Status, reason: string, eventId: string, note: string)
    requires SealChain(ch, status, reason, eventId, note).refusal.None?
    ensures SealChain(ch, status, reason, eventId, note).chain.record.run.status == status
  {
    hide MarkStopped, Insertable, BoundedNote, CheckId;
  }
}
