/** The lookup auditor executes every saved read again on its frozen story and compares. */
module LookupReplay {
  import opened Wrappers
  import opened Decimals
  import opened RunVocabulary
  import opened RunCommands
  import opened RunStore
  import opened LookupChain
  import opened LookupInvariants

  /** Executing a read on the frozen story, which saved results say that it was unavailable, and
      which of those are bounded printable texts. */
  datatype Executor = Executor(run: LookupRead -> Answer, unavailable: string -> bool, bounded: string -> bool)

  /** An unavailable story read is taken as it is when bounded and not truncated; every other
      saved answer must be what execution gives. */
  predicate Reproduced(e: Executor, request: LookupRead, answer: Answer) {
    if e.unavailable(answer.result) && !request.memory then e.bounded(answer.result) && !answer.truncated
    else answer == e.run(request)
  }

  predicate AuditReplay(e: Executor, ch: Chain) {
    forall id :: id in ch.saved ==> Reproduced(e, ch.saved[id].request, ch.saved[id].answer)
  }

  /** The step is an expansion that was committed. */
  ghost predicate Expands(h: Host, ch: Chain, c: RunChainCommand) {
    && c.AdvanceLookup? && c.ordinal in ch.invocations
    && c.ordinal + 1 !in ch.invocations && c.ordinal + 1 in ChainStep(h, ch, c).chain.invocations
  }

  /** A committed expansion stored an answer that cannot be reproduced. */
  ghost predicate Irreproducible(e: Executor, h: Host, ch: Chain, c: RunChainCommand) {
    Expands(h, ch, c)
    && exists i :: 0 <= i < |RequestsOf(ch.results, c.ordinal)|
                   && !Reproduced(e, RequestsOf(ch.results, c.ordinal)[i],
                                  c.answer(RequestsOf(ch.results, c.ordinal)[i]))
  }

  // ----- One step -----

  lemma ExpandStoresRound(h: Host, ch: Chain, k: nat, answer: LookupRead -> Answer, compiled: Option<Compiled>)
    requires Sound(h, ch) && k in ch.invocations
    requires Expand(h, ch, k, answer, compiled).refusal.None?
    ensures k + 1 !in ch.invocations && k + 1 in Expand(h, ch, k, answer, compiled).chain.invocations
    ensures RoundStored(ch.saved, Expand(h, ch, k, answer, compiled).chain.saved, k, RequestsOf(ch.results, k), answer)
  {
    hide RecordSound, Rows, Receipts, Evidence, Budget, Progress, EvidenceAccepted, AuthorizedRead, StoreReads,
      RequestsOf, PacketIdUnused, Answered, ReadExchanges, RoundStored, FreshIds, DistinctExchanges;
    var b := Expand(h, ch, k, answer, compiled).chain;
    var requests := RequestsOf(ch.results, k);
    if k > 0 { EarlierExchanges(h, ch, k); }
    AcceptedFacts(h, b.invocations[k + 1].packet);
    AcceptedIdsFresh(h, ch.record, ch.invocations, ch.results, ch.saved, k, requests, answer,
      if k == 0 then [] else ch.invocations[k].packet.exchanges);
    StoreReadsFresh(ch.saved, k, requests, answer);
  }

  lemma ExpandRefused(h: Host, ch: Chain, k: nat, answer: LookupRead -> Answer, compiled: Option<Compiled>)
    requires k in ch.invocations && Expand(h, ch, k, answer, compiled).refusal.Some?
    ensures Expand(h, ch, k, answer, compiled).chain == ch
  {
    hide EvidenceAccepted, AuthorizedRead, StoreReads, RequestsOf, PacketIdUnused, Answered, ReadExchanges;
  }

  lemma SealKeepsReads(ch: Chain, status: Status, reason: string, eventId: string, note: string)
    ensures SealChain(ch, status, reason, eventId, note).chain.saved == ch.saved
    ensures SealChain(ch, status, reason, eventId, note).chain.invocations.Keys == ch.invocations.Keys
  {
    hide RunCommands.SealRun;
  }

  lemma SettleKeepsReads(h: Host, ch: Chain, ordinal: nat, q: LookupReport)
    ensures Settle(h, ch, ordinal, q).chain.saved == ch.saved
  {
    hide LookupShapeError, ResultMatches, ProviderBytesError, Response, ResultInsertable, RunCommands.SealRun,
      Terminate, MarkStopped, FailureNote, FailureReason;
  }

  lemma OtherStepsKeepReads(h: Host, ch: Chain, c: RunChainCommand)
    requires !c.AdvanceLookup?
    ensures ChainStep(h, ch, c).chain.saved == ch.saved
  {
    hide ClaimRow, Settle, SealChain, DecimalText, Apply, Precheck, MarkStopped;
    match c
    case ClaimInvocation(ordinal, sourceEpoch, policyEpoch) =>
      if ordinal in ch.invocations { ClaimRowKeepsReads(ch, ordinal); }
      SealKeepsReads(ch, Failed, "context_stale",
        "lookup-stale-" + ch.record.run.owner.runId + "-" + DecimalText(ordinal), STALE_LOOKUP_MESSAGE);
    case SettleInvocation(ordinal, q) => SettleKeepsReads(h, ch, ordinal, q);
    case HaltLookup(reason) =>
      SealKeepsReads(ch, Interrupted, "lookup_halted", "lookup-halt-" + DecimalText(ch.record.run.sequence), reason);
    case ReopenProject =>
      SealKeepsReads(ch, Interrupted, "project_reopened", INTERRUPTED_PREFIX + ch.record.run.owner.runId,
                     REOPENED_MESSAGE);
    case RunCommand(identity, command) =>
  }

  lemma ClaimRowKeepsReads(ch: Chain, ordinal: nat)
    requires ordinal in ch.invocations
    ensures ClaimRow(ch, ordinal).chain.saved == ch.saved
  {
  }

  /** What an advance does to the saved reads: a committed expansion adds its round, and
      nothing else adds any. */
  lemma AdvanceReads(h: Host, ch: Chain, c: RunChainCommand)
    requires Sound(h, ch) && c.AdvanceLookup?
    ensures var b := ChainStep(h, ch, c).chain;
            if Expands(h, ch, c)
               then RoundStored(ch.saved, b.saved, c.ordinal, RequestsOf(ch.results, c.ordinal), c.answer)
            else b.saved == ch.saved
  {
    hide Sound, Expand, SealChain, DecimalText, RoundStored, RequestsOf;
    var k := c.ordinal;
    SealKeepsReads(ch, Failed, "lookup_limit", "lookup-limit-" + DecimalText(k), LIMIT_MESSAGE);
    SealKeepsReads(ch, Failed, "context_stale", "lookup-stale-" + DecimalText(k), STALE_EXPANSION_MESSAGE);
    if k in ch.invocations {
      if Expand(h, ch, k, c.answer, c.compiled).refusal.None? {
        ExpandStoresRound(h, ch, k, c.answer, c.compiled);
      } else {
        ExpandRefused(h, ch, k, c.answer, c.compiled);
      }
    }
  }

  lemma RoundReproduced(e: Executor, saved: map<string, ReadRow>, b: map<string, ReadRow>, ordinal: nat,
                        requests: seq<LookupRead>, answer: LookupRead -> Answer)
    requires RoundStored(saved, b, ordinal, requests, answer)
    ensures (forall id :: id in b ==> Reproduced(e, b[id].request, b[id].answer)) <==>
      && (forall id :: id in saved ==> Reproduced(e, saved[id].request, saved[id].answer))
      && (forall i :: 0 <= i < |requests| ==> Reproduced(e, requests[i], answer(requests[i])))
  {
    hide Reproduced;
    assert forall id :: id in saved ==> id in b && b[id] == saved[id];
    forall id | id in b && id !in saved
      ensures exists i :: 0 <= i < |requests| && b[id] == ReadRow(ordinal, requests[i], answer(requests[i]))
    {
      assert HasId(requests, id);
    }
  }

  /** A step leaves reproducible reads exactly when they were and it stores no other answer. */
  lemma StepReplay(e: Executor, h: Host, ch: Chain, c: RunChainCommand)
    requires Sound(h, ch)
    ensures AuditReplay(e, ChainStep(h, ch, c).chain) <==> AuditReplay(e, ch) && !Irreproducible(e, h, ch, c)
  {
    hide Sound, ChainStep, RoundStored, RequestsOf, Reproduced;
    if c.AdvanceLookup? {
      AdvanceReads(h, ch, c);
      if Expands(h, ch, c) {
        RoundReproduced(e, ch.saved, ChainStep(h, ch, c).chain.saved, c.ordinal, RequestsOf(ch.results, c.ordinal),
                        c.answer);
      }
    } else {
      OtherStepsKeepReads(h, ch, c);
    }
  }

  // ----- Whole histories -----

  ghost predicate EveryRoundReproducible(e: Executor, h: Host, ch: Chain, commands: seq<RunChainCommand>)
    decreases |commands|
  {
    commands == []
    || (!Irreproducible(e, h, ch, commands[0])
        && EveryRoundReproducible(e, h, ChainStep(h, ch, commands[0]).chain, commands[1..]))
  }

  /** After any commands the saved reads pass their re-execution exactly when every committed
      expansion stored answers that execution, or the bounds on an unavailable one, repeat. */
  lemma {:induction false} ReachableReplay(e: Executor, h: Host, ch: Chain, commands: seq<RunChainCommand>)
    requires Sound(h, ch)
    ensures AuditReplay(e, RunChain(h, ch, commands))
       <==> AuditReplay(e, ch) && EveryRoundReproducible(e, h, ch, commands)
    decreases |commands|
  {
    hide Sound, ChainStep, AuditReplay, Irreproducible;
    if commands != [] {
      var next := ChainStep(h, ch, commands[0]).chain;
      ChainStepKeeps(h, ch, commands[0]);
      StepReplay(e, h, ch, commands[0]);
      ReachableReplay(e, h, next, commands[1..]);
    }
  }

  /** The host answers each read with the executor's own answer, whose unavailable answers are
      bounded and not truncated. */
  ghost predicate Honest(e: Executor, commands: seq<RunChainCommand>) {
    && (forall read: LookupRead :: e.unavailable(e.run(read).result) ==>
          e.bounded(e.run(read).result) && !e.run(read).truncated)
    && forall j, read: LookupRead :: 0 <= j < |commands| && commands[j].AdvanceLookup? ==>
         commands[j].answer(read) == e.run(read)
  }

  lemma HonestStep(e: Executor, h: Host, ch: Chain, commands: seq<RunChainCommand>)
    requires Honest(e, commands) && commands != []
    ensures !Irreproducible(e, h, ch, commands[0]) && Honest(e, commands[1..])
  {
    hide ChainStep, RequestsOf;
    if commands[0].AdvanceLookup? {
      forall read: LookupRead
        ensures Reproduced(e, read, commands[0].answer(read))
      {
        assert commands[0].answer(read) == e.run(read);
      }
    }
    forall j, read: LookupRead | 0 <= j < |commands[1..]| && commands[1..][j].AdvanceLookup?
      ensures commands[1..][j].answer(read) == e.run(read)
    {
      assert commands[1..][j] == commands[j + 1];
    }
  }

  /** So the reads a host executed itself on the frozen story always pass. */
  lemma {:induction false} ExecutedReadsReplay(e: Executor, h: Host, ch: Chain, commands: seq<RunChainCommand>)
    requires Sound(h, ch) && AuditReplay(e, ch) && Honest(e, commands)
    ensures AuditReplay(e, RunChain(h, ch, commands))
    decreases |commands|
  {
    hide Sound, ChainStep, AuditReplay, Irreproducible, Honest;
    if commands != [] {
      HonestStep(e, h, ch, commands);
      ChainStepKeeps(h, ch, commands[0]);
      StepReplay(e, h, ch, commands[0]);
      ExecutedReadsReplay(e, h, ChainStep(h, ch, commands[0]).chain, commands[1..]);
    }
  }
}
