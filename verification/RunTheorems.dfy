/** Safety of the durable run over whole histories: lost acknowledgements, reused
    event ids, single dispatch, recovery, and the auditor's verdict. */
module RunTheorems {
  import opened Wrappers
  import opened Decimals
  import opened Text
  import opened RunVocabulary
  import opened RunCommands
  import opened RunInvariants
  import opened RunStore

  // ----- Acknowledged requests -----

  predicate Replayable(c: Command) {
    c.AppendOutput? || c.FinishRun? || c.FailRun? || c.SettleStopped? || c.SettleReport?
  }

  function EventIdOf(c: Command): string
    requires Replayable(c)
  {
    if c.SettleReport? then c.report.eventId else c.eventId
  }

  predicate Stores(r: Record, id: string, kind: EventKind, text: string, expected: nat) {
    exists i :: 0 <= i < |r.events| && r.events[i].eventId == id && SameEvent(r.events[i], kind, text, expected)
  }

  /** The effect this very request asked for is already stored. */
  ghost predicate Acknowledged(r: Record, c: Command)
    requires Replayable(c)
  {
    match c
    case AppendOutput(_, expected, id, chunk) =>
      !r.run.lookup && Stores(r, id, ChunkEvent, chunk, Expected(expected))
    case FinishRun(_, expected, id, text) =>
      !r.run.lookup && r.run.packet.binding.None? && r.run.status == Completed
      && Stores(r, id, TerminalEvent, text, Expected(expected))
    case FailRun(_, expected, id, reason) =>
      !r.run.lookup && r.run.status == Failed
        && Stores(r, id, TerminalEvent, FailureText(Trim(reason)), Expected(expected))
    case SettleStopped(_, expected, id, text, cleanup) =>
      r.run.status == StopStatus(cleanup) && r.run.outputText == text
      && Stores(r, id, TerminalEvent, text, Expected(expected))
    case SettleReport(_, expected, q) =>
      !r.run.lookup && r.result == Some(Saved(q, Expected(expected)))
  }

  lemma StoresMeansFound(r: Record, id: string, kind: EventKind, text: string, expected: nat)
    requires Good(r)
    ensures Stores(r, id, kind, text, expected)
       <==> FindEvent(r.events, id).Some? && SameEvent(FindEvent(r.events, id).value, kind, text, expected)
  {
    if Stores(r, id, kind, text, expected) {
      var i :| 0 <= i < |r.events| && r.events[i].eventId == id && SameEvent(r.events[i], kind, text, expected);
      FindEventExact(r.events, r.run.sequence, i);
    }
    if FindEvent(r.events, id).Some? {
      assert FindEvent(r.events, id).value in r.events;
    }
  }

  lemma LastEventStored(r: Record, e: Event, b: Record)
    requires b.events == r.events + [e] && e.sequence > 0
    ensures Stores(b, e.eventId, e.kind, e.chunk, e.sequence - 1)
  {
    assert b.events[|r.events|] == e;
  }

  lemma LandedOrFound(r: Record, reply: Reply, id: string, kind: EventKind, text: string, expected: nat)
    requires Good(r)
    requires FindEvent(r.events, id).Some? ==>
      SameEvent(FindEvent(r.events, id).value, kind, text, expected) && reply.record == r
    requires FindEvent(r.events, id).None? ==>
      expected == r.run.sequence && reply.record.events == r.events + [Event(r.run.sequence + 1, id, kind, text)]
    ensures Stores(reply.record, id, kind, text, expected)
  {
    hide Good;
    if FindEvent(r.events, id).Some? {
      StoresMeansFound(r, id, kind, text, expected);
    } else {
      LastEventStored(r, Event(r.run.sequence + 1, id, kind, text), reply.record);
    }
  }

  /** A successful request leaves its own acknowledgement behind. */
  lemma SuccessIsStored(r: Record, c: Command)
    requires Good(r) && Replayable(c) && Apply(r, c).error.None?
    ensures Acknowledged(Apply(r, c).record, c)
  {
    hide Good, Stores, DeliveryMatches, FinalOutputError, SettlementError, Insertable, Utf8Len, StartedError,
      BoundedNote,
      CheckId, WithNote, Trim, FailureText, SettledStatus, SettledNote, SettledReason, StopNote;
    match c
    case AppendOutput(_, expected, id, chunk) =>
      LandedOrFound(r, Apply(r, c), id, ChunkEvent, chunk, Expected(expected));
    case FinishRun(_, expected, id, text) =>
      LandedOrFound(r, Apply(r, c), id, TerminalEvent, text, Expected(expected));
    case FailRun(_, expected, id, reason) =>
      LandedOrFound(r, Apply(r, c), id, TerminalEvent, FailureText(Trim(reason)), Expected(expected));
    case SettleStopped(_, expected, id, text, cleanup) =>
      LandedOrFound(r, Apply(r, c), id, TerminalEvent, text, Expected(expected));
    case SettleReport(_, expected, q) =>
  }

  lemma AcknowledgementSurvives(a: Record, b: Record, c: Command)
    requires Replayable(c) && Good(a) && Acknowledged(a, c) && Evolves(a, b)
    ensures Acknowledged(b, c)
  {
    if c.AppendOutput? {
      var i :| 0 <= i < |a.events| && a.events[i].eventId == c.eventId
        && SameEvent(a.events[i], ChunkEvent, c.chunk, Expected(c.expectedSequence));
      assert b.events[i] == a.events[i];
    } else {
      assert a.run.status.Terminal();
    }
  }

  /** For a request whose event id is already stored, the answer is fixed: the run is
      unchanged, and the request succeeds exactly when it is the acknowledged one. */
  lemma StoredEventIdAnswers(r: Record, c: Command)
    requires Good(r) && Replayable(c) && FindEvent(r.events, EventIdOf(c)).Some?
    ensures Apply(r, c).record == r
    ensures Apply(r, c).error.None? <==> Acknowledged(r, c)
  {
    if c.SettleReport? {
      ReportAnswers(r, c);
    } else {
      EventAnswers(r, c);
    }
  }

  lemma EventAnswers(r: Record, c: Command)
    requires Good(r) && Replayable(c) && !c.SettleReport? && FindEvent(r.events, EventIdOf(c)).Some?
    ensures Apply(r, c).record == r
    ensures Apply(r, c).error.None? <==> Acknowledged(r, c)
  {
    hide Good, Stores, FinalOutputError, Terminate, SealRun, Insertable, SettleProvider, Utf8Len;
    match c
    case AppendOutput(_, expected, id, chunk) => StoresMeansFound(r, id, ChunkEvent, chunk, Expected(expected));
    case FinishRun(_, expected, id, text) => StoresMeansFound(r, id, TerminalEvent, text, Expected(expected));
    case FailRun(_, expected, id, reason) =>
      StoresMeansFound(r, id, TerminalEvent, FailureText(Trim(reason)), Expected(expected));
    case SettleStopped(_, expected, id, text, _) => StoresMeansFound(r, id, TerminalEvent, text, Expected(expected));
  }

  lemma ReportAnswers(r: Record, c: Command)
    requires Good(r) && c.SettleReport? && FindEvent(r.events, EventIdOf(c)).Some?
    ensures Apply(r, c).record == r
    ensures Apply(r, c).error.None? <==> Acknowledged(r, c)
  {
    hide Good, FinalOutputError, DeliveryMatches, Terminate, Append, Finish, Fail, SettleStop, Utf8Len;
    assert r.result.None? ==> SettlementError(r, c.report, Expected(c.expectedSequence)).Some?;
  }

  lemma AcknowledgedIdIsStored(r: Record, c: Command)
    requires Good(r) && Replayable(c) && Acknowledged(r, c)
    ensures FindEvent(r.events, EventIdOf(c)).Some?
  {
    if c.SettleReport? {
      FindEventExact(r.events, r.run.sequence, |r.events| - 1);
    } else {
      var i :| 0 <= i < |r.events| && r.events[i].eventId == EventIdOf(c);
      FindEventExact(r.events, r.run.sequence, i);
    }
  }

  /** Lost-acknowledgement safety: once a request succeeded, re-sending it after any
      further commands succeeds again and changes nothing. */
  lemma LostAcknowledgement(s: Store, c: Command, between: seq<Command>)
    requires Inv(s) && Replayable(c) && Step(s, c).error.None?
    ensures var later := Run(Step(s, c).store, between);
            Step(later, c) == Outcome(later, None)
  {
    var next := Step(s, c).store;
    var later := Run(next, between);
    StepKeeps(s, c);
    EveryRunKeeps(next, between);
    RunStepAcknowledges(s, c);
    AcknowledgedStepIsIdentity(s, next, later, c);
  }

  lemma RunStepAcknowledges(s: Store, c: Command)
    requires Inv(s) && Replayable(c) && Step(s, c).error.None?
    ensures Precheck(s.identity, c).None? && RunIdOf(c) in s.runs && Owns(s.runs[RunIdOf(c)], c)
    ensures RunIdOf(c) in Step(s, c).store.runs && Acknowledged(Step(s, c).store.runs[RunIdOf(c)], c)
  {
    hide Good, Precheck, Apply, Acknowledged, OperationsUnique, Indexed;
    SuccessIsStored(s.runs[RunIdOf(c)], c);
  }

  lemma AcknowledgedStepIsIdentity(s: Store, next: Store, later: Store, c: Command)
    requires Replayable(c) && Precheck(s.identity, c).None? && Inv(next) && Inv(later)
    requires s.identity == next.identity && StoreEvolves(next, later)
    requires RunIdOf(c) in next.runs && Acknowledged(next.runs[RunIdOf(c)], c)
    requires RunIdOf(c) in s.runs && Owns(s.runs[RunIdOf(c)], c) && Evolves(s.runs[RunIdOf(c)], next.runs[RunIdOf(c)])
    ensures Step(later, c) == Outcome(later, None)
  {
    hide Good, Precheck, Apply, Acknowledged, OperationsUnique, Indexed;
    var id := RunIdOf(c);
    var a, b := next.runs[id], later.runs[id];
    OwnershipSurvives(s.runs[id], a, b, c);
    AcknowledgementSurvives(a, b, c);
    AcknowledgedIdIsStored(b, c);
    StoredEventIdAnswers(b, c);
    assert later.runs[id := b] == later.runs;
  }

  lemma OwnershipSurvives(r: Record, a: Record, b: Record, c: Command)
    requires Replayable(c) && Owns(r, c) && Evolves(r, a) && Evolves(a, b)
    ensures Owns(b, c)
  {
  }

  /** A stored event id never changes the store again: re-use with another kind, text
      or sequence is refused, and only the acknowledged request succeeds. */
  lemma StoredEventIdIsFinal(s: Store, c: Command)
    requires Inv(s) && Replayable(c) && RunIdOf(c) in s.runs
    requires FindEvent(s.runs[RunIdOf(c)].events, EventIdOf(c)).Some?
    ensures Step(s, c).store == s
    ensures Step(s, c).error.None?
       <==> Precheck(s.identity, c).None? && Owns(s.runs[RunIdOf(c)], c) && Acknowledged(s.runs[RunIdOf(c)], c)
  {
    hide Good, Precheck, Apply, Acknowledged, OperationsUnique, Indexed;
    StoredEventIdAnswers(s.runs[RunIdOf(c)], c);
    assert s.runs[RunIdOf(c) := s.runs[RunIdOf(c)]] == s.runs;
  }

  /** The same start operation never creates a second run: with the same payload it
      succeeds and changes nothing, with another payload it is refused, at any later time. */
  lemma StartIsOnce(s: Store, c: Command, between: seq<Command>, again: Command)
    requires Inv(s) && c.Start? && Step(s, c).error.None?
    requires again.Start? && again.access == c.access && again.operationId == c.operationId
    ensures var later := Run(Step(s, c).store, between);
            && Step(later, again).store == later
            && (Precheck(later.identity, again).None? ==>
                  Step(later, again).error == if again.payloadHash == c.payloadHash then None
                    else Some(OperationIdReused))
  {
    hide Inv, StoreEvolves, Step, Run, SameOperation;
    var next := Step(s, c).store;
    StepKeeps(s, c);
    EveryRunKeeps(next, between);
    var id := StartedRun(s, c);
    OperationSurvives(next, Run(next, between), id, c.access, c.operationId);
    RepeatedStart(Run(next, between), again, id);
  }

  lemma OperationSurvives(a: Store, b: Store, id: string, access: Access, operationId: string)
    requires StoreEvolves(a, b) && id in a.runs && SameOperation(a.runs[id].run, access, operationId)
    ensures id in b.runs && SameOperation(b.runs[id].run, access, operationId)
    ensures b.runs[id].run.payloadHash == a.runs[id].run.payloadHash
  {
    assert Evolves(a.runs[id], b.runs[id]);
  }

  lemma RepeatedStart(s: Store, again: Command, id: string)
    requires Inv(s) && again.Start? && id in s.runs && SameOperation(s.runs[id].run, again.access, again.operationId)
    ensures Step(s, again).store == s
    ensures Precheck(s.identity, again).None? ==>
      Step(s, again).error
        == if again.payloadHash == s.runs[id].run.payloadHash then None else Some(OperationIdReused)
  {
    hide Inv, Precheck, FindOperation, SameOperation;
    OperationFound(s, again.access, again.operationId, id);
  }

  lemma StartedRun(s: Store, c: Command) returns (id: string)
    requires Inv(s) && c.Start? && Step(s, c).error.None?
    ensures var next := Step(s, c).store;
            id in next.runs && SameOperation(next.runs[id].run, c.access, c.operationId)
            && next.runs[id].run.payloadHash == c.payloadHash
  {
    hide Inv, Precheck;
    var existing := FindOperation(s, c.access, c.operationId, |s.order|);
    id := if existing.Some? then existing.value else c.freshId;
  }

  lemma OperationFound(s: Store, access: Access, operationId: string, id: string)
    requires Inv(s) && id in s.runs && SameOperation(s.runs[id].run, access, operationId)
    ensures FindOperation(s, access, operationId, |s.order|) == Some(id)
  {
    hide Good;
    var found := FindOperation(s, access, operationId, |s.order|);
    if found.None? {
      FindOperationExact(s, access, operationId, |s.order|);
    } else {
      assert SameKey(s.runs[found.value].run, s.runs[id].run);
    }
  }

  /** A run is dispatched at most once. */
  lemma BeginSucceedsOnce(s: Store, owner: Owner, current: bool, between: seq<Command>, currentAgain: bool)
    requires Inv(s) && Step(s, BeginRun(owner, current)).error.None?
    ensures var later := Run(Step(s, BeginRun(owner, current)).store, between);
            Step(later, BeginRun(owner, currentAgain)).error.Some?
            && Step(later, BeginRun(owner, currentAgain)).store == later
  {
    var c := BeginRun(owner, current);
    var next := Step(s, c).store;
    var later := Run(next, between);
    StepKeeps(s, c);
    EveryRunKeeps(next, between);
    BegunRunIsRunning(s, owner, current);
    BegunRunRefuses(next, later, owner, currentAgain);
  }

  lemma BegunRunIsRunning(s: Store, owner: Owner, current: bool)
    requires Step(s, BeginRun(owner, current)).error.None?
    ensures var next := Step(s, BeginRun(owner, current)).store;
            owner.runId in next.runs && next.runs[owner.runId].run.status == Running
  {
    hide SealRun, Precheck;
  }

  lemma BegunRunRefuses(next: Store, later: Store, owner: Owner, current: bool)
    requires StoreEvolves(next, later) && owner.runId in next.runs && next.runs[owner.runId].run.status == Running
    ensures Step(later, BeginRun(owner, current)).error.Some? && Step(later, BeginRun(owner, current)).store == later
  {
    hide Precheck, SealRun;
    assert Evolves(next.runs[owner.runId], later.runs[owner.runId]);
    assert later.runs[owner.runId].run.status != Queued;
    assert later.runs[owner.runId := later.runs[owner.runId]] == later.runs;
  }

  // ----- Recovery -----

  predicate Recoverable(r: Record) {
    r.run.status.Terminal()
    || (FindEvent(r.events, INTERRUPTED_PREFIX + r.run.owner.runId).None? && r.run.sequence < MAX_I64)
  }

  lemma InterruptOrNot(r: Record)
    requires Good(r) && r.run.status.Active()
    ensures Interrupt(r, "project_reopened", REOPENED_MESSAGE).Ok? <==> Recoverable(r)
  {
    ShortTextsAreBounded(REOPENED_MESSAGE);
    InterruptSucceedsIff(r, "project_reopened", REOPENED_MESSAGE);
  }

  lemma {:induction false} RecoveredIff(s: Store, n: nat)
    requires Inv(s) && n <= |s.order|
    ensures Recovered(s, n).Ok? <==> forall i :: 0 <= i < n && s.order[i] in s.runs ==> Recoverable(s.runs[s.order[i]])
  {
    hide Good, Interrupt, Recoverable, OperationsUnique;
    if n > 0 {
      RecoveredIff(s, n - 1);
      var r := s.runs[s.order[n - 1]];
      if r.run.status.Active() {
        InterruptOrNot(r);
      } else {
        TerminalIsRecoverable(r);
      }
    }
  }

  lemma TerminalIsRecoverable(r: Record)
    requires r.run.status.Terminal()
    ensures Recoverable(r)
  {
  }

  lemma RecoverAnswers(s: Store)
    ensures var recovered := Recovered(s, |s.order|);
            Step(s, Recover)
              == if recovered.Ok? then Outcome(s.(runs := recovered.value), None) else Outcome(s, Some(recovered.error))
  {
    hide Recovered;
  }

  lemma EveryRunOrdered(s: Store)
    requires Inv(s)
    ensures forall i :: 0 <= i < |s.order| ==> s.order[i] in s.runs
    ensures forall id :: id in s.runs ==> exists i :: 0 <= i < |s.order| && s.order[i] == id
  {
    hide RunsGood, OperationsUnique;
  }

  /** Reopening seals every active run, in one transaction, exactly when no active run
      has already spent its own system-interrupted id (a client may choose it for a
      chunk) or its last sequence number; otherwise nothing changes at all. */
  lemma RecoverSucceedsIff(s: Store)
    requires Inv(s)
    ensures Step(s, Recover).error.None? <==> forall id :: id in s.runs ==> Recoverable(s.runs[id])
    ensures Step(s, Recover).error.None? ==>
      forall id :: id in s.runs ==>
        id in Step(s, Recover).store.runs && Step(s, Recover).store.runs[id].run.status.Terminal()
    ensures Step(s, Recover).error.Some? ==> Step(s, Recover).store == s
  {
    hide Inv, Recoverable, Recovered, Step, Good, Evolves;
    RecoveredIff(s, |s.order|);
    RecoverAnswers(s);
    EveryRunOrdered(s);
    if Recovered(s, |s.order|).Ok? {
      RecoveredKeeps(s, |s.order|);
    }
  }

  /** A client that streams one chunk under the id recovery will need blocks recovery. */
  lemma ChosenIdBlocksRecovery(s: Store, owner: Owner, expected: string, chunk: string)
    requires Inv(s)
    requires Step(s, AppendOutput(owner, expected, INTERRUPTED_PREFIX + owner.runId, chunk)).error.None?
    requires owner.runId in s.runs && s.runs[owner.runId].run.status == Running
    ensures var next := Step(s, AppendOutput(owner, expected, INTERRUPTED_PREFIX + owner.runId, chunk)).store;
            Step(next, Recover) == Outcome(next, Step(next, Recover).error) && Step(next, Recover).error.Some?
  {
    hide Good, Evolves, Precheck, Acknowledged, OperationsUnique, Indexed, Recovered;
    var c := AppendOutput(owner, expected, INTERRUPTED_PREFIX + owner.runId, chunk);
    var next := Step(s, c).store;
    StepKeeps(s, c);
    RunStepAcknowledges(s, c);
    var r := next.runs[owner.runId];
    AcknowledgedIdIsStored(r, c);
    assert r.run.status == Running by { AppendLeavesRunning(s.runs[owner.runId], c); }
    assert !Recoverable(r);
    RecoverSucceedsIff(next);
  }

  lemma AppendLeavesRunning(r: Record, c: Command)
    requires c.AppendOutput? && r.run.status == Running
    ensures Apply(r, c).record.run.status == Running
  {
  }

  // ----- The auditor -----

  /** The clauses checked for one saved provider result when a project is backed up, restored or
      imported. */
  predicate AuditResult(r: Record, saved: ProviderResult) {
    && r.run.packet.binding == Some(saved.binding)
    && ReceiptBounded(r.run.packet, saved)
    && r.run.status.Terminal() && r.run.outputText == saved.assistantText
    && saved.expectedSequence + 1 == r.run.sequence
    && (var e := FindEvent(r.events, saved.eventId);
        e.Some? && e.value.kind == TerminalEvent && e.value.sequence == r.run.sequence)
    && StatusAllowed(r.run.status, saved)
  }

  predicate AuditRun(r: Record) {
    && (r.result.Some? ==> AuditResult(r, r.result.value))
    && (r.run.status == Completed && r.run.packet.binding.Some? ==> r.result.Some?)
  }

  predicate AuditStore(s: Store) {
    forall id :: id in s.runs ==> AuditRun(s.runs[id])
  }

  /** A run of the invariant fails the receipt auditor exactly when it is a completed live lookup:
      every completed run with a binding must have a provider result, and a lookup run never
      gets one. */
  lemma GoodRunsPassAudit(r: Record)
    requires Good(r)
    ensures AuditRun(r) <==> !(r.run.status == Completed && r.run.lookup && r.run.packet.binding.Some?)
  {
    hide ReceiptBounded;
    if r.result.Some? {
      FindEventExact(r.events, r.run.sequence, |r.events| - 1);
    }
  }

  /** The commands of this module never complete a lookup run. */
  ghost predicate LookupsOpen(s: Store) {
    forall id :: id in s.runs && s.runs[id].run.lookup ==> s.runs[id].run.status != Completed
  }

  lemma ApplyNeverCompletesLookup(r: Record, c: Command)
    requires !c.Start? && !c.Recover? && r.run.lookup && r.run.status != Completed
    ensures Apply(r, c).record.run.status != Completed
  {
  }

  lemma {:induction false} RecoveredNeverCompletes(s: Store, n: nat, id: string)
    requires n <= |s.order| && Recovered(s, n).Ok? && id in s.runs && s.runs[id].run.status != Completed
    ensures id in Recovered(s, n).value && Recovered(s, n).value[id].run.status != Completed
  {
    if n > 0 {
      RecoveredNeverCompletes(s, n - 1, id);
    }
  }

  lemma StepKeepsLookupsOpen(s: Store, c: Command)
    requires Inv(s) && LookupsOpen(s)
    ensures LookupsOpen(Step(s, c).store)
  {
    hide Good, Evolves, Precheck, Apply, Interrupt, OperationsUnique, Indexed;
    StepKeeps(s, c);
    var next := Step(s, c).store;
    forall id | id in next.runs && next.runs[id].run.lookup
      ensures next.runs[id].run.status != Completed
    {
      if c.Recover? && next != s {
        RecoveredKeeps(s, |s.order|);
        RecoveredLookup(s, next, id);
        RecoveredNeverCompletes(s, |s.order|, id);
      } else if !c.Start? && !c.Recover? && id == RunIdOf(c) && next != s {
        StepLookup(s, c, id);
        ApplyNeverCompletesLookup(s.runs[id], c);
      }
    }
  }

  lemma RecoveredLookup(s: Store, next: Store, id: string)
    requires StoreEvolves(s, next) && id in s.runs && next.runs[id].run.lookup
    ensures s.runs[id].run.lookup
  {
  }

  lemma StepLookup(s: Store, c: Command, id: string)
    requires Inv(s) && !c.Start? && !c.Recover? && Step(s, c).store != s && id == RunIdOf(c)
    requires id in Step(s, c).store.runs && Step(s, c).store.runs[id].run.lookup
    ensures id in s.runs && s.runs[id].run.lookup && Step(s, c).store.runs[id] == Apply(s.runs[id], c).record
  {
    StepKeeps(s, c);
    hide Good, Apply, Precheck;
  }

  lemma {:induction false} RunKeepsLookupsOpen(s: Store, commands: seq<Command>)
    requires Inv(s) && LookupsOpen(s)
    ensures LookupsOpen(Run(s, commands))
    decreases |commands|
  {
    if commands != [] {
      StepKeeps(s, commands[0]);
      StepKeepsLookupsOpen(s, commands[0]);
      RunKeepsLookupsOpen(Step(s, commands[0]).store, commands[1..]);
    }
  }

  /** Every store the commands of the run protocol reach passes the receipt auditor. Settling a
      lookup invocation is not among them: see `ProjectAudit.ProjectVerdict`. */
  lemma ReachableStoresPassAudit(identity: Access, commands: seq<Command>)
    ensures AuditStore(Run(Empty(identity), commands))
  {
    var s := Run(Empty(identity), commands);
    ReachableStoresAreGood(identity, commands);
    RunKeepsLookupsOpen(Empty(identity), commands);
    forall id | id in s.runs
      ensures AuditRun(s.runs[id])
    {
      GoodRunsPassAudit(s.runs[id]);
    }
  }
}
