/** The project's runs, the commands that change them, and what holds over every
    sequence of commands. */
module RunStore {
  import opened Wrappers
  import opened Decimals
  import opened Text
  import opened RunVocabulary
  import opened RunCommands
  import opened RunInvariants

  const MAX_INSTRUCTION_BYTES: nat := 64 * 1024

  type NewId = s: string | IsNewId(s) witness "00000000-0000-0000-0000-000000000000"

  datatype Access = Access(projectId: string, operationNamespace: string)

  datatype Store = Store(identity: Access, runs: map<string, Record>, order: seq<string>)

  datatype Command =
    | Start(access: Access, operationId: string, payloadHash: string, instruction: string,
            freshId: NewId, packet: Packet, lookup: bool)
    | BeginRun(owner: Owner, contextCurrent: bool)
    | Deliver(owner: Owner)
    | AppendOutput(owner: Owner, expectedSequence: string, eventId: string, chunk: string)
    | FinishRun(owner: Owner, expectedSequence: string, eventId: string, assistantText: string)
    | FailRun(owner: Owner, expectedSequence: string, eventId: string, reason: string)
    | StopRun(access: Access, runId: string)
    | SettleStopped(owner: Owner, expectedSequence: string, eventId: string, assistantText: string, cleanup: Cleanup)
    | SettleReport(owner: Owner, expectedSequence: string, report: Report)
    | InterruptActive(access: Access, runId: string)
    | Recover

  datatype Outcome = Outcome(store: Store, error: Option<Error>)

  // ----- Checks made before a run is read -----

  function When(cond: bool, e: Error): Option<Error> {
    if cond then Some(e) else None
  }

  function Or(a: Option<Error>, b: Option<Error>): Option<Error> {
    if a.Some? then a else b
  }

  predicate OwnerIds(o: Owner) {
    CheckId(o.projectId) && CheckId(o.operationNamespace) && CheckId(o.runId)
  }

  predicate Foreign(identity: Access, o: Owner) {
    o.projectId != identity.projectId || o.operationNamespace != identity.operationNamespace
  }

  function Unparsed(expected: string): Option<Error> {
    When(ParseVersion(expected).None?, InvalidRequest)
  }

  function Precheck(identity: Access, c: Command): Option<Error> {
    match c
    case BeginRun(o, _) => Or(When(!OwnerIds(o), InvalidRequest), When(Foreign(identity, o), DiscussionProjectMismatch))
    case Deliver(o) => Or(When(!OwnerIds(o), InvalidRequest), When(Foreign(identity, o), DiscussionProjectMismatch))
    case AppendOutput(o, expected, id, chunk) =>
      Or(When(!OwnerIds(o) || !CheckId(id) || !BoundedNote(chunk), InvalidRequest),
      Or(When(Foreign(identity, o), DiscussionProjectMismatch), Unparsed(expected)))
    case FinishRun(o, expected, id, text) =>
      Or(When(!OwnerIds(o) || !CheckId(id) || text == "", InvalidRequest),
      Or(When(Utf8Len(text) > MAX_OUTPUT_BYTES, OutputTooLarge),
      Or(When(Foreign(identity, o), DiscussionProjectMismatch), Unparsed(expected))))
    case FailRun(o, expected, id, reason) =>
      Or(When(!CheckId(o.projectId) || !CheckId(o.operationNamespace), InvalidRequest),
      Or(When(Foreign(identity, o), DiscussionProjectMismatch),
      Or(When(!CheckId(id) || !CheckId(o.runId), InvalidRequest),
      Or(Unparsed(expected),
         When(!BoundedNote(Trim(reason)) || !BoundedNote(FailureText(Trim(reason))), InvalidRequest)))))
    case SettleStopped(o, expected, id, text, _) =>
      Or(When(!OwnerIds(o) || !CheckId(id), InvalidRequest),
      Or(When(Utf8Len(text) > MAX_OUTPUT_BYTES, OutputTooLarge),
      Or(When(Foreign(identity, o), DiscussionProjectMismatch), Unparsed(expected))))
    case SettleReport(o, expected, q) =>
      Or(When(!OwnerIds(o) || !CheckId(q.eventId), InvalidRequest),
      Or(ReportShapeError(q),
      Or(When(Foreign(identity, o), DiscussionProjectMismatch), Unparsed(expected))))
    case StopRun(access, id) => Or(When(access != identity, AccessDenied), When(!CheckId(id), InvalidRequest))
    case InterruptActive(access, id) => Or(When(access != identity, AccessDenied), When(!CheckId(id), InvalidRequest))
    case Start(access, op, _, instruction, _, packet, lookup) =>
      Or(When(access != identity, AccessDenied),
      Or(When(!CheckId(op) || Trim(instruction) == "" || Utf8Len(instruction) > MAX_INSTRUCTION_BYTES, InvalidRequest),
         When(lookup && HttpBound(packet.binding), UnsupportedProviderFeature)))
    case Recover => None
  }

  function RunIdOf(c: Command): string
    requires !c.Start? && !c.Recover?
  {
    if c.StopRun? || c.InterruptActive? then c.runId else c.owner.runId
  }

  /** The persisted owner must be the caller's. */
  predicate Owns(r: Record, c: Command)
    requires !c.Start? && !c.Recover?
  {
    if c.StopRun? || c.InterruptActive? then
      r.run.owner.projectId == c.access.projectId && r.run.owner.operationNamespace == c.access.operationNamespace
    else
      r.run.owner == c.owner
  }

  function Expected(s: string): nat {
    if ParseVersion(s).Some? then ParseVersion(s).value else 0
  }

  function Apply(r: Record, c: Command): Reply
    requires !c.Start? && !c.Recover?
  {
    match c
    case BeginRun(_, current) => Begin(r, current)
    case Deliver(_) => MarkDelivered(r)
    case AppendOutput(_, expected, id, chunk) => Append(r, id, chunk, Expected(expected))
    case FinishRun(_, expected, id, text) => Finish(r, id, text, Expected(expected))
    case FailRun(_, expected, id, reason) => Fail(r, id, Trim(reason), Expected(expected))
    case StopRun(_, _) => Stop(r)
    case SettleStopped(_, expected, id, text, cleanup) => SettleStop(r, id, text, Expected(expected), cleanup)
    case SettleReport(_, expected, q) => SettleProvider(r, q, Expected(expected))
    case InterruptActive(_, _) => InterruptRun(r)
  }

  function RunStep(s: Store, c: Command): Outcome
    requires !c.Start? && !c.Recover?
  {
    var id := RunIdOf(c);
    if id !in s.runs then Outcome(s, Some(DiscussionRunNotFound))
    else if !Owns(s.runs[id], c) then Outcome(s, Some(DiscussionProjectMismatch))
    else
      var reply := Apply(s.runs[id], c);
      Outcome(s.(runs := s.runs[id := reply.record]), reply.error)
  }

  // ----- Start and recovery -----

  predicate SameOperation(row: RunRow, access: Access, operationId: string) {
    && row.owner.projectId == access.projectId && row.owner.operationNamespace == access.operationNamespace
    && row.operationId == operationId
  }

  /** The run an operation already created, if any. */
  function FindOperation(s: Store, access: Access, operationId: string, n: nat): (r: Option<string>)
    requires n <= |s.order|
    ensures r.Some? ==> r.value in s.runs && SameOperation(s.runs[r.value].run, access, operationId)
  {
    if n == 0 then None
    else if s.order[n - 1] in s.runs && SameOperation(s.runs[s.order[n - 1]].run, access, operationId) then
      Some(s.order[n - 1])
    else FindOperation(s, access, operationId, n - 1)
  }

  function NewRecord(c: Command): Record
    requires c.Start?
  {
    Record(
      RunRow(Owner(c.access.projectId, c.access.operationNamespace, c.freshId), c.operationId, c.payloadHash,
             c.packet, c.lookup, Queued, Pending, 0, "", None),
      [], [Message(User, c.instruction, Some(c.packet.packetId))], None)
  }

  function StartStep(s: Store, c: Command): Outcome
    requires c.Start?
  {
    var existing := FindOperation(s, c.access, c.operationId, |s.order|);
    if existing.Some? then
      if s.runs[existing.value].run.payloadHash == c.payloadHash then Outcome(s, None)
      else Outcome(s, Some(OperationIdReused))
    else if c.freshId in s.runs then Outcome(s, Some(ConstraintViolation))
    else Outcome(s.(runs := s.runs[c.freshId := NewRecord(c)], order := s.order + [c.freshId]), None)
  }

  /** Interrupt the active runs among the first n; one failure undoes them all. */
  function Recovered(s: Store, n: nat): Result<map<string, Record>, Error>
    requires n <= |s.order|
  {
    if n == 0 then Ok(s.runs)
    else
      var earlier := Recovered(s, n - 1);
      var id := s.order[n - 1];
      if earlier.Err? || id !in s.runs || s.runs[id].run.status.Terminal() then earlier
      else
        match Interrupt(s.runs[id], "project_reopened", REOPENED_MESSAGE)
        case Ok(sealed) => Ok(earlier.value[id := sealed])
        case Err(e) => Err(e)
  }

  function RecoverStep(s: Store): Outcome {
    var recovered := Recovered(s, |s.order|);
    if recovered.Ok? then Outcome(s.(runs := recovered.value), None) else Outcome(s, Some(recovered.error))
  }

  function Step(s: Store, c: Command): Outcome {
    var refusal := Precheck(s.identity, c);
    if refusal.Some? then Outcome(s, refusal)
    else if c.Start? then StartStep(s, c)
    else if c.Recover? then RecoverStep(s)
    else RunStep(s, c)
  }

  /** The store after a sequence of commands. */
  function Run(s: Store, commands: seq<Command>): Store
    decreases |commands|
  {
    if commands == [] then s else Run(Step(s, commands[0]).store, commands[1..])
  }

  function Empty(identity: Access): Store {
    Store(identity, map[], [])
  }

  // ----- The invariant -----

  ghost predicate Indexed(s: Store) {
    && (forall i :: 0 <= i < |s.order| ==> s.order[i] in s.runs)
    && (forall id :: id in s.runs ==> id in s.order)
    && (forall i, j :: 0 <= i < j < |s.order| ==> s.order[i] != s.order[j])
  }

  ghost predicate RunsGood(s: Store) {
    forall id :: id in s.runs ==> Good(s.runs[id]) && s.runs[id].run.owner.runId == id
  }

  predicate SameKey(a: RunRow, b: RunRow) {
    && a.owner.projectId == b.owner.projectId && a.owner.operationNamespace == b.owner.operationNamespace
    && a.operationId == b.operationId
  }

  ghost predicate OperationsUnique(s: Store) {
    forall a, b :: a in s.runs && b in s.runs && SameKey(s.runs[a].run, s.runs[b].run) ==> a == b
  }

  ghost predicate Inv(s: Store) {
    Indexed(s) && RunsGood(s) && OperationsUnique(s)
  }

  ghost predicate StoreEvolves(a: Store, b: Store) {
    && a.identity == b.identity && a.runs.Keys <= b.runs.Keys
    && forall id :: id in a.runs ==> Evolves(a.runs[id], b.runs[id])
  }

  lemma StoreEvolvesTrans(a: Store, b: Store, c: Store)
    requires StoreEvolves(a, b) && StoreEvolves(b, c)
    ensures StoreEvolves(a, c)
  {
    forall id | id in a.runs
      ensures Evolves(a.runs[id], c.runs[id])
    {
      EvolvesTrans(a.runs[id], b.runs[id], c.runs[id]);
    }
  }

  lemma ApplyKeeps(r: Record, c: Command, identity: Access)
    requires Good(r) && !c.Start? && !c.Recover? && Precheck(identity, c).None?
    ensures Keeps(r, Apply(r, c))
  {
    hide Good, Evolves, Keeps, Begin, MarkDelivered, Append, Finish, Fail, Stop, SettleStop, SettleProvider,
      InterruptRun;
    match c
    case BeginRun(_, current) => BeginKeeps(r, current);
    case Deliver(_) => MarkDeliveredKeeps(r);
    case AppendOutput(_, expected, id, chunk) => AppendKeeps(r, id, chunk, Expected(expected));
    case FinishRun(_, expected, id, text) => FinishKeeps(r, id, text, Expected(expected));
    case FailRun(_, expected, id, reason) => FailKeeps(r, id, Trim(reason), Expected(expected));
    case StopRun(_, _) => StopKeeps(r);
    case SettleStopped(_, expected, id, text, cleanup) => SettleStopKeeps(r, id, text, Expected(expected), cleanup);
    case SettleReport(_, expected, q) => SettleProviderKeeps(r, q, Expected(expected));
    case InterruptActive(_, _) => InterruptRunKeeps(r);
  }

  /** Replacing records by later states of themselves keeps the store invariant. */
  lemma UpdateKeeps(s: Store, runs: map<string, Record>)
    requires Inv(s) && runs.Keys == s.runs.Keys
    requires forall id :: id in runs ==> Good(runs[id]) && Evolves(s.runs[id], runs[id])
    ensures Inv(s.(runs := runs)) && StoreEvolves(s, s.(runs := runs))
  {
    hide Good;
    var b := s.(runs := runs);
    assert forall id :: id in runs ==> SameIdentity(s.runs[id].run, runs[id].run);
    assert OperationsUnique(b);
  }

  lemma SelfEvolves(s: Store)
    requires Inv(s)
    ensures StoreEvolves(s, s)
  {
    hide Good;
    forall id | id in s.runs ensures Evolves(s.runs[id], s.runs[id]) {}
  }

  lemma RunStepKeeps(s: Store, c: Command)
    requires Inv(s) && !c.Start? && !c.Recover? && Precheck(s.identity, c).None?
    ensures Inv(RunStep(s, c).store) && StoreEvolves(s, RunStep(s, c).store)
  {
    hide Good, Evolves, Apply, Precheck;
    SelfEvolves(s);
    var id := RunIdOf(c);
    if id in s.runs && Owns(s.runs[id], c) {
      ApplyKeeps(s.runs[id], c, s.identity);
      UpdateKeeps(s, s.runs[id := Apply(s.runs[id], c).record]);
    }
  }

  lemma {:induction false} FindOperationExact(s: Store, access: Access, operationId: string, n: nat)
    requires n <= |s.order| && FindOperation(s, access, operationId, n).None?
    ensures forall i :: 0 <= i < n && s.order[i] in s.runs ==>
      !SameOperation(s.runs[s.order[i]].run, access, operationId)
  {
    if n > 0 {
      FindOperationExact(s, access, operationId, n - 1);
    }
  }

  lemma NewRecordGood(c: Command)
    requires c.Start?
    ensures Good(NewRecord(c))
  {
  }

  lemma StartKeeps(s: Store, c: Command)
    requires Inv(s) && c.Start?
    ensures Inv(StartStep(s, c).store) && StoreEvolves(s, StartStep(s, c).store)
  {
    hide Good, Evolves;
    SelfEvolves(s);
    NewRecordGood(c);
    if StartStep(s, c).store != s {
      FindOperationExact(s, c.access, c.operationId, |s.order|);
      forall id | id in s.runs
        ensures !SameKey(s.runs[id].run, NewRecord(c).run)
      {
        var i :| 0 <= i < |s.order| && s.order[i] == id;
      }
      NewRunKeeps(s, c.freshId, NewRecord(c));
    }
  }

  lemma NewRunKeeps(s: Store, id: NewId, r: Record)
    requires Inv(s) && id !in s.runs && Good(r) && r.run.owner.runId == id
    requires forall x :: x in s.runs ==> !SameKey(s.runs[x].run, r.run)
    ensures var b := s.(runs := s.runs[id := r], order := s.order + [id]);
            Inv(b) && StoreEvolves(s, b)
  {
    hide Good, Evolves;
    SelfEvolves(s);
    var b := s.(runs := s.runs[id := r], order := s.order + [id]);
    assert b.order[|s.order|] == id;
    assert Indexed(b) by {
      forall x | x in b.runs
        ensures x in b.order
      {
        if x != id {
          assert x in s.order;
        }
      }
    }
    assert OperationsUnique(b);
  }

  /** The runs after the first n of the order have been considered. */
  ghost predicate RecoveredTo(s: Store, runs: map<string, Record>, n: nat)
    requires n <= |s.order|
  {
    && runs.Keys == s.runs.Keys
    && (forall id :: id in s.runs ==> Good(runs[id]) && Evolves(s.runs[id], runs[id]))
    && (forall i :: 0 <= i < n && s.order[i] in runs ==> runs[s.order[i]].run.status.Terminal())
    && (forall i :: n <= i < |s.order| && s.order[i] in runs ==> runs[s.order[i]] == s.runs[s.order[i]])
  }

  lemma {:induction false} RecoveredKeeps(s: Store, n: nat)
    requires Inv(s) && n <= |s.order| && Recovered(s, n).Ok?
    ensures RecoveredTo(s, Recovered(s, n).value, n)
  {
    hide Inv, RecoveredTo, Interrupt;
    if n == 0 {
      NothingRecovered(s);
    } else {
      RecoveredKeeps(s, n - 1);
      RecoveredStep(s, Recovered(s, n - 1).value, n - 1);
    }
  }

  lemma NothingRecovered(s: Store)
    requires Inv(s)
    ensures RecoveredTo(s, s.runs, 0)
  {
    hide Good, Evolves, OperationsUnique;
    SelfEvolves(s);
  }

  lemma RecoveredStep(s: Store, runs: map<string, Record>, n: nat)
    requires Inv(s) && n < |s.order| && Recovered(s, n) == Ok(runs) && RecoveredTo(s, runs, n)
    requires Recovered(s, n + 1).Ok?
    ensures RecoveredTo(s, Recovered(s, n + 1).value, n + 1)
  {
    hide Good, Evolves, Interrupt, OperationsUnique;
    var id := s.order[n];
    assert runs[id] == s.runs[id];
    if s.runs[id].run.status.Active() {
      InterruptKeeps(s.runs[id], "project_reopened", REOPENED_MESSAGE);
      RecoveredNext(s, runs, n, Interrupt(s.runs[id], "project_reopened", REOPENED_MESSAGE).value);
    } else {
      assert runs[id := s.runs[id]] == runs;
      SelfEvolves(s);
      RecoveredNext(s, runs, n, s.runs[id]);
    }
  }

  lemma RecoveredNext(s: Store, runs: map<string, Record>, n: nat, sealed: Record)
    requires Indexed(s) && n < |s.order| && RecoveredTo(s, runs, n)
    requires Good(sealed) && Evolves(s.runs[s.order[n]], sealed) && sealed.run.status.Terminal()
    ensures RecoveredTo(s, runs[s.order[n] := sealed], n + 1)
  {
    hide Good, Evolves;
    var next := runs[s.order[n] := sealed];
    assert next.Keys == s.runs.Keys;
    forall i | 0 <= i < n + 1 && s.order[i] in next
      ensures next[s.order[i]].run.status.Terminal()
    {
      assert i < n ==> s.order[i] != s.order[n];
    }
    forall i | n + 1 <= i < |s.order| && s.order[i] in next
      ensures next[s.order[i]] == s.runs[s.order[i]]
    {
      assert s.order[i] != s.order[n];
    }
    forall id | id in s.runs
      ensures Good(next[id]) && Evolves(s.runs[id], next[id])
    {
      if id != s.order[n] {
        assert next[id] == runs[id];
      }
    }
  }

  lemma StepKeeps(s: Store, c: Command)
    requires Inv(s)
    ensures Inv(Step(s, c).store) && StoreEvolves(s, Step(s, c).store)
  {
    hide Good, Evolves, Precheck, RunStep, StartStep;
    SelfEvolves(s);
    if Precheck(s.identity, c).None? {
      if c.Start? {
        StartKeeps(s, c);
      } else if c.Recover? {
        if Recovered(s, |s.order|).Ok? {
          RecoveredKeeps(s, |s.order|);
          UpdateKeeps(s, Recovered(s, |s.order|).value);
        }
      } else {
        RunStepKeeps(s, c);
      }
    }
  }

  /** Over every sequence of commands: the log of each run is exactly 1..n with
      distinct ids, its text is the streamed text while active, it is sealed by exactly
      one last event with exactly one assistant message, and no stored row, streamed
      text or sealed run is ever changed. */
  lemma {:induction false} EveryRunKeeps(s: Store, commands: seq<Command>)
    requires Inv(s)
    ensures Inv(Run(s, commands)) && StoreEvolves(s, Run(s, commands))
    decreases |commands|
  {
    hide Inv, StoreEvolves, Step;
    SelfEvolves(s);
    if commands != [] {
      StepKeeps(s, commands[0]);
      var next := Step(s, commands[0]).store;
      EveryRunKeeps(next, commands[1..]);
      StoreEvolvesTrans(s, next, Run(s, commands));
    }
  }

  lemma ReachableStoresAreGood(identity: Access, commands: seq<Command>)
    ensures Inv(Run(Empty(identity), commands))
  {
    EveryRunKeeps(Empty(identity), commands);
  }
}
