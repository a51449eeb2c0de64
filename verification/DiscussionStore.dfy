/** The tables behind the runs, updated in place statement by statement. Each command
    is one transaction: it changes the tables exactly as RunStore.Step says, and a
    refused command leaves them as they were. */
module DiscussionStore {
  import opened Wrappers
  import opened Decimals
  import opened Text
  import opened RunVocabulary
  import opened RunCommands
  import opened RunStore

  class Tables {
    const identity: Access
    var runs: map<string, RunRow>
    var events: map<string, seq<Event>>
    var messages: map<string, seq<Message>>
    var results: map<string, ProviderResult>
    var order: seq<string>

    ghost predicate Valid()
      reads this
    {
      runs.Keys == events.Keys && runs.Keys == messages.Keys && results.Keys <= runs.Keys
    }

    function Saved(id: string): Option<ProviderResult>
      reads this
    {
      if id in results then Some(results[id]) else None
    }

    ghost function View(): Store
      reads this
      requires Valid()
    {
      Store(identity, map id | id in runs :: Record(runs[id], events[id], messages[id], Saved(id)), order)
    }

    /** The tables hold s with one run's rows replaced. */
    ghost predicate Holds(s: Store, id: string, r: Record)
      reads this
    {
      Valid() && View() == s.(runs := s.runs[id := r])
    }

    constructor (project: Access)
      ensures Valid() && View() == Empty(project)
    {
      identity := project;
      runs, events, messages, results, order := map[], map[], map[], map[], [];
    }

    /** The outcome of a transaction that leaves one run as the reply says. */
    ghost function Answer(s: Store, id: string, reply: Reply): Outcome {
      Outcome(s.(runs := s.runs[id := reply.record]), reply.error)
    }

    /** Before its first statement a transaction holds the rows it read. */
    lemma HeldRows(id: string)
      requires Valid() && (id in runs || id in View().runs)
      ensures id in runs && id in View().runs
      ensures View().runs[id] == Record(runs[id], events[id], messages[id], Saved(id))
      ensures Holds(View(), id, View().runs[id])
    {
      assert View().runs[id := View().runs[id]] == View().runs;
    }

    // ----- Statements: each changes one table's rows of the run being written -----

    method UpdateRun(id: string, row: RunRow, ghost s: Store, ghost r: Record)
      requires id in s.runs && Holds(s, id, r)
      modifies this`runs
      ensures Holds(s, id, r.(run := row))
    {
      ghost var before := View();
      assert id in before.runs && before.runs[id] == r;
      runs := runs[id := row];
      assert View().runs.Keys == s.runs.Keys;
      forall x | x in s.runs && x != id ensures View().runs[x] == s.runs[x] {
        assert View().runs[x] == before.runs[x];
      }
      assert View().runs == s.runs[id := r.(run := row)];
    }

    /** Refused, changing nothing, if the run already has the sequence or the event id. */
    method InsertEvent(id: string, e: Event, ghost s: Store, ghost r: Record) returns (ok: bool)
      requires id in s.runs && Holds(s, id, r) && id in events && events[id] == r.events
      modifies this`events
      ensures ok <==> Insertable(r.events, e)
      ensures Holds(s, id, if ok then r.(events := r.events + [e]) else r)
    {
      hide Insertable;
      ok := Insertable(events[id], e);
      if ok {
        events := events[id := events[id] + [e]];
        assert View().runs == s.runs[id := r.(events := r.events + [e])];
      }
    }

    method InsertMessage(id: string, m: Message, ghost s: Store, ghost r: Record)
      requires id in s.runs && Holds(s, id, r) && id in messages && messages[id] == r.messages
      modifies this`messages
      ensures Holds(s, id, r.(messages := r.messages + [m]))
    {
      messages := messages[id := messages[id] + [m]];
      assert View().runs == s.runs[id := r.(messages := r.messages + [m])];
    }

    method InsertResult(id: string, saved: ProviderResult, ghost s: Store, ghost r: Record)
      requires id in s.runs && Holds(s, id, r)
      modifies this`results
      ensures Holds(s, id, r.(result := Some(saved)))
    {
      assert id in View().runs;
      results := results[id := saved];
      assert View().runs == s.runs[id := r.(result := Some(saved))];
    }

    // ----- Shared steps -----

    /** Load the run a command names, checking the request, its owner and its identity. */
    method Load(c: Command) returns (error: Option<Error>)
      requires Valid() && !c.Start? && !c.Recover?
      ensures error.Some? ==> Step(View(), c) == Outcome(View(), error)
      ensures error.None? ==> RunIdOf(c) in View().runs && Owns(View().runs[RunIdOf(c)], c)
      ensures error.None? ==> Step(View(), c) == Answer(View(), RunIdOf(c), Apply(View().runs[RunIdOf(c)], c))
      ensures var id := RunIdOf(c);
              error.None? ==> id in runs && View().runs[id] == Record(runs[id], events[id], messages[id], Saved(id))
    {
      hide Precheck, Apply;
      error := Precheck(identity, c);
      if error.Some? { return; }
      var id := RunIdOf(c);
      if id !in runs { return Some(DiscussionRunNotFound); }
      var owner := runs[id].owner;
      if c.StopRun? || c.InterruptActive? {
        if owner.projectId != c.access.projectId || owner.operationNamespace != c.access.operationNamespace {
          return Some(DiscussionProjectMismatch);
        }
      } else if owner != c.owner {
        return Some(DiscussionProjectMismatch);
      }
    }

    /** The terminal event, the sealed row and the assistant message. */
    method Terminate(id: string, status: Status, eventId: string, chunk: string, output: string,
                     reason: Option<string>, message: Message) returns (error: Option<Error>)
      requires Valid() && id in runs
      modifies this`runs, this`events, this`messages
      ensures Valid()
      ensures var r := RunCommands.Terminate(old(View()).runs[id], status, eventId, chunk, output, reason, message);
              if r.Ok? then error.None? && Holds(old(View()), id, r.value)
              else error == Some(r.error) && View() == old(View())
    {
      hide View, Insertable;
      HeldRows(id);
      ghost var s, r := View(), View().runs[id];
      var row := runs[id];
      if row.sequence >= MAX_I64 { return Some(InvalidRequest); }
      var next := row.sequence + 1;
      ghost var e := Event(next, eventId, TerminalEvent, chunk);
      var ok := InsertEvent(id, Event(next, eventId, TerminalEvent, chunk), s, r);
      if !ok { return Some(ConstraintViolation); }
      var sealed := row.(status := status, sequence := next, outputText := output, stopReason := reason);
      UpdateRun(id, sealed, s, r.(events := r.events + [e]));
      InsertMessage(id, message, s, Record(sealed, r.events + [e], r.messages, r.result));
      return None;
    }

    method SealRun(id: string, status: Status, reason: string, eventId: string, note: string)
      returns (error: Option<Error>)
      requires Valid() && id in runs
      modifies this`runs, this`events, this`messages
      ensures Valid()
      ensures var r := RunCommands.SealRun(old(View()).runs[id], status, reason, eventId, note);
              if r.Ok? then error.None? && Holds(old(View()), id, r.value)
              else error == Some(r.error) && View() == old(View())
    {
      hide RunCommands.Terminate;
      var row := runs[id];
      if row.status.Terminal() || status.Active() { return Some(RunSealed); }
      if !CheckId(eventId) || reason == "" || !BoundedNote(note) { return Some(InvalidRequest); }
      var message := Message(Assistant, WithNote(row.outputText, note), Some(row.packet.packetId));
      error := Terminate(id, status, eventId, note, row.outputText, Some(reason), message);
    }

    // ----- Commands -----

    method StartDiscussion(c: Command) returns (error: Option<Error>)
      requires Valid() && c.Start?
      modifies this
      ensures Valid() && Outcome(View(), error) == Step(old(View()), c)
    {
      hide Precheck;
      error := Precheck(identity, c);
      if error.Some? { return; }
      for i := |order| downto 0
        invariant FindOperation(View(), c.access, c.operationId, |order|)
          == FindOperation(View(), c.access, c.operationId, i)
      {
        if order[i] in runs && SameOperation(runs[order[i]], c.access, c.operationId) {
          return if runs[order[i]].payloadHash == c.payloadHash then None else Some(OperationIdReused);
        }
      }
      if c.freshId in runs { return Some(ConstraintViolation); }
      InsertRun(c.freshId, NewRecord(c));
      return None;
    }

    method InsertRun(id: string, created: Record)
      requires Valid() && id !in runs && created.result.None?
      modifies this`runs, this`events, this`messages, this`order
      ensures Valid()
      ensures View() == old(View()).(runs := old(View()).runs[id := created], order := old(View()).order + [id])
    {
      ghost var s := View();
      runs := runs[id := created.run];
      events := events[id := created.events];
      messages := messages[id := created.messages];
      order := order + [id];
      assert Saved(id) == None;
      assert View().runs.Keys == s.runs[id := created].Keys;
      assert View().runs == s.runs[id := created];
    }

    method BeginDiscussionRun(owner: Owner, contextCurrent: bool) returns (error: Option<Error>)
      requires Valid()
      modifies this`runs, this`events, this`messages
      ensures Valid() && Outcome(View(), error) == Step(old(View()), BeginRun(owner, contextCurrent))
    {
      hide Precheck, RunCommands.SealRun, RunCommands.Terminate;
      error := Load(BeginRun(owner, contextCurrent));
      if error.Some? { return; }
      var id, row := owner.runId, runs[owner.runId];
      match row.status {
        case Queued =>
          if !contextCurrent {
            error := SealRun(id, Failed, "context_stale", STALE_PREFIX + row.owner.runId, STALE_MESSAGE);
            return if error.None? then Some(ContextChanged) else error;
          }
          if row.dispatch != Pending { return Some(RunAlreadyStarted); }
          HeldRows(id);
          UpdateRun(id, row.(status := Running, dispatch := Claimed), View(), View().runs[id]);
        case Running => return Some(RunAlreadyStarted);
        case _ => return Some(RunSealed);
      }
    }

    method MarkDiscussionDelivered(owner: Owner) returns (error: Option<Error>)
      requires Valid()
      modifies this`runs
      ensures Valid() && Outcome(View(), error) == Step(old(View()), Deliver(owner))
    {
      hide Precheck;
      error := Load(Deliver(owner));
      if error.Some? { return; }
      var row := runs[owner.runId];
      if row.packet.binding.Some? { return Some(ProviderResultRequired); }
      if row.status == Stopping { return Some(RunStopping); }
      if row.status != Running { return Some(RunSealed); }
      HeldRows(owner.runId);
      UpdateRun(owner.runId, row.(dispatch := Delivered), View(), View().runs[owner.runId]);
    }

    method AppendDiscussionOutput(owner: Owner, expectedSequence: string, eventId: string, chunk: string)
      returns (error: Option<Error>)
      requires Valid()
      modifies this`runs, this`events
      ensures Valid()
      ensures Outcome(View(), error) == Step(old(View()), AppendOutput(owner, expectedSequence, eventId, chunk))
    {
      hide Precheck, Utf8Len;
      error := Load(AppendOutput(owner, expectedSequence, eventId, chunk));
      if error.Some? { return; }
      var id, row, expected := owner.runId, runs[owner.runId], Expected(expectedSequence);
      if row.lookup { return Some(LookupInvocationRequired); }
      var saved := FindEvent(events[id], eventId);
      if saved.Some? {
        return if SameEvent(saved.value, ChunkEvent, chunk, expected) then None else Some(EventIdReused);
      }
      error := StartedError(row.status);
      if error.Some? { return; }
      if expected != row.sequence { return Some(SequenceConflict); }
      if Utf8Len(row.outputText) + Utf8Len(chunk) > MAX_OUTPUT_BYTES { return Some(OutputTooLarge); }
      if row.sequence >= MAX_I64 { return Some(InvalidRequest); }
      var next := row.sequence + 1;
      ghost var s, r := View(), View().runs[id];
      HeldRows(id);
      var ok := InsertEvent(id, Event(next, eventId, ChunkEvent, chunk), s, r);
      if !ok { return Some(ConstraintViolation); }
      UpdateRun(id, row.(sequence := next, outputText := row.outputText + chunk), s,
                r.(events := r.events + [Event(next, eventId, ChunkEvent, chunk)]));
    }

    method FinishDiscussion(owner: Owner, expectedSequence: string, eventId: string, text: string)
      returns (error: Option<Error>)
      requires Valid()
      modifies this`runs, this`events, this`messages
      ensures Valid() && Outcome(View(), error) == Step(old(View()), FinishRun(owner, expectedSequence, eventId, text))
    {
      hide Precheck, RunCommands.Terminate, View, FindEvent, FinalOutputError;
      error := Load(FinishRun(owner, expectedSequence, eventId, text));
      if error.Some? { return; }
      var id, row, expected := owner.runId, runs[owner.runId], Expected(expectedSequence);
      if row.lookup { return Some(LookupInvocationRequired); }
      if row.packet.binding.Some? { return Some(ProviderResultRequired); }
      var saved := FindEvent(events[id], eventId);
      if saved.Some? {
        return if SameEvent(saved.value, TerminalEvent, text, expected) && row.status == Completed then None
               else Some(EventIdReused);
      }
      error := StartedError(row.status);
      if error.Some? { return; }
      error := FinalOutputError(row.outputText, text, false);
      if error.Some? { return; }
      if expected != row.sequence { return Some(SequenceConflict); }
      error := Terminate(id, Completed, eventId, text, text, row.stopReason, Message(Assistant, text, None));
    }

    method FailDiscussionRun(owner: Owner, expectedSequence: string, eventId: string, reason: string)
      returns (error: Option<Error>)
      requires Valid()
      modifies this`runs, this`events, this`messages
      ensures Valid() && Outcome(View(), error) == Step(old(View()), FailRun(owner, expectedSequence, eventId, reason))
    {
      hide Precheck, RunCommands.SealRun, View, FindEvent, Trim, FailureText;
      error := Load(FailRun(owner, expectedSequence, eventId, reason));
      if error.Some? { return; }
      var id, row, expected := owner.runId, runs[owner.runId], Expected(expectedSequence);
      var text := FailureText(Trim(reason));
      if row.lookup { return Some(LookupInvocationRequired); }
      if row.status == Stopping { return Some(RunStopping); }
      var saved := FindEvent(events[id], eventId);
      if saved.Some? {
        return if SameEvent(saved.value, TerminalEvent, text, expected) && row.status == Failed then None
               else Some(EventIdReused);
      }
      if expected != row.sequence { return Some(SequenceConflict); }
      error := SealRun(id, Failed, Trim(reason), eventId, text);
    }

    method StopDiscussion(access: Access, id: string) returns (error: Option<Error>)
      requires Valid()
      modifies this`runs, this`events, this`messages
      ensures Valid() && Outcome(View(), error) == Step(old(View()), StopRun(access, id))
    {
      hide Precheck, RunCommands.SealRun;
      error := Load(StopRun(access, id));
      if error.Some? { return; }
      var row := runs[id];
      match row.status {
        case Queued => error := SealRun(id, Stopped, "author_stopped", STOP_PREFIX + row.owner.runId,
                                        STOP_SETTLED_MESSAGE);
        case Running =>
          HeldRows(id);
          UpdateRun(id, row.(status := Stopping, stopReason := Some("author_stopped")), View(), View().runs[id]);
        case _ => HeldRows(id);
      }
    }

    method SettleDiscussionStop(owner: Owner, expectedSequence: string, eventId: string, text: string, cleanup: Cleanup)
      returns (error: Option<Error>)
      requires Valid()
      modifies this`runs, this`events, this`messages
      ensures Valid()
      ensures Outcome(View(), error)
        == Step(old(View()), SettleStopped(owner, expectedSequence, eventId, text, cleanup))
    {
      hide Precheck, RunCommands.Terminate, View, FindEvent, FinalOutputError;
      error := Load(SettleStopped(owner, expectedSequence, eventId, text, cleanup));
      if error.Some? { return; }
      var id, row, expected := owner.runId, runs[owner.runId], Expected(expectedSequence);
      var status := StopStatus(cleanup);
      var saved := FindEvent(events[id], eventId);
      if saved.Some? {
        return if SameEvent(saved.value, TerminalEvent, text, expected) && row.status == status
          && row.outputText == text
               then None else Some(EventIdReused);
      }
      if row.status != Stopping { return Some(RunSealed); }
      if expected != row.sequence { return Some(SequenceConflict); }
      error := FinalOutputError(row.outputText, text, true);
      if error.Some? { return; }
      var reason := if cleanup == Settled then "author_stopped" else "stop_cleanup_unresolved";
      var message := Message(Assistant, WithNote(text, StopNote(cleanup)), Some(row.packet.packetId));
      error := Terminate(id, status, eventId, text, text, Some(reason), message);
    }

    method SettleProviderDiscussion(owner: Owner, expectedSequence: string, q: Report) returns (error: Option<Error>)
      requires Valid()
      modifies this`runs, this`events, this`messages, this`results
      ensures Valid() && Outcome(View(), error) == Step(old(View()), SettleReport(owner, expectedSequence, q))
    {
      hide Precheck, RunCommands.Terminate, SettlementError, SettledNote, SettledReason, SettledStatus, WithNote, View;
      error := Load(SettleReport(owner, expectedSequence, q));
      if error.Some? { return; }
      var id, row, expected := owner.runId, runs[owner.runId], Expected(expectedSequence);
      if row.lookup { return Some(LookupInvocationRequired); }
      if id in results {
        return if results[id] == RunCommands.Saved(q, expected) then None else Some(ProviderResultConflict);
      }
      if row.status != Running && row.status != Stopping { return Some(RunNotStarted); }
      ghost var s := View();
      error := SettlementError(Record(row, events[id], messages[id], None), q, expected);
      if error.Some? { return; }
      var status := SettledStatus(row.status, q.status, q.cleanup);
      var note := SettledNote(q, status);
      var content := if status == Completed then q.assistantText else WithNote(q.assistantText, note);
      error := Terminate(id, status, q.eventId, note, q.assistantText, SettledReason(row.status, q.status, q.cleanup),
                         Message(Assistant, content, Some(row.packet.packetId)));
      if error.Some? { return; }
      ghost var sealed := View().runs[id];
      HeldRows(id);
      var delivered := runs[id].(dispatch := if WasDelivered(row.packet, q) then Delivered else row.dispatch);
      UpdateRun(id, delivered, s, sealed);
      InsertResult(id, RunCommands.Saved(q, expected), s, sealed.(run := delivered));
    }

    method InterruptDiscussion(access: Access, id: string) returns (error: Option<Error>)
      requires Valid()
      modifies this`runs, this`events, this`messages
      ensures Valid() && Outcome(View(), error) == Step(old(View()), InterruptActive(access, id))
    {
      hide Precheck, RunCommands.SealRun;
      error := Load(InterruptActive(access, id));
      if error.Some? { return; }
      var row := runs[id];
      if row.status.Terminal() {
        HeldRows(id);
        return;
      }
      error := SealRun(id, Interrupted, "project_close_cleanup", INTERRUPTED_PREFIX + row.owner.runId,
                       STOP_UNRESOLVED_MESSAGE);
    }

    /** Seal every active run, in creation order; any failure rolls all of them back. */
    method RecoverInterruptedDiscussions() returns (error: Option<Error>)
      requires Valid() && Indexed(View())
      modifies this`runs, this`events, this`messages
      ensures Valid() && Outcome(View(), error) == Step(old(View()), Recover)
    {
      hide View, Recovered, RecoveredSoFar, Step, RunCommands.SealRun;
      var savedRuns, savedEvents, savedMessages := runs, events, messages;
      ghost var before := View();
      RecoveryStarts();
      for i := 0 to |order|
        invariant RecoveredSoFar(before, i)
      {
        error := RecoverOne(before, i);
        if error.Some? {
          RecoveryFails(before, i + 1);
          Rollback(savedRuns, savedEvents, savedMessages);
          return;
        }
      }
      RecoveryEnds(before);
      return None;
    }

    method Rollback(savedRuns: map<string, RunRow>, savedEvents: map<string, seq<Event>>,
                    savedMessages: map<string, seq<Message>>)
      modifies this`runs, this`events, this`messages
      ensures runs == savedRuns && events == savedEvents && messages == savedMessages
    {
      runs, events, messages := savedRuns, savedEvents, savedMessages;
    }

    method RecoverOne(ghost before: Store, i: nat) returns (error: Option<Error>)
      requires i < |order| && RecoveredSoFar(before, i)
      modifies this`runs, this`events, this`messages
      ensures Valid()
      ensures error.None? ==> RecoveredSoFar(before, i + 1)
      ensures error.Some? ==> i < |before.order| && Recovered(before, i + 1) == Err(error.value)
    {
      hide RunCommands.SealRun;
      var id := order[i];
      if id !in runs || runs[id].status.Terminal() { return None; }
      assert View().runs[id] == before.runs[id];
      error := SealRun(id, Interrupted, "project_reopened", INTERRUPTED_PREFIX + runs[id].owner.runId,
                       REOPENED_MESSAGE);
    }

    /** The first n runs of the order have been dealt with; the others are untouched. */
    ghost predicate RecoveredSoFar(before: Store, n: nat)
      reads this
    {
      && Valid() && Indexed(before) && n <= |before.order| && order == before.order
      && Recovered(before, n) == Ok(View().runs) && View() == before.(runs := View().runs)
      && View().runs.Keys == before.runs.Keys
      && forall j :: n <= j < |order| ==> View().runs[order[j]] == before.runs[order[j]]
    }

    lemma RecoveryStarts()
      requires Valid() && Indexed(View())
      ensures RecoveredSoFar(View(), 0)
    {
    }

    lemma RecoveryEnds(before: Store)
      requires RecoveredSoFar(before, |order|)
      ensures Valid() && Outcome(View(), None) == Step(before, Recover)
    {
    }
  }

  lemma RecoveryFails(before: Store, n: nat)
    requires n <= |before.order| && Recovered(before, n).Err?
    ensures Step(before, Recover) == Outcome(before, Some(Recovered(before, n).error))
  {
    RecoveryStops(before, n, |before.order|);
  }

  lemma {:induction false} RecoveryStops(s: Store, m: nat, n: nat)
    requires m <= n <= |s.order| && Recovered(s, m).Err?
    ensures Recovered(s, n) == Recovered(s, m)
  {
    if m < n {
      RecoveryStops(s, m, n - 1);
    }
  }
}
