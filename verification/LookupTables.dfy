/** The rows of one lookup discussion, updated in place. Each entry point is one
    transaction over them and does exactly what LookupChain says. */
module LookupTables {
  import opened Wrappers
  import opened Decimals
  import opened Text
  import opened RunVocabulary
  import opened RunCommands
  import opened RunStore
  import opened LookupChain

  class Tables {
    var record: Record
    var invocations: map<nat, Invocation>
    var results: map<nat, LookupResult>
    var saved: map<string, ReadRow>

    ghost function View(): Chain
      reads this
    {
      Chain(record, invocations, results, saved)
    }

    constructor (c: Command, packet: LookupPacket, frozen: Frozen)
      requires c.Start? && c.lookup && !HttpBound(c.packet.binding)
      requires packet.allowance.Valid() && packet.completed == 0 && packet.exchanges == []
      requires packet.packetId == c.packet.packetId && packet.binding == c.packet.binding
      requires packet.inputBytes == c.packet.inputBytes
      ensures Started(View(), c, packet, frozen)
    {
      record := NewRecord(c);
      invocations := map[0 := Invocation(packet, frozen, PreparedRow)];
      results, saved := map[], map[];
    }

    // ----- Statements -----

    method MarkChainStopped()
      modifies this`invocations
      ensures invocations == MarkStopped(old(invocations))
    {
      invocations := map k | k in invocations ::
        var i := invocations[k];
        i.(state := if i.state == ClaimedRow then UnknownRow else if i.state == PreparedRow then StoppedRow
           else i.state);
    }

    /** Stop the open rows, then seal the run; a failed seal rolls the rows back. */
    method SealStopped(status: Status, reason: string, eventId: string, note: string) returns (refusal: Option<Refusal>)
      modifies this`record, this`invocations
      ensures ChainReply(View(), refusal) == SealChain(old(View()), status, reason, eventId, note)
    {
      hide RunCommands.SealRun;
      var before := invocations;
      MarkChainStopped();
      var sealed := RunCommands.SealRun(record, status, reason, eventId, note);
      if sealed.Err? {
        invocations := before;
        return Some(Run(sealed.error));
      }
      record := sealed.value;
      return None;
    }

    method Totals() returns (input: nat, output: nat)
      ensures input == TotalInput(results) && output == TotalOutput(results)
    {
      hide Utf8Len;
      input, output := 0, 0;
      for k := 0 to 3
        invariant input == (if k > 0 then InputOf(results, 0) else 0) + (if k > 1 then InputOf(results, 1) else 0)
                           + (if k > 2 then InputOf(results, 2) else 0)
        invariant output == (if k > 0 then OutputOf(results, 0) else 0) + (if k > 1 then OutputOf(results, 1) else 0)
                            + (if k > 2 then OutputOf(results, 2) else 0)
      {
        if k in results {
          input := input + results[k].confirmedStdinBytes;
          output := output + Utf8Len(results[k].text);
        }
      }
    }

    /** The exchanges of every saved round up to one ordinal, in order. */
    method CollectExchanges(through: nat) returns (exchanges: Option<seq<Exchange>>)
      ensures exchanges == ReadExchanges(results, saved, through)
    {
      exchanges := Some([]);
      for k: nat := 0 to through + 1
        invariant exchanges == if k == 0 then Some([]) else ReadExchanges(results, saved, k - 1)
      {
        var round := CollectRound(k);
        exchanges := if exchanges.None? || round.None? then None else Some(exchanges.value + round.value);
      }
    }

    method CollectRound(ordinal: nat) returns (round: Option<seq<Exchange>>)
      ensures round == RoundExchanges(saved, ordinal, RequestsOf(results, ordinal))
    {
      var requests := RequestsOf(results, ordinal);
      var found := [];
      for i := 0 to |requests|
        invariant RoundExchanges(saved, ordinal, requests[..i]) == Some(found)
      {
        assert requests[..i + 1][..i] == requests[..i];
        var id := requests[i].id;
        if id !in saved || saved[id].ordinal != ordinal {
          RoundMissing(saved, ordinal, requests, i + 1);
          return None;
        }
        found := found + [Exchange(requests[i], saved[id].answer.result)];
      }
      assert requests[..|requests|] == requests;
      return Some(found);
    }

    /** Record one round's answers; an id already used must carry the same receipt. A refused
        round keeps what was saved before but may have added to it, and its caller restores the
        rows. */
    method StoreRound(ordinal: nat, requests: seq<LookupRead>, answer: LookupRead -> Answer) returns (ok: bool)
      modifies this`saved
      ensures var stored := StoreReads(old(saved), ordinal, requests, answer);
              ok == stored.Some? && (ok ==> saved == stored.value)
      ensures forall id :: id in old(saved) ==> id in saved && saved[id] == old(saved)[id]
    {
      ghost var before := saved;
      for i := 0 to |requests|
        invariant StoreReads(before, ordinal, requests[..i], answer) == Some(saved)
        invariant forall id :: id in before ==> id in saved && saved[id] == before[id]
      {
        assert requests[..i + 1][..i] == requests[..i];
        var q := requests[i];
        if q.id in saved {
          if saved[q.id].request != q || saved[q.id].answer.result != answer(q).result {
            StoreStops(before, ordinal, requests, answer, i + 1);
            return false;
          }
        } else {
          saved := saved[q.id := ReadRow(ordinal, q, answer(q))];
        }
      }
      assert requests[..|requests|] == requests;
      return true;
    }

    // ----- Entry points -----

    method ClaimLookupInvocation(ordinal: nat, sourceEpoch: nat, policyEpoch: nat) returns (refusal: Option<Refusal>)
      modifies this`record, this`invocations
      ensures ChainReply(View(), refusal) == Claim(old(View()), ordinal, sourceEpoch, policyEpoch)
    {
      hide SealChain, DecimalText, TotalInput, TotalOutput;
      if ordinal >= MAX_LOOKUP_INVOCATIONS { return Some(InvalidLookupCounter); }
      var started := StartedError(record.run.status);
      if started.Some? { return Some(Run(started.value)); }
      if ordinal !in invocations { return Some(LookupInvocationNotFound); }
      var i := invocations[ordinal];
      if i.frozen.sourceEpoch != sourceEpoch || i.frozen.policyEpoch != policyEpoch {
        refusal := SealStopped(Failed, "context_stale",
          "lookup-stale-" + record.run.owner.runId + "-" + DecimalText(ordinal), STALE_LOOKUP_MESSAGE);
        return if refusal.None? then Some(Run(ContextChanged)) else refusal;
      }
      if i.state != PreparedRow { return Some(LookupInvocationAlreadyClaimed); }
      var input, output := Totals();
      if input + i.packet.inputBytes > i.packet.allowance.InputLimit()
         || output + MAX_LOOKUP_ENVELOPE_BYTES > i.packet.allowance.OutputLimit() {
        return Some(LookupAllowanceExceeded);
      }
      invocations := invocations[ordinal := i.(state := ClaimedRow)];
      return None;
    }

    method StoreResult(ordinal: nat, row: LookupResult) returns (ok: bool)
      requires ordinal in invocations
      modifies this`results, this`invocations
      ensures var stored := StoreOutcome(old(View()), ordinal, row);
              ok == stored.Some? && View() == if ok then stored.value else old(View())
    {
      if ordinal in results || !ResultInsertable(results, row) { return false; }
      results := results[ordinal := row];
      var state := SettledState(row.response, row.outcome, row.cleanup);
      invocations := invocations[ordinal := invocations[ordinal].(state := state)];
      return true;
    }

    method SealAnswer(packetId: string, eventId: string, text: string) returns (refusal: Option<Refusal>)
      modifies this`record
      ensures ChainReply(View(), refusal) == SealDiscussion(old(View()), packetId, eventId, text)
    {
      hide Terminate, Utf8Len;
      if record.run.status != Running { return Some(Run(RunSealed)); }
      if text == "" { return Some(Run(InvalidRequest)); }
      if Utf8Len(text) > MAX_OUTPUT_BYTES { return Some(Run(OutputTooLarge)); }
      var sealed := Terminate(record, Completed, eventId, text, text, None, Message(Assistant, text, Some(packetId)));
      if sealed.Err? { return Some(Run(sealed.error)); }
      record := sealed.value;
      return None;
    }

    method ConcludeRun(row: LookupResult, q: LookupReport) returns (refusal: Option<Refusal>)
      modifies this`record, this`invocations
      ensures ChainReply(View(), refusal) == Conclude(old(View()), row, q)
    {
      hide SealChain, SealDiscussion, FailureReason, FailureNote, FailureStatus;
      if row.response.None? {
        refusal := SealStopped(FailureStatus(q.status, q.cleanup), FailureReason(q.status, q.cleanup), q.eventId,
                               FailureNote(row, q));
      } else if record.run.status == Stopping {
        refusal := SealStopped(StopStatus(q.cleanup),
          if q.cleanup == Unresolved then "stop_cleanup_unresolved" else "author_stopped", q.eventId,
          StopNote(q.cleanup));
      } else if row.response.value.Discussion? {
        refusal := SealAnswer(row.packetId, q.eventId, row.response.value.text);
      } else {
        return None;
      }
    }

    method SettleLookupInvocation(h: Host, ordinal: nat, q: LookupReport) returns (refusal: Option<Refusal>)
      modifies this`record, this`invocations, this`results
      ensures ChainReply(View(), refusal) == Settle(h, old(View()), ordinal, q)
    {
      hide LookupShapeError, Response, ResultRow, StoreOutcome, Conclude, ResultMatches, TotalInput, TotalOutput,
        Utf8Len,
        PacketOutputLimit;
      ghost var ch := View();
      var shape := LookupShapeError(q);
      if shape.Some? { return Some(Run(shape.value)); }
      if ordinal >= MAX_LOOKUP_INVOCATIONS { return Some(InvalidLookupCounter); }
      if ordinal in results {
        return if ResultMatches(results[ordinal], q) then None else Some(LookupResultConflict);
      }
      if record.run.status != Running && record.run.status != Stopping { return Some(Run(RunNotStarted)); }
      if ordinal !in invocations { return Some(LookupInvocationNotFound); }
      var i := invocations[ordinal];
      if i.state != ClaimedRow { return Some(LookupInvocationNotClaimed); }
      if i.packet.binding != q.binding { return Some(Run(ProviderBindingMismatch)); }
      refusal := CheckProviderBytes(i.packet, q);
      if refusal.Some? { return; }
      hide ProviderBytesError;
      var row := ResultRow(i.packet, q, Response(h, i.packet, q));
      var beforeInvocations, beforeResults := invocations, results;
      var ok := StoreResult(ordinal, row);
      if !ok { return Some(Run(ConstraintViolation)); }
      refusal := ConcludeRun(row, q);
      if refusal.Some? {
        ConcludeRefused(StoreOutcome(ch, ordinal, row).value, row, q);
        invocations, results := beforeInvocations, beforeResults;
      }
    }

    method CheckProviderBytes(packet: LookupPacket, q: LookupReport) returns (refusal: Option<Refusal>)
      ensures refusal == ProviderBytesError(View(), packet, q)
    {
      hide TotalInput, TotalOutput, Utf8Len;
      if q.confirmedStdinBytes > packet.inputBytes
         || (q.status == ProviderCompleted && q.confirmedStdinBytes != packet.inputBytes) {
        return Some(Run(ProviderInputMismatch));
      }
      if Utf8Len(q.text) > PacketOutputLimit(packet) { return Some(Run(OutputTooLarge)); }
      var input, output := Totals();
      if input + q.confirmedStdinBytes > packet.allowance.InputLimit()
         || output + Utf8Len(q.text) > packet.allowance.OutputLimit() {
        return Some(LookupAllowanceExceeded);
      }
      return None;
    }

    method ExpandRound(h: Host, completed: nat, answer: LookupRead -> Answer, compiled: Option<Compiled>)
      returns (refusal: Option<Refusal>)
      requires completed in invocations
      modifies this`invocations, this`saved
      ensures ChainReply(View(), refusal) == Expand(h, old(View()), completed, answer, compiled)
    {
      hide StoreReads, ReadExchanges, EvidenceAccepted, AuthorizedRead, PacketIdUnused, Answered;
      var i := invocations[completed];
      var requests := RequestsOf(results, completed);
      if completed !in results || results[completed].response.None? { return Some(LookupResponseMissing); }
      if results[completed].response.value.Discussion? { return Some(LookupAlreadyFinished); }
      var foreign := exists j :: 0 <= j < |requests| && !AuthorizedRead(h, i.packet, requests[j]);
      if foreign { return Some(InvalidLookupCapability); }
      var earlier := Some([]);
      if completed > 0 { earlier := CollectExchanges(completed - 1); }
      var before := saved;
      var ok := StoreRound(completed, requests, answer);
      if !ok {
        saved := before;
        return Some(LookupReadConflict);
      }
      refusal := AddChild(h, completed, requests, earlier, answer, compiled);
      if refusal.Some? { saved := before; }
    }

    /** Compile and insert the child packet of one expanded round. */
    method AddChild(h: Host, completed: nat, requests: seq<LookupRead>, earlier: Option<seq<Exchange>>,
                    answer: LookupRead -> Answer, compiled: Option<Compiled>) returns (refusal: Option<Refusal>)
      requires completed in invocations
      modifies this`invocations
      ensures earlier.None? ==> refusal == Some(InvalidProject)
      ensures earlier.Some? && compiled.None? ==> refusal == Some(PacketRefused)
      ensures earlier.Some? && compiled.Some? ==>
        var i := old(invocations)[completed];
        var packet := ChildPacket(i.packet, compiled.value, completed, earlier.value + Answered(requests, answer));
        var reply := InsertChild(old(View()), completed + 1, packet, i.frozen);
        refusal == if EvidenceAccepted(h, packet) then reply.refusal else Some(InvalidLookupEvidence)
      ensures refusal.Some? ==> invocations == old(invocations)
      ensures refusal.None? ==>
        var i := old(invocations)[completed];
        invocations == old(invocations)[completed + 1 := Invocation(
          ChildPacket(i.packet, compiled.value, completed, earlier.value + Answered(requests, answer)), i.frozen,
            PreparedRow)]
    {
      hide EvidenceAccepted, PacketIdUnused, Answered;
      if earlier.None? { return Some(InvalidProject); }
      if compiled.None? { return Some(PacketRefused); }
      var i := invocations[completed];
      var packet := ChildPacket(i.packet, compiled.value, completed, earlier.value + Answered(requests, answer));
      if !EvidenceAccepted(h, packet) { return Some(InvalidLookupEvidence); }
      if completed + 1 > 2 { return Some(InvalidLookupCounter); }
      if completed + 1 in invocations
         || !PacketIdUnused(invocations, packet.packetId) { return Some(Run(ConstraintViolation)); }
      invocations := invocations[completed + 1 := Invocation(packet, i.frozen, PreparedRow)];
      return None;
    }

    method AdvanceLookup(h: Host, completed: nat, sourceEpoch: nat, answer: LookupRead -> Answer,
                         compiled: Option<Compiled>)
      returns (refusal: Option<Refusal>)
      modifies this`record, this`invocations, this`saved
      ensures ChainReply(View(), refusal) == Advance(h, old(View()), completed, sourceEpoch, answer, compiled)
    {
      hide SealChain, Expand, DecimalText;
      if completed >= MAX_LOOKUP_INVOCATIONS { return Some(InvalidLookupCounter); }
      if record.run.status != Running { return Some(Run(RunSealed)); }
      if completed !in invocations { return Some(LookupInvocationNotFound); }
      var i := invocations[completed];
      if i.state != NeedsContextRow { return Some(LookupExpansionUnavailable); }
      if completed >= i.packet.allowance.maxAdditional + 1 || completed >= 2 {
        refusal := SealStopped(Failed, "lookup_limit", "lookup-limit-" + DecimalText(completed), LIMIT_MESSAGE);
      } else if i.frozen.sourceEpoch != sourceEpoch {
        refusal := SealStopped(Failed, "context_stale", "lookup-stale-" + DecimalText(completed),
                               STALE_EXPANSION_MESSAGE);
      } else {
        refusal := ExpandRound(h, completed, answer, compiled);
      }
    }

    method HaltLookup(reason: string) returns (refusal: Option<Refusal>)
      modifies this`record, this`invocations
      ensures ChainReply(View(), refusal) == Halt(old(View()), reason)
    {
      hide SealChain, DecimalText, Utf8Len, Trim;
      if Trim(reason) == "" || Utf8Len(reason) > 4096 { return Some(Run(InvalidRequest)); }
      if record.run.status.Terminal() { return None; }
      refusal := SealStopped(Interrupted, "lookup_halted", "lookup-halt-" + DecimalText(record.run.sequence), reason);
    }

    method ReopenRun() returns (refusal: Option<Refusal>)
      modifies this`record, this`invocations
      ensures ChainReply(View(), refusal) == Reopen(old(View()))
    {
      hide SealChain;
      if record.run.status.Terminal() { return None; }
      refusal := SealStopped(Interrupted, "project_reopened", INTERRUPTED_PREFIX + record.run.owner.runId,
                             REOPENED_MESSAGE);
    }
  }

  lemma {:induction false} RoundMissing(saved: map<string, ReadRow>, ordinal: nat, requests: seq<LookupRead>, n: nat)
    requires n <= |requests| && RoundExchanges(saved, ordinal, requests[..n]).None?
    ensures RoundExchanges(saved, ordinal, requests).None?
    decreases |requests| - n
  {
    if n < |requests| {
      assert requests[..n + 1][..n] == requests[..n];
      RoundMissing(saved, ordinal, requests, n + 1);
    } else {
      assert requests[..n] == requests;
    }
  }

  lemma {:induction false} StoreStops(saved: map<string, ReadRow>, ordinal: nat, requests: seq<LookupRead>,
                                      answer: LookupRead -> Answer, n: nat)
    requires n <= |requests| && StoreReads(saved, ordinal, requests[..n], answer).None?
    ensures StoreReads(saved, ordinal, requests, answer).None?
    decreases |requests| - n
  {
    if n < |requests| {
      assert requests[..n + 1][..n] == requests[..n];
      StoreStops(saved, ordinal, requests, answer, n + 1);
    } else {
      assert requests[..n] == requests;
    }
  }

  lemma ConcludeRefused(stored: Chain, row: LookupResult, q: LookupReport)
    requires Conclude(stored, row, q).refusal.Some?
    ensures Conclude(stored, row, q).chain == stored
  {
    hide RunCommands.SealRun, Terminate, FailureNote, FailureReason, FailureStatus, MarkStopped, Utf8Len;
  }
}
