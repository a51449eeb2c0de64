/** What every command keeps of a lookup chain. */
module LookupInvariants {
  import opened Wrappers
  import opened Decimals
  import opened Text
  import opened RunVocabulary
  import opened RunCommands
  import opened RunInvariants
  import opened RunStore
  import opened LookupChain

  // ----- The invariant -----

  /** The run itself; nothing is ever streamed into a lookup run before it is sealed. */
  ghost predicate RecordSound(r: Record) {
    Good(r) && r.run.lookup && (r.run.status.Active() ==> r.events == [])
  }

  /** Every invocation repeats the root's request and follows a needs-context one. */
  predicate RowFits(invocations: map<nat, Invocation>, k: nat)
    requires 0 in invocations && k in invocations
  {
    var root, i := invocations[0], invocations[k];
    && k <= 2 && k <= root.packet.allowance.maxAdditional
    && i.frozen == root.frozen && i.packet.binding == root.packet.binding
    && i.packet.allowance == root.packet.allowance && i.packet.reviewedMemory == root.packet.reviewedMemory
    && i.packet.completed == k
    && (k > 0 ==> k - 1 in invocations && invocations[k - 1].state.NeedsContextRow?)
  }

  ghost predicate Rows(r: Record, invocations: map<nat, Invocation>) {
    && 0 in invocations
    && invocations[0].packet.packetId == r.run.packet.packetId
    && invocations[0].packet.binding == r.run.packet.binding
    && invocations[0].packet.allowance.Valid()
    && (forall k :: k in invocations ==> RowFits(invocations, k))
    && (forall j, k :: j in invocations && k in invocations && j != k ==>
          invocations[j].packet.packetId != invocations[k].packet.packetId)
  }

  /** A result and the state of its invocation tell the same story. */
  predicate ReceiptFits(h: Host, i: Invocation, saved: LookupResult) {
    && saved.packetId == i.packet.packetId && saved.binding == i.packet.binding
    && i.state == SettledState(saved.response, saved.outcome, saved.cleanup)
    && saved.confirmedStdinBytes <= i.packet.inputBytes
    && CheckId(saved.eventId) && PrintableText(saved.text)
    && (saved.outcome == ProviderCompleted <==> saved.response.Some?)
    && (saved.response.Some? ==>
          && ParseResponse(h, saved.text) == Ok(saved.response.value) && Authorized(h, i.packet, saved.response.value)
          && saved.error.None? && saved.cleanup == Settled && saved.confirmedStdinBytes == i.packet.inputBytes)
  }

  ghost predicate Receipts(h: Host, invocations: map<nat, Invocation>, results: map<nat, LookupResult>) {
    && (forall k :: k in results ==> k in invocations && ReceiptFits(h, invocations[k], results[k]))
    && (forall k :: k in invocations && invocations[k].state.Open() ==> k !in results)
    && (forall k :: k in invocations && !invocations[k].state.Open() && k !in results ==>
          invocations[k].state.StoppedRow? || invocations[k].state.UnknownRow?)
  }

  predicate ReadFits(invocations: map<nat, Invocation>, results: map<nat, LookupResult>, id: string, row: ReadRow) {
    && row.request.id == id && row.request in RequestsOf(results, row.ordinal)
    && row.ordinal + 1 in invocations
    && Exchange(row.request, row.answer.result) in invocations[row.ordinal + 1].packet.exchanges
  }

  /** Each child packet carries exactly the exchanges of the rounds before it. */
  ghost predicate Evidence(h: Host, invocations: map<nat, Invocation>, results: map<nat, LookupResult>,
                           saved: map<string, ReadRow>)
  {
    && (forall id :: id in saved ==> ReadFits(invocations, results, id, saved[id]))
    && (forall k :: k in invocations ==> EvidenceAccepted(h, invocations[k].packet))
    && (forall k :: k in invocations && k > 0 ==>
          ReadExchanges(results, saved, k - 1) == Some(invocations[k].packet.exchanges))
  }

  /** Settled bytes stay within the allowance, with room reserved for an open claim. */
  ghost predicate Budget(invocations: map<nat, Invocation>, results: map<nat, LookupResult>)
    requires 0 in invocations
  {
    var allowance := invocations[0].packet.allowance;
    && TotalInput(results) <= allowance.InputLimit() && TotalOutput(results) <= allowance.OutputLimit()
    && forall k :: k in invocations && invocations[k].state.ClaimedRow? ==>
         && TotalInput(results) + invocations[k].packet.inputBytes <= allowance.InputLimit()
         && TotalOutput(results) + MAX_LOOKUP_ENVELOPE_BYTES <= allowance.OutputLimit()
  }

  ghost predicate RowsSound(h: Host, ch: Chain) {
    && Rows(ch.record, ch.invocations) && Receipts(h, ch.invocations, ch.results)
    && Evidence(h, ch.invocations, ch.results, ch.saved) && Budget(ch.invocations, ch.results)
  }

  /** While the run is active every invocation is open or awaits its expansion. */
  ghost predicate Progress(ch: Chain) {
    && (ch.record.run.status.Active() ==>
          forall k :: k in ch.invocations ==>
            ch.invocations[k].state.Open() || ch.invocations[k].state.NeedsContextRow?)
    && (ch.record.run.status == Queued ==>
          forall k :: k in ch.invocations ==> k == 0 && ch.invocations[k].state.PreparedRow?)
  }

  ghost predicate Sound(h: Host, ch: Chain) {
    RecordSound(ch.record) && RowsSound(h, ch) && Progress(ch)
  }

  // ----- Evolution -----

  /** Nothing settled is rewritten, and an invocation's state only moves on. */
  predicate RowEvolves(a: Invocation, b: Invocation) {
    && b.packet == a.packet && b.frozen == a.frozen
    && (a.state.PreparedRow? || (a.state.ClaimedRow? && !b.state.PreparedRow?) || b.state == a.state)
  }

  ghost predicate ChainEvolves(a: Chain, b: Chain) {
    && Evolves(a.record, b.record)
    && (forall k :: k in a.invocations ==> k in b.invocations && RowEvolves(a.invocations[k], b.invocations[k]))
    && (forall k :: k in a.results ==> k in b.results && b.results[k] == a.results[k])
    && (forall id :: id in a.saved ==> id in b.saved && b.saved[id] == a.saved[id])
  }

  lemma ChainEvolvesTrans(a: Chain, b: Chain, c: Chain)
    requires ChainEvolves(a, b) && ChainEvolves(b, c)
    ensures ChainEvolves(a, c)
  {
    hide Good, Streamed;
    EvolvesTrans(a.record, b.record, c.record);
    forall k | k in a.invocations
      ensures k in c.invocations && RowEvolves(a.invocations[k], c.invocations[k])
    {
      assert k in b.invocations && RowEvolves(b.invocations[k], c.invocations[k]);
    }
    forall k | k in a.results ensures k in c.results && c.results[k] == a.results[k] {
      assert k in b.results;
    }
    forall id | id in a.saved ensures id in c.saved && c.saved[id] == a.saved[id] {
      assert id in b.saved;
    }
  }

  ghost predicate ChainKeeps(h: Host, ch: Chain, b: Chain) {
    Sound(h, b) && ChainEvolves(ch, b)
  }

  lemma ChainSelfEvolves(ch: Chain)
    requires RecordSound(ch.record)
    ensures ChainEvolves(ch, ch)
  {
    hide Good;
  }

  lemma RefusedKeeps(h: Host, ch: Chain)
    requires Sound(h, ch)
    ensures ChainKeeps(h, ch, ch)
  {
    hide Good, RowsSound, Progress;
  }

  // ----- Sealing -----

  lemma MarkStoppedRows(r: Record, b: Record, invocations: map<nat, Invocation>)
    requires Rows(r, invocations) && SameIdentity(r.run, b.run)
    ensures Rows(b, MarkStopped(invocations))
  {
    hide RowFits, Allowance.Valid;
    var marked := MarkStopped(invocations);
    forall k | k in marked ensures RowFits(marked, k) {
      MarkStoppedRow(invocations, k);
    }
  }

  lemma MarkStoppedRow(invocations: map<nat, Invocation>, k: nat)
    requires 0 in invocations && k in invocations && RowFits(invocations, k)
    ensures RowFits(MarkStopped(invocations), k)
  {
    hide Allowance.Valid;
  }

  lemma MarkStoppedReceipts(h: Host, invocations: map<nat, Invocation>, results: map<nat, LookupResult>)
    requires Receipts(h, invocations, results)
    ensures Receipts(h, MarkStopped(invocations), results)
  {
    hide ParseResponse, Authorized, CheckId, PrintableText;
    var marked := MarkStopped(invocations);
    forall k | k in results ensures k in marked && ReceiptFits(h, marked[k], results[k]) {
      assert ReceiptFits(h, invocations[k], results[k]);
      assert marked[k] == invocations[k];
    }
  }

  lemma MarkStoppedEvidence(h: Host, invocations: map<nat, Invocation>, results: map<nat, LookupResult>,
                            saved: map<string, ReadRow>)
    requires Evidence(h, invocations, results, saved)
    ensures Evidence(h, MarkStopped(invocations), results, saved)
  {
    hide EvidenceAccepted, ReadExchanges, RequestsOf;
    var marked := MarkStopped(invocations);
    forall id | id in saved ensures ReadFits(marked, results, id, saved[id]) {
      assert ReadFits(invocations, results, id, saved[id]);
    }
  }

  lemma MarkStoppedKeeps(h: Host, ch: Chain, b: Record)
    requires RowsSound(h, ch) && SameIdentity(ch.record.run, b.run)
    ensures RowsSound(h, ch.(record := b, invocations := MarkStopped(ch.invocations)))
  {
    hide Rows, Receipts, Evidence;
    MarkStoppedRows(ch.record, b, ch.invocations);
    MarkStoppedReceipts(h, ch.invocations, ch.results);
    MarkStoppedEvidence(h, ch.invocations, ch.results, ch.saved);
    assert Budget(MarkStopped(ch.invocations), ch.results) by {
      assert 0 in ch.invocations by { RootPresent(ch); }
    }
  }

  lemma RootPresent(ch: Chain)
    requires Rows(ch.record, ch.invocations)
    ensures 0 in ch.invocations
  {
  }

  /** Stopping the open rows rewrites nothing settled. */
  lemma MarkStoppedEvolves(ch: Chain, b: Record)
    requires Evolves(ch.record, b)
    ensures ChainEvolves(ch, ch.(record := b, invocations := MarkStopped(ch.invocations)))
  {
    hide Evolves;
  }

  /** Sealing a run that kept its rows sound, possibly just after a result was stored. */
  lemma SealChainKeeps(h: Host, ch: Chain, status: Status, reason: string, eventId: string, note: string)
    requires RecordSound(ch.record) && RowsSound(h, ch) && status.Terminal()
    requires SealChain(ch, status, reason, eventId, note).refusal.None?
    ensures var b := SealChain(ch, status, reason, eventId, note).chain;
            Sound(h, b) && ChainEvolves(ch, b) && b.record.run.status == status
  {
    hide Good, RowsSound, RunCommands.SealRun;
    SealKeeps(ch.record, status, reason, eventId, note);
    var sealed := RunCommands.SealRun(ch.record, status, reason, eventId, note).value;
    MarkStoppedKeeps(h, ch, sealed);
    MarkStoppedEvolves(ch, sealed);
  }

  lemma SealReplyKeeps(h: Host, ch: Chain, status: Status, reason: string, eventId: string, note: string)
    requires Sound(h, ch) && status.Terminal()
    ensures ChainKeeps(h, ch, SealChain(ch, status, reason, eventId, note).chain)
  {
    hide Good, RowsSound, RunCommands.SealRun, Progress, ChainEvolves, SealChain;
    if SealChain(ch, status, reason, eventId, note).refusal.None? {
      SealChainKeeps(h, ch, status, reason, eventId, note);
    } else {
      RefusedKeeps(h, ch);
      SealRefused(ch, status, reason, eventId, note);
    }
  }

  lemma SealRefused(ch: Chain, status: Status, reason: string, eventId: string, note: string)
    requires SealChain(ch, status, reason, eventId, note).refusal.Some?
    ensures SealChain(ch, status, reason, eventId, note).chain == ch
  {
  }

  /** An active lookup run has no events yet, so a well-formed seal never fails. */
  lemma SealChainSucceedsIff(h: Host, ch: Chain, status: Status, reason: string, eventId: string, note: string)
    requires RecordSound(ch.record) && ch.record.run.status.Active() && status.Terminal() && reason != ""
    ensures SealChain(ch, status, reason, eventId, note).refusal.None? <==> CheckId(eventId) && BoundedNote(note)
  {
    hide Utf8Len, CheckId, TerminalShape, ResultShape;
    assert ch.record.run.sequence == 0;
  }

  // ----- One row moves on -----

  function Moved(invocations: map<nat, Invocation>, k: nat, state: InvocationState): map<nat, Invocation>
    requires k in invocations
  {
    invocations[k := invocations[k].(state := state)]
  }

  /** Only the last invocation can be anything but needs-context. */
  lemma OpenIsLast(r: Record, invocations: map<nat, Invocation>, k: nat, j: nat)
    requires Rows(r, invocations) && k in invocations && j in invocations && !invocations[k].state.NeedsContextRow?
    ensures j <= k
  {
    hide Allowance.Valid;
    assert RowFits(invocations, j) && RowFits(invocations, k);
  }

  lemma MovedRows(r: Record, invocations: map<nat, Invocation>, k: nat, state: InvocationState)
    requires Rows(r, invocations) && k in invocations && !invocations[k].state.NeedsContextRow?
    ensures Rows(r, Moved(invocations, k, state))
  {
    hide Allowance.Valid, RowFits;
    var moved := Moved(invocations, k, state);
    forall j | j in moved ensures RowFits(moved, j) {
      OpenIsLast(r, invocations, k, j);
      MovedRow(invocations, k, state, j);
    }
    assert forall j :: j in moved ==> j in invocations && moved[j].packet == invocations[j].packet;
  }

  lemma MovedRow(invocations: map<nat, Invocation>, k: nat, state: InvocationState, j: nat)
    requires k in invocations && j in invocations && 0 in invocations && j <= k && RowFits(invocations, j)
    ensures RowFits(Moved(invocations, k, state), j)
  {
    hide Allowance.Valid;
  }

  lemma MovedEvidence(h: Host, invocations: map<nat, Invocation>, results: map<nat, LookupResult>,
                      saved: map<string, ReadRow>, k: nat, state: InvocationState)
    requires Evidence(h, invocations, results, saved) && k in invocations
    ensures Evidence(h, Moved(invocations, k, state), results, saved)
  {
    hide EvidenceAccepted, ReadExchanges, RequestsOf;
    var moved := Moved(invocations, k, state);
    forall id | id in saved ensures ReadFits(moved, results, id, saved[id]) {
      assert ReadFits(invocations, results, id, saved[id]);
    }
  }

  lemma MovedEvolves(ch: Chain, k: nat, state: InvocationState)
    requires k in ch.invocations && Evolves(ch.record, ch.record) && ch.invocations[k].state.Open()
    requires !state.PreparedRow?
    ensures ChainEvolves(ch, ch.(invocations := Moved(ch.invocations, k, state)))
  {
    hide Evolves;
  }

  // ----- Claim -----

  lemma ClaimReceipts(h: Host, invocations: map<nat, Invocation>, results: map<nat, LookupResult>, k: nat)
    requires Receipts(h, invocations, results) && k in invocations && invocations[k].state.PreparedRow?
    ensures Receipts(h, Moved(invocations, k, ClaimedRow), results)
  {
    hide ParseResponse, Authorized, CheckId, PrintableText;
    var moved := Moved(invocations, k, ClaimedRow);
    forall j | j in results ensures j in moved && ReceiptFits(h, moved[j], results[j]) {
      assert ReceiptFits(h, invocations[j], results[j]);
    }
  }

  lemma ClaimBudget(r: Record, invocations: map<nat, Invocation>, results: map<nat, LookupResult>, k: nat)
    requires Rows(r, invocations) && Budget(invocations, results) && k in invocations
    requires invocations[k].state.PreparedRow?
    requires TotalInput(results) + invocations[k].packet.inputBytes <= invocations[0].packet.allowance.InputLimit()
    requires TotalOutput(results) + MAX_LOOKUP_ENVELOPE_BYTES <= invocations[0].packet.allowance.OutputLimit()
    ensures Budget(Moved(invocations, k, ClaimedRow), results)
  {
    hide RowFits, TotalInput, TotalOutput, Allowance.InputLimit, Allowance.OutputLimit, Allowance.Valid;
    forall j | j in invocations && j != k
      ensures !invocations[j].state.ClaimedRow?
    {
      if invocations[j].state.ClaimedRow? {
        OpenIsLast(r, invocations, j, k);
        OpenIsLast(r, invocations, k, j);
      }
    }
  }

  lemma ClaimRowKeeps(h: Host, ch: Chain, ordinal: nat)
    requires Sound(h, ch) && ch.record.run.status == Running && ordinal in ch.invocations
    ensures ChainKeeps(h, ch, ClaimRow(ch, ordinal).chain)
  {
    hide Good, Rows, Receipts, Evidence, Budget, Allowance.InputLimit, Allowance.OutputLimit, TotalInput, TotalOutput,
      Streamed;
    RefusedKeeps(h, ch);
    if ClaimRow(ch, ordinal).refusal.None? {
      MovedRows(ch.record, ch.invocations, ordinal, ClaimedRow);
      ClaimReceipts(h, ch.invocations, ch.results, ordinal);
      MovedEvidence(h, ch.invocations, ch.results, ch.saved, ordinal, ClaimedRow);
      RootAllowance(ch, ordinal);
      ClaimBudget(ch.record, ch.invocations, ch.results, ordinal);
      MovedEvolves(ch, ordinal, ClaimedRow);
    }
  }

  lemma RootAllowance(ch: Chain, k: nat)
    requires Rows(ch.record, ch.invocations) && k in ch.invocations
    ensures 0 in ch.invocations && ch.invocations[k].packet.allowance == ch.invocations[0].packet.allowance
    ensures ch.invocations[k].packet.binding == ch.invocations[0].packet.binding
  {
    assert RowFits(ch.invocations, k);
  }

  lemma ClaimKeeps(h: Host, ch: Chain, ordinal: nat, sourceEpoch: nat, policyEpoch: nat)
    requires Sound(h, ch)
    ensures ChainKeeps(h, ch, Claim(ch, ordinal, sourceEpoch, policyEpoch).chain)
  {
    hide Sound, ChainKeeps, ClaimRow, SealChain, DecimalText;
    RefusedKeeps(h, ch);
    if ordinal in ch.invocations && StartedError(ch.record.run.status).None? {
      SealReplyKeeps(h, ch, Failed, "context_stale",
        "lookup-stale-" + ch.record.run.owner.runId + "-" + DecimalText(ordinal), STALE_LOOKUP_MESSAGE);
      ClaimRowKeeps(h, ch, ordinal);
    }
  }

  // ----- Settle -----

  lemma {:induction false} ReadExchangesFrame(a: map<nat, LookupResult>, b: map<nat, LookupResult>,
                                              saved: map<string, ReadRow>, t: nat)
    requires forall k: nat :: k <= t ==> RequestsOf(a, k) == RequestsOf(b, k)
    ensures ReadExchanges(a, saved, t) == ReadExchanges(b, saved, t)
  {
    hide RequestsOf, RoundExchanges;
    if t > 0 {
      ReadExchangesFrame(a, b, saved, t - 1);
    }
  }

  lemma StoredReceipts(h: Host, invocations: map<nat, Invocation>, results: map<nat, LookupResult>, k: nat,
                       row: LookupResult)
    requires Receipts(h, invocations, results) && k in invocations && invocations[k].state.ClaimedRow?
    requires var state := SettledState(row.response, row.outcome, row.cleanup);
             ReceiptFits(h, invocations[k].(state := state), row)
    ensures Receipts(h, Moved(invocations, k, SettledState(row.response, row.outcome, row.cleanup)), results[k := row])
  {
    hide ParseResponse, Authorized, CheckId, PrintableText;
    var moved := Moved(invocations, k, SettledState(row.response, row.outcome, row.cleanup));
    forall j | j in results[k := row] ensures j in moved && ReceiptFits(h, moved[j], results[k := row][j]) {
      if j != k {
        assert ReceiptFits(h, invocations[j], results[j]);
      }
    }
  }

  lemma StoredEvidence(h: Host, r: Record, invocations: map<nat, Invocation>, results: map<nat, LookupResult>,
                       saved: map<string, ReadRow>, k: nat, row: LookupResult)
    requires Evidence(h, invocations, results, saved) && Rows(r, invocations)
    requires k in invocations && !invocations[k].state.NeedsContextRow?
    ensures Evidence(h, invocations, results[k := row], saved)
  {
    hide EvidenceAccepted, ReadExchanges, RowFits;
    forall id | id in saved ensures ReadFits(invocations, results[k := row], id, saved[id]) {
      assert ReadFits(invocations, results, id, saved[id]);
      OpenIsLast(r, invocations, k, saved[id].ordinal + 1);
    }
    forall j | j in invocations && j > 0
      ensures ReadExchanges(results[k := row], saved, j - 1) == Some(invocations[j].packet.exchanges)
    {
      OpenIsLast(r, invocations, k, j);
      ReadExchangesFrame(results, results[k := row], saved, j - 1);
    }
  }

  lemma StoredTotals(results: map<nat, LookupResult>, k: nat, row: LookupResult)
    requires k !in results && k <= 2
    ensures TotalInput(results[k := row]) == TotalInput(results) + row.confirmedStdinBytes
    ensures TotalOutput(results[k := row]) == TotalOutput(results) + Utf8Len(row.text)
  {
    hide Utf8Len;
  }

  /** The claim's reservation turns into the settled bytes; no other row is claimed. */
  lemma StoredBudget(r: Record, invocations: map<nat, Invocation>, results: map<nat, LookupResult>, k: nat,
                     state: InvocationState, row: LookupResult)
    requires Rows(r, invocations) && k in invocations && invocations[k].state.ClaimedRow? && k !in results
    requires !state.ClaimedRow?
    requires TotalInput(results) + row.confirmedStdinBytes <= invocations[0].packet.allowance.InputLimit()
    requires TotalOutput(results) + Utf8Len(row.text) <= invocations[0].packet.allowance.OutputLimit()
    ensures Budget(Moved(invocations, k, state), results[k := row])
  {
    hide Utf8Len, TotalInput, TotalOutput, Allowance.InputLimit, Allowance.OutputLimit, Allowance.Valid;
    assert RowFits(invocations, k);
    StoredTotals(results, k, row);
    hide RowFits;
    forall j | j in invocations && j != k
      ensures !invocations[j].state.ClaimedRow?
    {
      if invocations[j].state.ClaimedRow? {
        OpenIsLast(r, invocations, j, k);
        OpenIsLast(r, invocations, k, j);
      }
    }
  }

  lemma ResultRowFits(h: Host, i: Invocation, q: LookupReport)
    requires LookupShapeError(q).None? && i.packet.binding == q.binding
    requires q.confirmedStdinBytes <= i.packet.inputBytes
    requires q.status == ProviderCompleted ==> q.confirmedStdinBytes == i.packet.inputBytes
    ensures var row := ResultRow(i.packet, q, Response(h, i.packet, q));
            ReceiptFits(h, i.(state := SettledState(row.response, row.outcome, row.cleanup)), row)
  {
    hide ParseResponse, CheckId, PrintableText, Utf8Len;
  }

  ghost predicate Settles(h: Host, ch: Chain, ordinal: nat, q: LookupReport) {
    && ordinal in ch.invocations && ch.invocations[ordinal].state == ClaimedRow
    && LookupShapeError(q).None? && ch.invocations[ordinal].packet.binding == q.binding
    && ProviderBytesError(ch, ch.invocations[ordinal].packet, q).None?
  }

  function RowOf(h: Host, ch: Chain, ordinal: nat, q: LookupReport): LookupResult
    requires ordinal in ch.invocations
  {
    ResultRow(ch.invocations[ordinal].packet, q, Response(h, ch.invocations[ordinal].packet, q))
  }

  lemma StoreOutcomeKeeps(h: Host, ch: Chain, ordinal: nat, q: LookupReport)
    requires Sound(h, ch) && Settles(h, ch, ordinal, q)
    requires StoreOutcome(ch, ordinal, RowOf(h, ch, ordinal, q)).Some?
    ensures var stored := StoreOutcome(ch, ordinal, RowOf(h, ch, ordinal, q)).value;
            RowsSound(h, stored) && ChainEvolves(ch, stored)
  {
    hide Good, Rows, Receipts, Evidence, Budget, Allowance.InputLimit, Allowance.OutputLimit, TotalInput, TotalOutput,
      Streamed, LookupShapeError, SettledState, Response;
    var i, row := ch.invocations[ordinal], RowOf(h, ch, ordinal, q);
    var state := SettledState(row.response, row.outcome, row.cleanup);
    ResultRowFits(h, i, q);
    SettledIsNotOpen(row);
    StoredReceipts(h, ch.invocations, ch.results, ordinal, row);
    StoredEvidence(h, ch.record, ch.invocations, ch.results, ch.saved, ordinal, row);
    MovedEvidence(h, ch.invocations, ch.results[ordinal := row], ch.saved, ordinal, state);
    MovedRows(ch.record, ch.invocations, ordinal, state);
    RootAllowance(ch, ordinal);
    StoredBudget(ch.record, ch.invocations, ch.results, ordinal, state, row);
    MovedEvolves(ch, ordinal, state);
  }

  lemma SettledIsNotOpen(row: LookupResult)
    ensures !SettledState(row.response, row.outcome, row.cleanup).Open()
  {
  }

  lemma SealDiscussionKeeps(h: Host, ch: Chain, packetId: string, eventId: string, text: string)
    requires RecordSound(ch.record) && RowsSound(h, ch)
    requires SealDiscussion(ch, packetId, eventId, text).refusal.None?
    ensures var b := SealDiscussion(ch, packetId, eventId, text).chain;
            Sound(h, b) && ChainEvolves(ch, b) && b.record.run.status == Completed
  {
    hide Receipts, Evidence, Budget, RowFits, Utf8Len, TerminalShape, Log, Terminate;
    assert ch.record.run.outputText == "";
    TerminateKeeps(ch.record, Completed, eventId, text, text, None, Message(Assistant, text, Some(packetId)));
    hide Good, ActiveShape, ResultShape;
    assert ch.(record := SealDiscussion(ch, packetId, eventId, text).chain.record)
      == SealDiscussion(ch, packetId, eventId, text).chain;
  }

  lemma StoredProgress(ch: Chain, ordinal: nat, row: LookupResult)
    requires Progress(ch) && Storable(ch, ordinal, row) && ch.record.run.status == Running
    requires row.response.Some? && row.response.value.NeedsContext?
    ensures Progress(StoreOutcome(ch, ordinal, row).value)
  {
    hide ResultInsertable;
  }

  predicate Storable(ch: Chain, ordinal: nat, row: LookupResult) {
    ordinal in ch.invocations && StoreOutcome(ch, ordinal, row).Some?
  }

  lemma SettleClaimedKeeps(h: Host, ch: Chain, ordinal: nat, q: LookupReport)
    requires Sound(h, ch) && (ch.record.run.status == Running || ch.record.run.status == Stopping)
    requires ordinal in ch.invocations && LookupShapeError(q).None?
    ensures ChainKeeps(h, ch, SettleClaimed(h, ch, ordinal, q).chain)
  {
    hide RecordSound, RowsSound, Progress, ChainEvolves, LookupShapeError, SealChain, SealDiscussion, Response,
      StoreOutcome,
      ResultRow, ProviderBytesError, FailureNote, FailureStatus, FailureReason;
    RefusedKeeps(h, ch);
    if SettleClaimed(h, ch, ordinal, q).refusal.None? {
      var row := RowOf(h, ch, ordinal, q);
      var stored := StoreOutcome(ch, ordinal, row).value;
      StoreOutcomeKeeps(h, ch, ordinal, q);
      StoredRecord(ch, ordinal, row);
      ChainSelfEvolves(stored);
      ConcludeKeeps(h, ch, ordinal, stored, row, q);
      ChainEvolvesTrans(ch, stored, Conclude(stored, row, q).chain);
    }
  }

  lemma StoredRecord(ch: Chain, ordinal: nat, row: LookupResult)
    requires Storable(ch, ordinal, row)
    ensures StoreOutcome(ch, ordinal, row).value.record == ch.record
  {
  }

  lemma ConcludeKeeps(h: Host, ch: Chain, ordinal: nat, stored: Chain, row: LookupResult, q: LookupReport)
    requires RecordSound(stored.record) && RowsSound(h, stored) && Progress(ch) && ChainEvolves(stored, stored)
    requires stored.record == ch.record && (ch.record.run.status == Running || ch.record.run.status == Stopping)
    requires ordinal in ch.invocations && StoreOutcome(ch, ordinal, row) == Some(stored)
    requires Conclude(stored, row, q).refusal.None?
    ensures Sound(h, Conclude(stored, row, q).chain) && ChainEvolves(stored, Conclude(stored, row, q).chain)
  {
    hide RecordSound, RowsSound, Progress, ChainEvolves, SealChain, SealDiscussion, StoreOutcome, FailureNote,
      FailureReason;
    if row.response.None? {
      SealChainKeeps(h, stored, FailureStatus(q.status, q.cleanup), FailureReason(q.status, q.cleanup), q.eventId,
                     FailureNote(row, q));
    } else if stored.record.run.status == Stopping {
      SealChainKeeps(h, stored, StopStatus(q.cleanup),
        if q.cleanup == Unresolved then "stop_cleanup_unresolved" else "author_stopped", q.eventId,
        StopNote(q.cleanup));
    } else if row.response.value.Discussion? {
      SealDiscussionKeeps(h, stored, row.packetId, q.eventId, row.response.value.text);
    } else {
      StoredProgress(ch, ordinal, row);
    }
  }

  lemma SettleKeeps(h: Host, ch: Chain, ordinal: nat, q: LookupReport)
    requires Sound(h, ch)
    ensures ChainKeeps(h, ch, Settle(h, ch, ordinal, q).chain)
  {
    hide Sound, ChainKeeps, SettleClaimed, LookupShapeError, ResultMatches;
    RefusedKeeps(h, ch);
    if Settle(h, ch, ordinal, q).chain != ch {
      SettleClaimedKeeps(h, ch, ordinal, q);
    }
  }

  // ----- Advance -----

  predicate Extends(a: map<string, ReadRow>, b: map<string, ReadRow>) {
    forall id :: id in a ==> id in b && b[id] == a[id]
  }

  /** Rows already saved keep answering for their round. */
  lemma {:induction false} RoundExchangesGrow(a: map<string, ReadRow>, b: map<string, ReadRow>, ordinal: nat,
                                              requests: seq<LookupRead>)
    requires Extends(a, b) && RoundExchanges(a, ordinal, requests).Some?
    ensures RoundExchanges(b, ordinal, requests) == RoundExchanges(a, ordinal, requests)
  {
    if requests != [] {
      RoundExchangesGrow(a, b, ordinal, requests[..|requests| - 1]);
    }
  }

  lemma {:induction false} ReadExchangesGrow(results: map<nat, LookupResult>, a: map<string, ReadRow>,
                                             b: map<string, ReadRow>, t: nat)
    requires Extends(a, b) && ReadExchanges(results, a, t).Some?
    ensures ReadExchanges(results, b, t) == ReadExchanges(results, a, t)
  {
    hide Extends, RoundExchanges;
    RoundExchangesGrow(a, b, t, RequestsOf(results, t));
    if t > 0 {
      ReadExchangesGrow(results, a, b, t - 1);
    }
  }

  lemma {:induction false} ReadExchangesPrefix(results: map<nat, LookupResult>, saved: map<string, ReadRow>, t: nat,
                                               u: nat)
    requires t <= u && ReadExchanges(results, saved, u).Some?
    ensures ReadExchanges(results, saved, t).Some?
    ensures ReadExchanges(results, saved, t).value <= ReadExchanges(results, saved, u).value
  {
    hide RoundExchanges;
    if t < u {
      ReadExchangesPrefix(results, saved, t, u - 1);
    }
  }

  ghost predicate FreshIds(saved: map<string, ReadRow>, requests: seq<LookupRead>) {
    DistinctIds(requests) && forall i :: 0 <= i < |requests| ==> requests[i].id !in saved
  }

  /** The rows of b are those of saved and one new row a request. */
  ghost predicate RoundStored(saved: map<string, ReadRow>, b: map<string, ReadRow>, ordinal: nat,
                              requests: seq<LookupRead>, answer: LookupRead -> Answer)
  {
    && Extends(saved, b)
    && (forall i :: 0 <= i < |requests| ==>
          requests[i].id in b && b[requests[i].id] == ReadRow(ordinal, requests[i], answer(requests[i])))
    && (forall id :: id in b && id !in saved ==> HasId(requests, id))
  }

  ghost predicate HasId(requests: seq<LookupRead>, id: string) {
    exists i :: 0 <= i < |requests| && requests[i].id == id
  }

  /** Storing a round of new ids adds exactly one row a request. */
  lemma {:induction false} StoreReadsFresh(saved: map<string, ReadRow>, ordinal: nat, requests: seq<LookupRead>,
                                           answer: LookupRead -> Answer)
    requires FreshIds(saved, requests)
    ensures StoreReads(saved, ordinal, requests, answer).Some?
    ensures RoundStored(saved, StoreReads(saved, ordinal, requests, answer).value, ordinal, requests, answer)
  {
    if requests != [] {
      var n := |requests| - 1;
      var init := requests[..n];
      FreshPrefix(saved, requests);
      StoreReadsFresh(saved, ordinal, init, answer);
      var b := StoreReads(saved, ordinal, init, answer).value;
      RoundStoredSnoc(saved, b, ordinal, requests, answer);
    }
  }

  lemma FreshPrefix(saved: map<string, ReadRow>, requests: seq<LookupRead>)
    requires FreshIds(saved, requests) && requests != []
    ensures FreshIds(saved, requests[..|requests| - 1])
  {
  }

  lemma RoundStoredSnoc(saved: map<string, ReadRow>, b: map<string, ReadRow>, ordinal: nat, requests: seq<LookupRead>,
                        answer: LookupRead -> Answer)
    requires FreshIds(saved, requests) && requests != []
    requires RoundStored(saved, b, ordinal, requests[..|requests| - 1], answer)
    ensures var last := requests[|requests| - 1];
            last.id !in b && RoundStored(saved, b[last.id := ReadRow(ordinal, last, answer(last))], ordinal, requests,
                                         answer)
  {
    hide HasId;
    var last, init := requests[|requests| - 1], requests[..|requests| - 1];
    forall id | HasId(init, id)
      ensures HasId(requests, id) && id != last.id
    {
      HasIdPrefix(requests, id);
    }
    HasLast(requests);
  }

  lemma HasIdPrefix(requests: seq<LookupRead>, id: string)
    requires requests != [] && HasId(requests[..|requests| - 1], id) && DistinctIds(requests)
    ensures HasId(requests, id) && id != requests[|requests| - 1].id
  {
    var init := requests[..|requests| - 1];
    var i :| 0 <= i < |init| && init[i].id == id;
    assert requests[i].id == id;
  }

  lemma HasLast(requests: seq<LookupRead>)
    requires requests != []
    ensures HasId(requests, requests[|requests| - 1].id)
  {
  }

  lemma {:induction false} RoundOfStored(saved: map<string, ReadRow>, ordinal: nat, requests: seq<LookupRead>,
                                         answer: LookupRead -> Answer)
    requires forall i :: 0 <= i < |requests| ==>
      requests[i].id in saved && saved[requests[i].id] == ReadRow(ordinal, requests[i], answer(requests[i]))
    ensures RoundExchanges(saved, ordinal, requests) == Some(Answered(requests, answer))
  {
    if requests == [] {
      assert Answered(requests, answer) == [];
    } else {
      var init := requests[..|requests| - 1];
      assert forall i :: 0 <= i < |init| ==> init[i] == requests[i];
      RoundOfStored(saved, ordinal, init, answer);
      assert Answered(requests, answer) == Answered(init, answer)
        + [Exchange(requests[|requests| - 1], answer(requests[|requests| - 1]).result)];
    }
  }

  /** Accepted evidence has no id twice, so an expanded round never reuses one. */
  lemma AcceptedIdsFresh(h: Host, r: Record, invocations: map<nat, Invocation>, results: map<nat, LookupResult>,
                         saved: map<string, ReadRow>, k: nat, requests: seq<LookupRead>, answer: LookupRead -> Answer,
                         earlier: seq<Exchange>)
    requires Rows(r, invocations) && Evidence(h, invocations, results, saved) && k in invocations
    requires k + 1 !in invocations
    requires earlier == (if k == 0 then [] else invocations[k].packet.exchanges)
    requires DistinctExchanges(earlier + Answered(requests, answer))
    ensures FreshIds(saved, requests)
  {
    hide Rows, Evidence, DistinctExchanges, DistinctIds;
    RoundDistinct(earlier, requests, answer);
    forall i | 0 <= i < |requests|
      ensures requests[i].id !in saved
    {
      if requests[i].id in saved {
        SavedInEarlier(h, r, invocations, results, saved, k, requests[i].id);
      }
    }
  }

  lemma RoundDistinct(earlier: seq<Exchange>, requests: seq<LookupRead>, answer: LookupRead -> Answer)
    requires DistinctExchanges(earlier + Answered(requests, answer))
    ensures DistinctIds(requests)
    ensures forall j, i :: 0 <= j < |earlier| && 0 <= i < |requests| ==> earlier[j].request.id != requests[i].id
  {
    var n, all := |earlier|, earlier + Answered(requests, answer);
    assert forall i :: 0 <= i < |requests| ==> all[n + i].request == requests[i];
    assert forall j :: 0 <= j < n ==> all[j] == earlier[j];
    forall j, i | 0 <= j < n && 0 <= i < |requests|
      ensures earlier[j].request.id != requests[i].id
    {
      assert all[j].request.id != all[n + i].request.id;
    }
    forall i, j | 0 <= i < j < |requests|
      ensures requests[i].id != requests[j].id
    {
      assert all[n + i].request.id != all[n + j].request.id;
    }
  }

  /** Every saved read is one of the exchanges the last packet already carries. */
  lemma SavedInEarlier(h: Host, r: Record, invocations: map<nat, Invocation>, results: map<nat, LookupResult>,
                       saved: map<string, ReadRow>, k: nat, id: string)
    requires Rows(r, invocations) && Evidence(h, invocations, results, saved) && k in invocations
    requires k + 1 !in invocations
    requires id in saved
    ensures k > 0 && exists j ::
      0 <= j < |invocations[k].packet.exchanges| && invocations[k].packet.exchanges[j].request.id == id
  {
    hide EvidenceAccepted, ReadExchanges, RequestsOf;
    assert ReadFits(invocations, results, id, saved[id]);
    var o := saved[id].ordinal;
    NoGap(r, invocations, k, o + 1);
    ReadExchangesPrefix(results, saved, o, k - 1);
    var exchanges := invocations[o + 1].packet.exchanges;
    var j :| 0 <= j < |exchanges| && exchanges[j] == Exchange(saved[id].request, saved[id].answer.result);
    assert ReadExchanges(results, saved, o) == Some(exchanges);
    assert exchanges <= invocations[k].packet.exchanges;
    assert invocations[k].packet.exchanges[j].request.id == id;
  }

  lemma NoGap(r: Record, invocations: map<nat, Invocation>, k: nat, j: nat)
    requires Rows(r, invocations) && k + 1 !in invocations && j in invocations
    ensures j <= k
  {
    hide Allowance.Valid;
    assert RowFits(invocations, j);
  }

  lemma ChildRows(r: Record, invocations: map<nat, Invocation>, k: nat, child: Invocation)
    requires Rows(r, invocations) && k in invocations && k + 1 !in invocations && k + 1 <= 2
    requires invocations[k].state.NeedsContextRow? && PacketIdUnused(invocations, child.packet.packetId)
    requires child.frozen == invocations[k].frozen && child.packet.completed == k + 1
    requires child.packet.binding == invocations[k].packet.binding
    requires child.packet.allowance == invocations[k].packet.allowance
    requires child.packet.reviewedMemory == invocations[k].packet.reviewedMemory
    requires k + 1 <= child.packet.allowance.maxAdditional
    ensures Rows(r, invocations[k + 1 := child])
  {
    hide Allowance.Valid;
    var b := invocations[k + 1 := child];
    assert RowFits(invocations, k);
    forall j | j in b ensures RowFits(b, j) {
      if j != k + 1 {
        assert RowFits(invocations, j);
      }
    }
  }

  lemma ChildReceipts(h: Host, invocations: map<nat, Invocation>, results: map<nat, LookupResult>, k: nat,
                      child: Invocation)
    requires Receipts(h, invocations, results) && k !in invocations && child.state.PreparedRow?
    ensures Receipts(h, invocations[k := child], results)
  {
    hide ReceiptFits;
  }

  lemma ChildEvidence(h: Host, r: Record, invocations: map<nat, Invocation>, results: map<nat, LookupResult>,
                      saved: map<string, ReadRow>, b: map<string, ReadRow>, k: nat, child: Invocation,
                      answer: LookupRead -> Answer)
    requires Rows(r, invocations) && Evidence(h, invocations, results, saved) && k in invocations
    requires k + 1 !in invocations
    requires RoundStored(saved, b, k, RequestsOf(results, k), answer)
    requires var earlier := if k == 0 then [] else invocations[k].packet.exchanges;
             child.packet.exchanges == earlier + Answered(RequestsOf(results, k), answer)
    requires EvidenceAccepted(h, child.packet)
    ensures Evidence(h, invocations[k + 1 := child], results, b)
  {
    hide EvidenceAccepted, Rows, RequestsOf, Answered, RoundStored, ReadFits, ReadExchanges;
    var next := invocations[k + 1 := child];
    forall j | j in next && j > 0
      ensures ReadExchanges(results, b, j - 1) == Some(next[j].packet.exchanges)
    {
      if j == k + 1 {
        ChildExchanges(h, invocations, results, saved, b, k, answer);
      } else {
        StoredExtends(saved, b, k, RequestsOf(results, k), answer);
        ReadExchangesGrow(results, saved, b, j - 1);
      }
    }
    ChildReads(h, invocations, results, saved, b, k, child, answer);
  }

  lemma StoredExtends(saved: map<string, ReadRow>, b: map<string, ReadRow>, ordinal: nat,
                      requests: seq<LookupRead>, answer: LookupRead -> Answer)
    requires RoundStored(saved, b, ordinal, requests, answer)
    ensures Extends(saved, b)
  {
  }

  /** The child's exchanges are the earlier ones and this round's answers. */
  lemma ChildExchanges(h: Host, invocations: map<nat, Invocation>, results: map<nat, LookupResult>,
                       saved: map<string, ReadRow>, b: map<string, ReadRow>, k: nat, answer: LookupRead -> Answer)
    requires Evidence(h, invocations, results, saved) && k in invocations
    requires RoundStored(saved, b, k, RequestsOf(results, k), answer)
    ensures ReadExchanges(results, b, k)
         == Some((if k == 0 then [] else invocations[k].packet.exchanges) + Answered(RequestsOf(results, k), answer))
  {
    hide EvidenceAccepted, RequestsOf, Extends, ReadFits, Answered, RoundExchanges;
    RoundOfStored(b, k, RequestsOf(results, k), answer);
    hide RoundStored;
    StoredExtends(saved, b, k, RequestsOf(results, k), answer);
    if k > 0 {
      ReadExchangesGrow(results, saved, b, k - 1);
    }
  }

  lemma ChildReads(h: Host, invocations: map<nat, Invocation>, results: map<nat, LookupResult>,
                   saved: map<string, ReadRow>, b: map<string, ReadRow>, k: nat, child: Invocation,
                   answer: LookupRead -> Answer)
    requires Evidence(h, invocations, results, saved) && k + 1 !in invocations
    requires RoundStored(saved, b, k, RequestsOf(results, k), answer)
    requires forall i :: 0 <= i < |RequestsOf(results, k)| ==>
      Answered(RequestsOf(results, k), answer)[i] in child.packet.exchanges
    ensures forall id :: id in b ==> ReadFits(invocations[k + 1 := child], results, id, b[id])
  {
    hide EvidenceAccepted, ReadExchanges, RequestsOf;
    var requests := RequestsOf(results, k);
    forall id | id in b ensures ReadFits(invocations[k + 1 := child], results, id, b[id]) {
      if id in saved {
        assert ReadFits(invocations, results, id, saved[id]);
      } else {
        assert HasId(requests, id);
        var i :| 0 <= i < |requests| && requests[i].id == id;
        assert Answered(requests, answer)[i] == Exchange(b[id].request, b[id].answer.result);
      }
    }
  }

  lemma ExpandKeeps(h: Host, ch: Chain, completed: nat, answer: LookupRead -> Answer, compiled: Option<Compiled>)
    requires Sound(h, ch) && ch.record.run.status == Running && completed in ch.invocations
    requires ch.invocations[completed].state.NeedsContextRow?
    ensures ChainKeeps(h, ch, Expand(h, ch, completed, answer, compiled).chain)
  {
    hide RecordSound, Rows, Receipts, Evidence, Budget, EvidenceAccepted, AuthorizedRead, StoreReads, RequestsOf,
      PacketIdUnused, Answered, ReadExchanges, RoundStored, FreshIds, DistinctExchanges, Evolves;
    RefusedKeeps(h, ch);
    var reply := Expand(h, ch, completed, answer, compiled);
    if reply.refusal.None? {
      var b := reply.chain;
      var child := b.invocations[completed + 1];
      var requests := RequestsOf(ch.results, completed);
      if completed > 0 { EarlierExchanges(h, ch, completed); }
      AcceptedFacts(h, child.packet);
      AcceptedIdsFresh(h, ch.record, ch.invocations, ch.results, ch.saved, completed, requests, answer,
        if completed == 0 then [] else ch.invocations[completed].packet.exchanges);
      StoreReadsFresh(ch.saved, completed, requests, answer);
      ChildEvidence(h, ch.record, ch.invocations, ch.results, ch.saved, b.saved, completed, child, answer);
      ChildRows(ch.record, ch.invocations, completed, child);
      ChildReceipts(h, ch.invocations, ch.results, completed + 1, child);
      ChildBudget(ch, completed, child);
      StoredExtends(ch.saved, b.saved, completed, requests, answer);
    }
  }

  lemma AcceptedFacts(h: Host, packet: LookupPacket)
    requires EvidenceAccepted(h, packet)
    ensures packet.completed <= packet.allowance.maxAdditional && DistinctExchanges(packet.exchanges)
  {
  }

  lemma ChildBudget(ch: Chain, k: nat, child: Invocation)
    requires Rows(ch.record, ch.invocations) && Budget(ch.invocations, ch.results) && k + 1 !in ch.invocations
    requires child.state.PreparedRow?
    ensures Budget(ch.invocations[k + 1 := child], ch.results)
  {
    hide TotalInput, TotalOutput;
  }

  lemma EarlierExchanges(h: Host, ch: Chain, k: nat)
    requires Evidence(h, ch.invocations, ch.results, ch.saved) && k in ch.invocations && k > 0
    ensures ReadExchanges(ch.results, ch.saved, k - 1) == Some(ch.invocations[k].packet.exchanges)
  {
  }

  lemma AdvanceKeeps(h: Host, ch: Chain, completed: nat, sourceEpoch: nat, answer: LookupRead -> Answer,
                     compiled: Option<Compiled>)
    requires Sound(h, ch)
    ensures ChainKeeps(h, ch, Advance(h, ch, completed, sourceEpoch, answer, compiled).chain)
  {
    hide Sound, ChainKeeps, Expand, SealChain, DecimalText;
    RefusedKeeps(h, ch);
    SealReplyKeeps(h, ch, Failed, "lookup_limit", "lookup-limit-" + DecimalText(completed), LIMIT_MESSAGE);
    SealReplyKeeps(h, ch, Failed, "context_stale", "lookup-stale-" + DecimalText(completed), STALE_EXPANSION_MESSAGE);
    if completed in ch.invocations && ch.record.run.status == Running
       && ch.invocations[completed].state.NeedsContextRow? {
      ExpandKeeps(h, ch, completed, answer, compiled);
    }
  }

  // ----- Halt, reopen and the run commands -----

  lemma HaltKeeps(h: Host, ch: Chain, reason: string)
    requires Sound(h, ch)
    ensures ChainKeeps(h, ch, Halt(ch, reason).chain)
  {
    hide Sound, ChainKeeps, SealChain, DecimalText;
    RefusedKeeps(h, ch);
    SealReplyKeeps(h, ch, Interrupted, "lookup_halted", "lookup-halt-" + DecimalText(ch.record.run.sequence), reason);
  }

  lemma ReopenKeeps(h: Host, ch: Chain)
    requires Sound(h, ch)
    ensures ChainKeeps(h, ch, Reopen(ch).chain)
  {
    hide Sound, ChainKeeps, SealChain;
    RefusedKeeps(h, ch);
    SealReplyKeeps(h, ch, Interrupted, "project_reopened", INTERRUPTED_PREFIX + ch.record.run.owner.runId,
                   REOPENED_MESSAGE);
  }

  /** The run protocol adds an event to a lookup run only when it seals it. */
  lemma ApplyAddsNoChunk(r: Record, c: Command)
    requires r.run.lookup && !c.Start? && !c.Recover?
    ensures Apply(r, c).record.run.status.Active() ==> Apply(r, c).record.events == r.events
  {
    hide FindEvent, Utf8Len, FinalOutputError, BoundedNote, CheckId, Trim, FailureText, Insertable, SettlementError;
  }

  lemma InterruptEnds(r: Record, c: Command)
    requires c.InterruptActive? && Apply(r, c).error.None?
    ensures Apply(r, c).record.run.status.Terminal()
  {
    hide BoundedNote, CheckId, Insertable;
  }

  lemma RecordReplaced(h: Host, ch: Chain, b: Record)
    requires RowsSound(h, ch) && SameIdentity(ch.record.run, b.run)
    ensures RowsSound(h, ch.(record := b))
  {
    hide RowFits, Receipts, Evidence, Budget;
  }

  lemma EvolvedIdentity(a: Record, b: Record)
    requires Evolves(a, b)
    ensures SameIdentity(a.run, b.run) && a.run.status.Rank() <= b.run.status.Rank()
  {
  }

  lemma PlainKeeps(h: Host, ch: Chain, identity: Access, c: Command)
    requires Sound(h, ch) && !c.Start? && !c.Recover?
    ensures ChainKeeps(h, ch, Plain(ch, identity, c).chain)
  {
    hide Good, RowsSound, Apply, Precheck;
    RefusedKeeps(h, ch);
    if Precheck(identity, c).None? {
      hide Evolves;
      var b := Apply(ch.record, c).record;
      ApplyKeeps(ch.record, c, identity);
      ApplyAddsNoChunk(ch.record, c);
      if c.InterruptActive? && Apply(ch.record, c).error.None? { InterruptEnds(ch.record, c); }
      EvolvedIdentity(ch.record, b);
      RecordReplaced(h, ch, b);
      MarkStoppedKeeps(h, ch, b);
      MarkStoppedEvolves(ch, b);
      hide MarkStopped;
    }
  }

  lemma ChainStepKeeps(h: Host, ch: Chain, c: RunChainCommand)
    requires Sound(h, ch)
    ensures ChainKeeps(h, ch, ChainStep(h, ch, c).chain)
  {
    hide Sound, ChainKeeps, Claim, Settle, Advance, Halt, Reopen, Plain;
    match c
    case ClaimInvocation(ordinal, sourceEpoch, policyEpoch) => ClaimKeeps(h, ch, ordinal, sourceEpoch, policyEpoch);
    case SettleInvocation(ordinal, q) => SettleKeeps(h, ch, ordinal, q);
    case AdvanceLookup(ordinal, sourceEpoch, answer, compiled) =>
      AdvanceKeeps(h, ch, ordinal, sourceEpoch, answer, compiled);
    case HaltLookup(reason) => HaltKeeps(h, ch, reason);
    case ReopenProject => ReopenKeeps(h, ch);
    case RunCommand(identity, command) => PlainKeeps(h, ch, identity, command);
  }

  /** Over every sequence of commands: ordinals stay contiguous and at most two, every
      invocation but the last asked for context, each state is the one its immutable
      result implies, each child carries exactly its predecessors' exchanges, settled
      and reserved bytes stay within the allowance, and nothing settled is rewritten. */
  lemma {:induction false} EveryChainKeeps(h: Host, ch: Chain, commands: seq<RunChainCommand>)
    requires Sound(h, ch)
    ensures ChainKeeps(h, ch, RunChain(h, ch, commands))
    decreases |commands|
  {
    hide Sound, ChainEvolves, ChainStep;
    RefusedKeeps(h, ch);
    if commands != [] {
      ChainStepKeeps(h, ch, commands[0]);
      var next := ChainStep(h, ch, commands[0]).chain;
      EveryChainKeeps(h, next, commands[1..]);
      ChainEvolvesTrans(ch, next, RunChain(h, ch, commands));
    }
  }

  lemma StartedSound(h: Host, ch: Chain, c: Command, packet: LookupPacket, frozen: Frozen)
    requires Started(ch, c, packet, frozen)
    ensures Sound(h, ch)
  {
    hide Utf8Len, PositiveDecimal, Canonical, Value;
    NewRecordGood(c);
  }
}
