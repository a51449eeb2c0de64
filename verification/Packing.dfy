/** The last stage of packet compilation: whole blocks of the optional sources are added
    in source and block order until the first that does not fit. */
module Packing {
  import opened Wrappers

  /** A source in a packet: whole, or its first blocks. */
  datatype Selected = Selected(handle: string, mandatory: bool, blocks: Option<nat>)

  datatype Omission =
    | SourceOmitted(handle: string, blocks: nat)
    | BlocksOmitted(handle: string, remaining: nat)
    | Other(note: string)

  datatype Packet = Packet(inputTokens: nat, content: string)

  /** Why a selection could not be serialized and priced. */
  datatype Error = InvalidRequest(message: string) | Budget(message: string)

  /** What the earlier stages fixed: the mandatory sources, the optional handles in
      stable order with their block counts, and the omissions already decided. */
  datatype Stage = Stage(mandatory: seq<Selected>, optional: seq<string>, total: string -> nat,
                         directory: seq<Omission>, navigation: seq<Omission>)

  /** Serializing a selection and pricing it, or failing. */
  type Builder = (seq<Selected>, seq<Omission>) -> Result<Packet, Error>

  ghost predicate Distinct(s: Stage) {
    && (forall i, j :: 0 <= i < j < |s.optional| ==> s.optional[i] != s.optional[j])
    && (forall i, j :: 0 <= i < j < |s.mandatory| ==> s.mandatory[i].handle != s.mandatory[j].handle)
    && (forall i, j :: 0 <= i < |s.mandatory| && 0 <= j < |s.optional| ==> s.mandatory[i].handle != s.optional[j])
  }

  function OptionalOmissions(optional: seq<string>, total: string -> nat, counts: map<string, nat>): seq<Omission> {
    if optional == [] then []
    else
      var h := optional[|optional| - 1];
      var n := if h in counts then counts[h] else 0;
      OptionalOmissions(optional[..|optional| - 1], total, counts)
        + (if n == 0 then [SourceOmitted(h, total(h))]
           else if n < total(h) then [BlocksOmitted(h, total(h) - n)]
           else [])
  }

  function Omissions(s: Stage, counts: map<string, nat>): seq<Omission> {
    OptionalOmissions(s.optional, s.total, counts) + s.directory + s.navigation
  }

  function Without(selected: seq<Selected>, handle: string): seq<Selected> {
    if selected == [] then []
    else
      Without(selected[..|selected| - 1], handle)
        + (if selected[|selected| - 1].handle == handle then [] else [selected[|selected| - 1]])
  }

  // ----- Positions: the first i sources whole and c blocks of the next -----

  predicate At(s: Stage, i: nat, c: nat) {
    i <= |s.optional| && (if i < |s.optional| then c <= s.total(s.optional[i]) else c == 0)
  }

  predicate Before(i: nat, c: nat, j: nat, d: nat) {
    i < j || (i == j && c <= d)
  }

  function CountsAt(s: Stage, i: nat, c: nat): map<string, nat>
    requires i <= |s.optional| && (i == |s.optional| ==> c == 0)
  {
    if c > 0 then CountsAt(s, i, 0)[s.optional[i] := c]
    else if i == 0 then map[]
    else CountsAt(s, i - 1, s.total(s.optional[i - 1]))
  }

  function SelectionAt(s: Stage, i: nat, c: nat): seq<Selected>
    requires i <= |s.optional| && (i == |s.optional| ==> c == 0)
  {
    if c > 0 then SelectionAt(s, i, 0) + [Selected(s.optional[i], false, Some(c))]
    else if i == 0 then s.mandatory
    else SelectionAt(s, i - 1, s.total(s.optional[i - 1]))
  }

  function BuildAt(s: Stage, build: Builder, i: nat, c: nat): Result<Packet, Error>
    requires i <= |s.optional| && (i == |s.optional| ==> c == 0)
  {
    build(SelectionAt(s, i, c), Omissions(s, CountsAt(s, i, c)))
  }

  datatype Stop = StoppedAt(source: nat, blocks: nat) | BuildFailed(error: Error)

  /** Where packing stops, with i sources and c blocks already accepted. */
  function PackFrom(s: Stage, build: Builder, available: nat, i: nat, c: nat): Stop
    requires At(s, i, c)
    decreases |s.optional| - i, if i < |s.optional| then s.total(s.optional[i]) - c else 0
  {
    if i == |s.optional| then StoppedAt(i, 0)
    else if c == s.total(s.optional[i]) then PackFrom(s, build, available, i + 1, 0)
    else match BuildAt(s, build, i, c + 1)
      case Err(e) => BuildFailed(e)
      case Ok(p) => if p.inputTokens <= available then PackFrom(s, build, available, i, c + 1) else StoppedAt(i, c)
  }

  function PackAll(s: Stage, build: Builder, available: nat): Stop {
    PackFrom(s, build, available, 0, 0)
  }

  // ----- First failure -----

  predicate Accepted(s: Stage, build: Builder, available: nat, i: nat, c: nat)
    requires At(s, i, c)
  {
    BuildAt(s, build, i, c).Ok? && BuildAt(s, build, i, c).value.inputTokens <= available
  }

  /** Every candidate after (i, c) up to (j, d) was built and fits. */
  ghost predicate AllAccepted(s: Stage, build: Builder, available: nat, i: nat, c: nat, j: nat, d: nat) {
    forall a: nat, b: nat :: At(s, a, b) && b > 0 && Before(i, c, a, b) && !(a == i && b == c) && Before(a, b, j, d) ==>
      Accepted(s, build, available, a, b)
  }

  /** Nothing is left, or the next block was built and does not fit. */
  predicate Full(s: Stage, build: Builder, available: nat, j: nat, d: nat) {
    j <= |s.optional|
    && (j == |s.optional| ==> d == 0)
    && (j < |s.optional| ==>
          && d < s.total(s.optional[j])
          && BuildAt(s, build, j, d + 1).Ok? && BuildAt(s, build, j, d + 1).value.inputTokens > available)
  }

  /** The packer stops at (j, d) exactly when every block up to it fits and the next one,
      if there is one, does not: a first-failure prefix, for any cost function. */
  lemma {:induction false} PackingIsFirstFailure(s: Stage, build: Builder, available: nat, i: nat, c: nat, j: nat,
                                                 d: nat)
    requires At(s, i, c) && At(s, j, d) && Before(i, c, j, d)
    ensures PackFrom(s, build, available, i, c) == StoppedAt(j, d)
       <==> AllAccepted(s, build, available, i, c, j, d) && Full(s, build, available, j, d)
    decreases |s.optional| - i, if i < |s.optional| then s.total(s.optional[i]) - c else 0
  {
    hide BuildAt;
    if i < |s.optional| {
      if c == s.total(s.optional[i]) {
        if i < j {
          PackingIsFirstFailure(s, build, available, i + 1, 0, j, d);
          assert AllAccepted(s, build, available, i, c, j, d) <==> AllAccepted(s, build, available, i + 1, 0, j, d);
        } else {
          PackStopsLater(s, build, available, i + 1, 0);
        }
      } else if Accepted(s, build, available, i, c + 1) {
        if i == j && c == d {
          PackStopsLater(s, build, available, i, c + 1);
        } else {
          PackingIsFirstFailure(s, build, available, i, c + 1, j, d);
        }
      } else if !(i == j && c == d) {
        assert At(s, i, c + 1) && Before(i, c + 1, j, d);
      }
    }
  }

  /** Packing never stops before where it stands. */
  lemma {:induction false} PackStopsLater(s: Stage, build: Builder, available: nat, i: nat, c: nat)
    requires At(s, i, c)
    ensures var stop := PackFrom(s, build, available, i, c);
            stop.StoppedAt? ==> At(s, stop.source, stop.blocks) && Before(i, c, stop.source, stop.blocks)
    decreases |s.optional| - i, if i < |s.optional| then s.total(s.optional[i]) - c else 0
  {
    hide BuildAt;
    if i < |s.optional| {
      if c == s.total(s.optional[i]) {
        PackStopsLater(s, build, available, i + 1, 0);
      } else if Accepted(s, build, available, i, c + 1) {
        PackStopsLater(s, build, available, i, c + 1);
      }
    }
  }

  /** A larger budget never stops earlier: it extends the prefix, or it reaches a later
      block that cannot be built at all. */
  lemma {:induction false} LargerBudgetExtends(s: Stage, build: Builder, less: nat, more: nat, i: nat, c: nat)
    requires At(s, i, c) && less <= more
    ensures var a, b := PackFrom(s, build, less, i, c), PackFrom(s, build, more, i, c);
            && (a.BuildFailed? ==> b == a)
            && (a.StoppedAt? && b.StoppedAt? ==> Before(a.source, a.blocks, b.source, b.blocks))
    decreases |s.optional| - i, if i < |s.optional| then s.total(s.optional[i]) - c else 0
  {
    hide BuildAt;
    if i < |s.optional| {
      if c == s.total(s.optional[i]) {
        LargerBudgetExtends(s, build, less, more, i + 1, 0);
      } else if Accepted(s, build, less, i, c + 1) {
        LargerBudgetExtends(s, build, less, more, i, c + 1);
      } else if Accepted(s, build, more, i, c + 1) {
        PackStopsLater(s, build, more, i, c + 1);
      }
    }
  }

  // ----- What the selection holds -----

  /** Blocks of an optional source selected at a position. */
  function BlocksOf(s: Stage, i: nat, c: nat, k: nat): nat
    requires k < |s.optional|
  {
    if k < i then s.total(s.optional[k]) else if k == i then c else 0
  }

  lemma {:induction false} CountsAtExact(s: Stage, i: nat, c: nat, k: nat)
    requires Distinct(s) && At(s, i, c) && k < |s.optional|
    ensures var counts, n := CountsAt(s, i, c), BlocksOf(s, i, c, k);
            if n == 0 then s.optional[k] !in counts else s.optional[k] in counts && counts[s.optional[k]] == n
    decreases i, c
  {
    if c > 0 {
      CountsAtExact(s, i, 0, k);
    } else if i > 0 {
      CountsAtExact(s, i - 1, s.total(s.optional[i - 1]), k);
    }
  }

  /** So a larger budget keeps at least the blocks of every source that a smaller one did. */
  lemma LargerBudgetKeepsBlocks(s: Stage, build: Builder, less: nat, more: nat, k: nat)
    requires less <= more && k < |s.optional|
    ensures var a, b := PackAll(s, build, less), PackAll(s, build, more);
            a.StoppedAt? && b.StoppedAt? ==> BlocksOf(s, a.source, a.blocks, k) <= BlocksOf(s, b.source, b.blocks, k)
  {
    hide PackFrom;
    LargerBudgetExtends(s, build, less, more, 0, 0);
    PackStopsLater(s, build, less, 0, 0);
    PackStopsLater(s, build, more, 0, 0);
  }

  /** Each source appears once: a mandatory one whole, an optional one by its first
      blocks, and nothing else. */
  lemma {:induction false} SelectionIsBlockPrefixes(s: Stage, i: nat, c: nat, x: Selected)
    requires Distinct(s) && At(s, i, c)
    ensures x in SelectionAt(s, i, c) <==>
      x in s.mandatory || exists k :: 0 <= k < |s.optional| && BlocksOf(s, i, c, k) > 0
                            && x == Selected(s.optional[k], false, Some(BlocksOf(s, i, c, k)))
    decreases i, c
  {
    if c > 0 {
      SelectionIsBlockPrefixes(s, i, 0, x);
      SelectedMore(s, i, c, x);
    } else if i > 0 {
      SelectionIsBlockPrefixes(s, i - 1, s.total(s.optional[i - 1]), x);
      assert forall k :: 0 <= k < |s.optional| ==>
        BlocksOf(s, i, 0, k) == BlocksOf(s, i - 1, s.total(s.optional[i - 1]), k);
    }
  }

  lemma SelectedMore(s: Stage, i: nat, c: nat, x: Selected)
    requires At(s, i, c) && c > 0
    ensures (exists k ::
             0 <= k < |s.optional| && BlocksOf(s, i, c, k) > 0
               && x == Selected(s.optional[k], false, Some(BlocksOf(s, i, c, k))))
       <==> (x == Selected(s.optional[i], false, Some(c))
             || exists k :: 0 <= k < |s.optional| && BlocksOf(s, i, 0, k) > 0
                  && x == Selected(s.optional[k], false, Some(BlocksOf(s, i, 0, k))))
  {
    assert BlocksOf(s, i, c, i) == c;
    assert forall k :: 0 <= k < |s.optional| && k != i ==> BlocksOf(s, i, c, k) == BlocksOf(s, i, 0, k);
  }

  ghost predicate HandlesDistinct(all: seq<Selected>) {
    forall a, b :: 0 <= a < b < |all| ==> all[a].handle != all[b].handle
  }

  lemma {:induction false} SelectionHandlesDistinct(s: Stage, i: nat, c: nat)
    requires Distinct(s) && At(s, i, c)
    ensures HandlesDistinct(SelectionAt(s, i, c))
    decreases i, c
  {
    if c > 0 {
      SelectionHandlesDistinct(s, i, 0);
      AbsentHandle(s, i, 0, i);
      var init, all := SelectionAt(s, i, 0), SelectionAt(s, i, c);
      assert all == init + [Selected(s.optional[i], false, Some(c))];
      assert forall a :: 0 <= a < |init| ==> all[a] == init[a];
    } else if i > 0 {
      SelectionHandlesDistinct(s, i - 1, s.total(s.optional[i - 1]));
    }
  }

  /** Replacing the last source's shorter prefix by a longer one. */
  lemma PrefixReplaced(s: Stage, i: nat, c: nat)
    requires Distinct(s) && i < |s.optional| && c < s.total(s.optional[i])
    ensures SelectionAt(s, i, c + 1)
         == Without(SelectionAt(s, i, c), s.optional[i]) + [Selected(s.optional[i], false, Some(c + 1))]
    ensures CountsAt(s, i, c + 1) == CountsAt(s, i, c)[s.optional[i] := c + 1]
  {
    hide SelectionAt, Without, CountsAt;
    AbsentHandle(s, i, 0, i);
    WithoutAbsent(SelectionAt(s, i, 0), s.optional[i]);
    OneStepSelection(s, i, c + 1);
    if c > 0 {
      OneStepSelection(s, i, c);
      WithoutLast(SelectionAt(s, i, 0), Selected(s.optional[i], false, Some(c)));
    }
  }

  lemma OneStepSelection(s: Stage, i: nat, c: nat)
    requires i < |s.optional| && c > 0
    ensures SelectionAt(s, i, c) == SelectionAt(s, i, 0) + [Selected(s.optional[i], false, Some(c))]
    ensures CountsAt(s, i, c) == CountsAt(s, i, 0)[s.optional[i] := c]
  {
  }

  lemma WithoutLast(init: seq<Selected>, last: Selected)
    ensures Without(init + [last], last.handle) == Without(init, last.handle)
  {
    assert (init + [last])[..|init|] == init;
  }

  lemma {:induction false} AbsentHandle(s: Stage, i: nat, c: nat, k: nat)
    requires Distinct(s) && At(s, i, c) && k < |s.optional| && BlocksOf(s, i, c, k) == 0
    ensures forall a :: 0 <= a < |SelectionAt(s, i, c)| ==> SelectionAt(s, i, c)[a].handle != s.optional[k]
  {
    var all := SelectionAt(s, i, c);
    forall a | 0 <= a < |all| ensures all[a].handle != s.optional[k] {
      SelectionIsBlockPrefixes(s, i, c, all[a]);
    }
  }

  lemma {:induction false} WithoutAbsent(selected: seq<Selected>, handle: string)
    requires forall a :: 0 <= a < |selected| ==> selected[a].handle != handle
    ensures Without(selected, handle) == selected
  {
    if selected != [] {
      WithoutAbsent(selected[..|selected| - 1], handle);
    }
  }

  // ----- Conservation -----

  function Selections(s: Stage, i: nat, c: nat, n: nat): nat
    requires n <= |s.optional|
  {
    if n == 0 then 0 else Selections(s, i, c, n - 1) + BlocksOf(s, i, c, n - 1)
  }

  function Totals(s: Stage, n: nat): nat
    requires n <= |s.optional|
  {
    if n == 0 then 0 else Totals(s, n - 1) + s.total(s.optional[n - 1])
  }

  function OmittedBlocks(omissions: seq<Omission>): nat {
    if omissions == [] then 0
    else
      var last := omissions[|omissions| - 1];
      OmittedBlocks(omissions[..|omissions| - 1])
        + (match last case SourceOmitted(_, n) => n case BlocksOmitted(_, n) => n case Other(_) => 0)
  }

  lemma OmittedSnoc(omissions: seq<Omission>, last: Omission)
    ensures OmittedBlocks(omissions + [last])
         == OmittedBlocks(omissions)
           + (match last case SourceOmitted(_, n) => n case BlocksOmitted(_, n) => n case Other(_) => 0)
  {
    assert (omissions + [last])[..|omissions|] == omissions;
  }

  function OmissionFor(s: Stage, k: nat, selected: nat): seq<Omission>
    requires k < |s.optional|
  {
    var h := s.optional[k];
    if selected == 0 then [SourceOmitted(h, s.total(h))]
    else if selected < s.total(h) then [BlocksOmitted(h, s.total(h) - selected)]
    else []
  }

  lemma OmissionsStep(s: Stage, i: nat, c: nat, n: nat)
    requires Distinct(s) && At(s, i, c) && 0 < n <= |s.optional|
    ensures OptionalOmissions(s.optional[..n], s.total, CountsAt(s, i, c))
         == OptionalOmissions(s.optional[..n - 1], s.total, CountsAt(s, i, c))
           + OmissionFor(s, n - 1, BlocksOf(s, i, c, n - 1))
  {
    CountsAtExact(s, i, c, n - 1);
    hide CountsAt, BlocksOf, Distinct;
    assert s.optional[..n][..n - 1] == s.optional[..n - 1];
  }

  /** A source's blocks and its omission add up to the source. */
  lemma OmissionCounts(s: Stage, init: seq<Omission>, k: nat, selected: nat)
    requires k < |s.optional| && selected <= s.total(s.optional[k])
    ensures selected + OmittedBlocks(init + OmissionFor(s, k, selected)) == OmittedBlocks(init) + s.total(s.optional[k])
  {
    var tail := OmissionFor(s, k, selected);
    hide OmittedBlocks;
    if tail == [] {
      assert init + tail == init;
      NothingOmitted(s, k, selected);
    } else {
      OmittedSnoc(init, tail[0]);
    }
  }

  lemma NothingOmitted(s: Stage, k: nat, selected: nat)
    requires k < |s.optional| && selected <= s.total(s.optional[k]) && OmissionFor(s, k, selected) == []
    ensures selected == s.total(s.optional[k])
  {
  }

  /** Every block of every optional source is either selected or honestly counted in the
      receipt's omissions, never both and never neither. */
  lemma {:induction false} EveryBlockIsAccountedFor(s: Stage, i: nat, c: nat, n: nat)
    requires Distinct(s) && At(s, i, c) && n <= |s.optional|
    ensures Selections(s, i, c, n) + OmittedBlocks(OptionalOmissions(s.optional[..n], s.total, CountsAt(s, i, c)))
      == Totals(s, n)
  {
    hide CountsAt, OmissionFor, BlocksOf, Distinct;
    if n == 0 {
      assert s.optional[..0] == [] && OptionalOmissions([], s.total, CountsAt(s, i, c)) == [];
    } else {
      hide OmittedBlocks, OptionalOmissions;
      EveryBlockIsAccountedFor(s, i, c, n - 1);
      OmissionsStep(s, i, c, n);
      BlocksWithin(s, i, c, n - 1);
      OmissionCounts(s, OptionalOmissions(s.optional[..n - 1], s.total, CountsAt(s, i, c)), n - 1,
                     BlocksOf(s, i, c, n - 1));
    }
  }

  lemma BlocksWithin(s: Stage, i: nat, c: nat, k: nat)
    requires At(s, i, c) && k < |s.optional|
    ensures BlocksOf(s, i, c, k) <= s.total(s.optional[k])
  {
  }

  // ----- The loop -----

  datatype Packed = Packed(packet: Packet, selected: seq<Selected>, omissions: seq<Omission>)

  /** The packet finally serialized is the last accepted candidate, or the base packet
      when no block was accepted, so it fits whenever the base does. */
  lemma {:induction false} FinalPacketIsLastAccepted(s: Stage, build: Builder, available: nat, i: nat, c: nat, j: nat,
                                                     d: nat)
    requires At(s, i, c) && PackFrom(s, build, available, i, c) == StoppedAt(j, d) && At(s, j, d)
    ensures BuildAt(s, build, j, d) == BuildAt(s, build, i, c) || Accepted(s, build, available, j, d)
    decreases |s.optional| - i, if i < |s.optional| then s.total(s.optional[i]) - c else 0
  {
    if i < |s.optional| {
      if c == s.total(s.optional[i]) {
        RolloverIsSame(s, build, i);
        FinalPacketIsLastAccepted(s, build, available, i + 1, 0, j, d);
      } else if Accepted(s, build, available, i, c + 1) {
        FinalPacketIsLastAccepted(s, build, available, i, c + 1, j, d);
      }
    }
  }

  lemma RolloverIsSame(s: Stage, build: Builder, i: nat)
    requires i < |s.optional|
    ensures BuildAt(s, build, i + 1, 0) == BuildAt(s, build, i, s.total(s.optional[i]))
  {
  }

  /** A failed build is reported; otherwise the packet is built from the selection where
      packing stopped, which is returned with it. */
  predicate Delivers(s: Stage, build: Builder, stop: Stop, result: Result<Packed, Error>) {
    match stop
    case BuildFailed(e) => result == Err(e)
    case StoppedAt(i, c) =>
      At(s, i, c)
      && match BuildAt(s, build, i, c)
         case Err(e) => result == Err(e)
         case Ok(p) => result == Ok(Packed(p, SelectionAt(s, i, c), Omissions(s, CountsAt(s, i, c))))
  }

  /** Try one more block at a time, keeping the last selection that fitted. */
  method PackBlocks(s: Stage, build: Builder, available: nat) returns (result: Result<Packed, Error>)
    requires Distinct(s)
    ensures Delivers(s, build, PackAll(s, build, available), result)
  {
    hide SelectionAt, CountsAt, Omissions;
    var selected, counts := s.mandatory, map[];
    assert selected == SelectionAt(s, 0, 0) && counts == CountsAt(s, 0, 0) by { BasePosition(s); }
    var omissions := Omissions(s, counts);
    var i, full := 0, false;
    ghost var c: nat := 0;
    while i < |s.optional| && !full
      invariant At(s, i, c) && (!full ==> c == 0)
      invariant selected == SelectionAt(s, i, c) && counts == CountsAt(s, i, c) && omissions == Omissions(s, counts)
      invariant PackAll(s, build, available) == if full then StoppedAt(i, c) else PackFrom(s, build, available, i, 0)
      decreases |s.optional| - i, !full
    {
      var handle := s.optional[i];
      var next := 1;
      c := 0;
      while next <= s.total(handle) && !full
        invariant 1 <= next <= s.total(handle) + 1 && c == next - 1
        invariant selected == SelectionAt(s, i, c) && counts == CountsAt(s, i, c) && omissions == Omissions(s, counts)
        invariant PackAll(s, build, available) == if full then StoppedAt(i, c) else PackFrom(s, build, available, i, c)
        decreases s.total(handle) + 1 - next, !full
      {
        PrefixReplaced(s, i, next - 1);
        var replaced := Without(selected, handle) + [Selected(handle, false, Some(next))];
        var candidateCounts := counts[handle := next];
        var candidateOmissions := Omissions(s, candidateCounts);
        var packet := build(replaced, candidateOmissions);
        if packet.Err? { return Err(packet.error); }
        if packet.value.inputTokens <= available {
          selected, counts, omissions := replaced, candidateCounts, candidateOmissions;
          next := next + 1;
          c := c + 1;
        } else {
          full := true;
        }
      }
      if !full {
        Rollover(s, i);
        i := i + 1;
        c := 0;
      }
    }
    var packet := build(selected, omissions);
    if packet.Err? { return Err(packet.error); }
    return Ok(Packed(packet.value, selected, omissions));
  }

  lemma BasePosition(s: Stage)
    ensures SelectionAt(s, 0, 0) == s.mandatory && CountsAt(s, 0, 0) == map[]
  {
  }

  lemma Rollover(s: Stage, i: nat)
    requires i < |s.optional|
    ensures SelectionAt(s, i + 1, 0) == SelectionAt(s, i, s.total(s.optional[i]))
    ensures CountsAt(s, i + 1, 0) == CountsAt(s, i, s.total(s.optional[i]))
  {
  }
}
