/** Reviewed histories: observations of one identity, projected to the audience, ordered
    by source and record, with the labels and uncertainty they support. */
module Histories {
  import opened Wrappers
  import opened Decimals
  import opened HistoryOrder

  datatype QueryError = InvalidQuery | InvalidSet

  datatype SourceRow = SourceRow(handle: string, documentId: string, revisionId: string, bodyHash: string,
                                 displayName: string, readerPosition: Option<string>)

  datatype Member = Member(bundleId: string, documentId: string, revisionId: string, bodyHash: string)

  datatype RecordSet<R> = RecordSet(bundleId: string, sourceHandle: string, records: seq<R>)

  datatype Context = Context(sources: seq<SourceRow>, prefix: Option<seq<Member>>, restricted: bool,
                             excludedSources: nat)

  datatype Observation<R> = Observation(sourceHandle: string, displayName: string, sourceOrder: nat, record: R)

  /** One query: which records readers may see, which match, which sets are valid, and
      whether records are numbered before the audience projection. */
  datatype Query<!R> = Query(reader: R -> bool, matches: R -> bool, valid: RecordSet<R> -> bool, numberAll: bool)

  // ----- Source order -----

  predicate Quotes(m: Member, bundleId: string, row: SourceRow) {
    m.bundleId == bundleId && m.documentId == row.documentId && m.revisionId == row.revisionId
      && m.bodyHash == row.bodyHash
  }

  function PrefixIndex(prefix: seq<Member>, bundleId: string, row: SourceRow): (k: Option<nat>)
    ensures k.Some? ==> k.value < |prefix| && Quotes(prefix[k.value], bundleId, row)
  {
    if prefix == [] then None
    else if Quotes(prefix[0], bundleId, row) then Some(0)
    else
      var k := PrefixIndex(prefix[1..], bundleId, row);
      if k.Some? then Some(k.value + 1) else None
  }

  function ParsePosition(s: string): Option<nat> {
    if Canonical(s) && Value(s) <= MAX_U64 then Some(Value(s)) else None
  }

  datatype Placed = Placed(key: Key, output: nat)

  function Place(ctx: Context, bundleId: string, index: nat): Result<Placed, QueryError>
    requires index < |ctx.sources|
  {
    var row := ctx.sources[index];
    var member := if ctx.prefix.Some? then PrefixIndex(ctx.prefix.value, bundleId, row) else None;
    var position := if row.readerPosition.Some? then ParsePosition(row.readerPosition.value) else None;
    if member.Some? then
      if member.value > MAX_U32 then Err(InvalidQuery)
      else Ok(Placed(Key(0, member.value, row.documentId, index), member.value))
    else if position.Some? then
      Ok(Placed(Key(0, position.value, row.documentId, index),
                if position.value <= MAX_U32 then position.value else if index <= MAX_U32 then index else MAX_U32))
    else if index > MAX_U32 then Err(InvalidQuery)
    else Ok(Placed(Key(1, 0, row.documentId, index), index))
  }

  function FindSource(sources: seq<SourceRow>, handle: string, n: nat): (k: Option<nat>)
    requires n <= |sources|
    ensures k.Some? ==> k.value < n && sources[k.value].handle == handle
  {
    if n == 0 then None
    else if sources[n - 1].handle == handle then Some(n - 1)
    else FindSource(sources, handle, n - 1)
  }

  predicate DistinctHandles(sources: seq<SourceRow>) {
    forall i, j :: 0 <= i < j < |sources| ==> sources[i].handle != sources[j].handle
  }

  // ----- Collecting -----

  predicate Permitted<R>(q: Query<R>, ctx: Context, r: R) {
    !ctx.restricted || q.reader(r)
  }

  function Eligible<R>(q: Query<R>, ctx: Context, records: seq<R>): seq<R> {
    if records == [] then []
    else
      var init, last := Eligible(q, ctx, records[..|records| - 1]), records[|records| - 1];
      if Permitted(q, ctx, last) then init + [last] else init
  }

  function SetEntries<R>(q: Query<R>, ctx: Context, placed: Placed, row: SourceRow,
                         records: seq<R>): seq<Entry<Observation<R>>> {
    if records == [] then []
    else
      var n := |records| - 1;
      var number := if q.numberAll then n else |Eligible(q, ctx, records[..n])|;
      SetEntries(q, ctx, placed, row, records[..n])
        + (if Permitted(q, ctx, records[n]) && q.matches(records[n]) then
             [Entry(placed.key, number, Observation(row.handle, row.displayName, placed.output, records[n]))]
           else [])
  }

  /** The source and place of one set, if it is valid and inside the manifest. */
  function SetPlace<R>(q: Query<R>, ctx: Context, s: RecordSet<R>): Result<(SourceRow, Placed), QueryError> {
    var k := FindSource(ctx.sources, s.sourceHandle, |ctx.sources|);
    if !q.valid(s) then Err(InvalidSet)
    else if k.None? then Err(InvalidQuery)
    else match Place(ctx, s.bundleId, k.value)
      case Err(e) => Err(e)
      case Ok(placed) => Ok((ctx.sources[k.value], placed))
  }

  function Collect<R>(q: Query<R>, ctx: Context, sets: seq<RecordSet<R>>)
    : Result<seq<Entry<Observation<R>>>, QueryError>
  {
    if sets == [] then Ok([])
    else
      var earlier := Collect(q, ctx, sets[..|sets| - 1]);
      var last := sets[|sets| - 1];
      if earlier.Err? then earlier
      else match SetPlace(q, ctx, last)
        case Err(e) => Err(e)
        case Ok(place) => Ok(earlier.value + SetEntries(q, ctx, place.1, place.0, last.records))
  }

  function Observations<R>(q: Query<R>, ctx: Context, sets: seq<RecordSet<R>>)
    : Result<seq<Observation<R>>, QueryError>
  {
    if !DistinctHandles(ctx.sources) then Err(InvalidQuery)
    else match Collect(q, ctx, sets)
      case Err(e) => Err(e)
      case Ok(entries) => Ok(Values(StableSort(entries)))
  }

  /** Some record of some set was withheld from the audience. */
  predicate Withheld<R>(q: Query<R>, ctx: Context, sets: seq<RecordSet<R>>) {
    exists i :: 0 <= i < |sets| && |Eligible(q, ctx, sets[i].records)| != |sets[i].records|
  }

  /** Walk the sets and their records once, numbering and keeping what matches. */
  method CollectObservations<R>(q: Query<R>, ctx: Context, sets: seq<RecordSet<R>>)
    returns (observations: Result<seq<Observation<R>>, QueryError>, disclosureLimited: bool)
    ensures observations == Observations(q, ctx, sets)
    ensures observations.Ok? ==> disclosureLimited == Withheld(q, ctx, sets)
  {
    hide SetPlace, StableSort, Eligible, Permitted;
    disclosureLimited := false;
    if !DistinctHandles(ctx.sources) { return Err(InvalidQuery), false; }
    var entries := [];
    for i := 0 to |sets|
      invariant Collect(q, ctx, sets[..i]) == Ok(entries)
      invariant disclosureLimited == exists j :: 0 <= j < i && |Eligible(q, ctx, sets[j].records)| != |sets[j].records|
    {
      assert sets[..i + 1][..i] == sets[..i];
      var place := SetPlace(q, ctx, sets[i]);
      if place.Err? {
        CollectStops(q, ctx, sets, i + 1);
        return Err(place.error), false;
      }
      var found, permitted := NumberRecords(q, ctx, place.value.1, place.value.0, sets[i].records);
      entries := entries + found;
      disclosureLimited := disclosureLimited || permitted != |sets[i].records|;
    }
    assert sets[..|sets|] == sets;
    return Ok(Values(StableSort(entries))), disclosureLimited;
  }

  method NumberRecords<R>(q: Query<R>, ctx: Context, placed: Placed, row: SourceRow, records: seq<R>)
    returns (entries: seq<Entry<Observation<R>>>, permitted: nat)
    ensures entries == SetEntries(q, ctx, placed, row, records) && permitted == |Eligible(q, ctx, records)|
  {
    entries, permitted := [], 0;
    for i := 0 to |records|
      invariant entries == SetEntries(q, ctx, placed, row, records[..i])
      invariant permitted == |Eligible(q, ctx, records[..i])|
    {
      assert records[..i + 1][..i] == records[..i];
      if Permitted(q, ctx, records[i]) {
        if q.matches(records[i]) {
          var observation := Observation(row.handle, row.displayName, placed.output, records[i]);
          entries := entries + [Entry(placed.key, if q.numberAll then i else permitted, observation)];
        }
        permitted := permitted + 1;
      }
    }
    assert records[..|records|] == records;
  }

  lemma {:induction false} CollectStops<R>(q: Query<R>, ctx: Context, sets: seq<RecordSet<R>>, n: nat)
    requires n <= |sets| && Collect(q, ctx, sets[..n]).Err?
    ensures Collect(q, ctx, sets) == Collect(q, ctx, sets[..n])
    decreases |sets| - n
  {
    hide SetPlace, SetEntries;
    if n == |sets| {
      assert sets[..n] == sets;
    } else {
      assert sets[..n + 1][..n] == sets[..n];
      CollectStops(q, ctx, sets, n + 1);
    }
  }

  // ----- Audience projection -----

  /** The two lists of sets differ only in records the audience may not see. */
  ghost predicate SameProjection<R>(q: Query<R>, ctx: Context, a: seq<RecordSet<R>>, b: seq<RecordSet<R>>) {
    && |a| == |b|
    && forall i :: 0 <= i < |a| ==>
         && a[i].bundleId == b[i].bundleId && a[i].sourceHandle == b[i].sourceHandle
         && q.valid(a[i]) == q.valid(b[i])
         && Eligible(q, ctx, a[i].records) == Eligible(q, ctx, b[i].records)
  }

  lemma {:induction false} EligibleIsIdempotent<R>(q: Query<R>, ctx: Context, records: seq<R>)
    ensures Eligible(q, ctx, Eligible(q, ctx, records)) == Eligible(q, ctx, records)
  {
    if records != [] {
      EligibleIsIdempotent(q, ctx, records[..|records| - 1]);
      var init := Eligible(q, ctx, records[..|records| - 1]);
      var last := records[|records| - 1];
      if Permitted(q, ctx, last) { assert (init + [last])[..|init|] == init; }
    }
  }

  /** Numbered after the projection, a set's entries are those of its visible records. */
  lemma {:induction false} EntriesOfEligible<R>(q: Query<R>, ctx: Context, placed: Placed, row: SourceRow,
                                                records: seq<R>)
    ensures var visible := Eligible(q, ctx, records);
            && Unnumbered(SetEntries(q, ctx, placed, row, records))
              == Unnumbered(SetEntries(q, ctx, placed, row, visible))
            && (!q.numberAll ==> SetEntries(q, ctx, placed, row, records) == SetEntries(q, ctx, placed, row, visible))
  {
    if records != [] {
      var n := |records| - 1;
      var init, visible, last := records[..n], Eligible(q, ctx, records[..n]), records[n];
      EntriesOfEligible(q, ctx, placed, row, init);
      EligibleIsIdempotent(q, ctx, init);
      if Permitted(q, ctx, last) {
        assert (visible + [last])[..|visible|] == visible;
        var a, b := SetEntries(q, ctx, placed, row, init), SetEntries(q, ctx, placed, row, visible);
        if q.matches(last) {
          var observation := Observation(row.handle, row.displayName, placed.output, last);
          UnnumberedSnoc(a, Entry(placed.key, if q.numberAll then n else |visible|, observation));
          UnnumberedSnoc(b, Entry(placed.key, |visible|, observation));
        } else {
          assert a + [] == a && b + [] == b;
        }
      } else {
        assert SetEntries(q, ctx, placed, row, init) + [] == SetEntries(q, ctx, placed, row, init);
      }
    }
  }

  lemma UnnumberedSnoc<V>(entries: seq<Entry<V>>, x: Entry<V>)
    ensures Unnumbered(entries + [x]) == Unnumbered(entries) + [x.(order := 0)]
  {
  }

  lemma UnnumberedAppend<V>(a: seq<Entry<V>>, b: seq<Entry<V>>)
    ensures Unnumbered(a + b) == Unnumbered(a) + Unnumbered(b)
  {
  }

  /** Equal projections collect the same observations under the same keys, and the same
      numbers too when records are numbered after the projection. */
  lemma {:induction false} ProjectionCollects<R>(q: Query<R>, ctx: Context, a: seq<RecordSet<R>>, b: seq<RecordSet<R>>)
    requires SameProjection(q, ctx, a, b)
    ensures var x, y := Collect(q, ctx, a), Collect(q, ctx, b);
            && (x.Err? <==> y.Err?) && (x.Err? ==> x == y)
            && (x.Ok? ==> Unnumbered(x.value) == Unnumbered(y.value))
            && (x.Ok? && !q.numberAll ==> x == y)
  {
    hide SetEntries, Eligible, Place;
    if a != [] {
      var n := |a| - 1;
      ProjectionCollects(q, ctx, a[..n], b[..n]);
      assert SetPlace(q, ctx, a[n]) == SetPlace(q, ctx, b[n]);
      if Collect(q, ctx, a).Ok? {
        var place := SetPlace(q, ctx, a[n]).value;
        EntriesOfEligible(q, ctx, place.1, place.0, a[n].records);
        EntriesOfEligible(q, ctx, place.1, place.0, b[n].records);
        UnnumberedAppend(Collect(q, ctx, a[..n]).value, SetEntries(q, ctx, place.1, place.0, a[n].records));
        UnnumberedAppend(Collect(q, ctx, b[..n]).value, SetEntries(q, ctx, place.1, place.0, b[n].records));
      }
    }
  }

  /** Numbered after the projection (knowledge and possession), a history never depends
      on records the audience may not see: not on their number, place or content. */
  lemma FilteredNumberingIsIndependent<R>(q: Query<R>, ctx: Context, a: seq<RecordSet<R>>, b: seq<RecordSet<R>>)
    requires SameProjection(q, ctx, a, b) && !q.numberAll
    ensures Observations(q, ctx, a) == Observations(q, ctx, b)
  {
    ProjectionCollects(q, ctx, a, b);
  }

  // ----- Numbering before the projection -----

  /** A record the audience may see and the query asks for. */
  predicate Visible<R>(q: Query<R>, ctx: Context, s: RecordSet<R>) {
    AnyVisible(q, ctx, s.records)
  }

  predicate AnyVisible<R>(q: Query<R>, ctx: Context, records: seq<R>) {
    exists i :: 0 <= i < |records| && Permitted(q, ctx, records[i]) && q.matches(records[i])
  }

  /** Two sets with visible matches are ordered under the same source key. */
  ghost predicate SharesKey<R>(q: Query<R>, ctx: Context, sets: seq<RecordSet<R>>) {
    exists i, j :: 0 <= i < j < |sets| && Shared(q, ctx, sets[i], sets[j])
  }

  predicate Shared<R>(q: Query<R>, ctx: Context, s: RecordSet<R>, t: RecordSet<R>) {
    && Visible(q, ctx, s) && Visible(q, ctx, t)
    && SetPlace(q, ctx, s).Ok? && SetPlace(q, ctx, t).Ok?
    && SetPlace(q, ctx, s).value.1.key == SetPlace(q, ctx, t).value.1.key
  }

  lemma {:induction false} SetEntriesGrow<R>(q: Query<R>, ctx: Context, placed: Placed, row: SourceRow, records: seq<R>)
    requires q.numberAll
    ensures var e := SetEntries(q, ctx, placed, row, records);
            && (forall i :: 0 <= i < |e| ==> e[i].key == placed.key && e[i].order < |records|)
            && (forall i, j :: 0 <= i < j < |e| ==> e[i].order < e[j].order)
            && (e != [] ==> AnyVisible(q, ctx, records))
  {
    if records != [] {
      SetEntriesGrow(q, ctx, placed, row, records[..|records| - 1]);
    }
  }

  /** Every collected entry comes from a set with a visible match, under its key. */
  ghost predicate FromSets<R>(q: Query<R>, ctx: Context, sets: seq<RecordSet<R>>, entries: seq<Entry<Observation<R>>>) {
    forall i :: 0 <= i < |entries| ==> FromSet(q, ctx, sets, entries[i].key)
  }

  ghost predicate FromSet<R>(q: Query<R>, ctx: Context, sets: seq<RecordSet<R>>, key: Key) {
    exists k :: 0 <= k < |sets| && Visible(q, ctx, sets[k]) && SetPlace(q, ctx, sets[k]).Ok?
      && SetPlace(q, ctx, sets[k]).value.1.key == key
  }

  lemma {:induction false} UnsharedNumbersGrow<R>(q: Query<R>, ctx: Context, sets: seq<RecordSet<R>>)
    requires q.numberAll && !SharesKey(q, ctx, sets) && Collect(q, ctx, sets).Ok?
    ensures NumbersGrow(Collect(q, ctx, sets).value) && FromSets(q, ctx, sets, Collect(q, ctx, sets).value)
  {
    hide SetEntries, AnyVisible, Permitted, SetPlace;
    if sets != [] {
      var n := |sets| - 1;
      var init, last := sets[..n], sets[n];
      if SharesKey(q, ctx, init) { SharingInPrefix(q, ctx, sets); }
      UnsharedNumbersGrow(q, ctx, init);
      var place := SetPlace(q, ctx, last).value;
      SetEntriesGrow(q, ctx, place.1, place.0, last.records);
      AppendedGrows(q, ctx, sets, Collect(q, ctx, init).value, SetEntries(q, ctx, place.1, place.0, last.records),
                    place);
    }
  }

  lemma SharingInPrefix<R>(q: Query<R>, ctx: Context, sets: seq<RecordSet<R>>)
    requires sets != [] && SharesKey(q, ctx, sets[..|sets| - 1])
    ensures SharesKey(q, ctx, sets)
  {
    hide Shared;
    var init := sets[..|sets| - 1];
    var i, j :| 0 <= i < j < |init| && Shared(q, ctx, init[i], init[j]);
    assert Shared(q, ctx, sets[i], sets[j]);
  }

  lemma AppendedGrows<R>(q: Query<R>, ctx: Context, sets: seq<RecordSet<R>>, earlier: seq<Entry<Observation<R>>>,
                         e: seq<Entry<Observation<R>>>, place: (SourceRow, Placed))
    requires sets != [] && !SharesKey(q, ctx, sets) && SetPlace(q, ctx, sets[|sets| - 1]) == Ok(place)
    requires NumbersGrow(earlier) && FromSets(q, ctx, sets[..|sets| - 1], earlier)
    requires forall i :: 0 <= i < |e| ==> e[i].key == place.1.key
    requires forall i, j :: 0 <= i < j < |e| ==> e[i].order < e[j].order
    requires e != [] ==> Visible(q, ctx, sets[|sets| - 1])
    ensures NumbersGrow(earlier + e) && FromSets(q, ctx, sets, earlier + e)
  {
    hide Visible, SetPlace;
    var n, all := |sets| - 1, earlier + e;
    forall i | 0 <= i < |earlier|
      ensures FromSet(q, ctx, sets, earlier[i].key) && (e != [] ==> earlier[i].key != place.1.key)
    {
      assert FromSet(q, ctx, sets[..n], earlier[i].key);
      var k :| 0 <= k < n && Visible(q, ctx, sets[..n][k]) && SetPlace(q, ctx, sets[..n][k]).Ok?
        && SetPlace(q, ctx, sets[..n][k]).value.1.key == earlier[i].key;
      assert sets[k] == sets[..n][k];
    }
    forall i | 0 <= i < |e| ensures FromSet(q, ctx, sets, e[i].key) {}
    assert forall i :: 0 <= i < |all| ==> all[i] == if i < |earlier| then earlier[i] else e[i - |earlier|];
  }

  lemma SharingIsProjected<R>(q: Query<R>, ctx: Context, a: seq<RecordSet<R>>, b: seq<RecordSet<R>>)
    requires SameProjection(q, ctx, a, b) && SharesKey(q, ctx, b)
    ensures SharesKey(q, ctx, a)
  {
    hide Visible, Eligible, Place;
    var i, j :| 0 <= i < j < |b| && Shared(q, ctx, b[i], b[j]);
    VisibleIffEligible(q, ctx, a[i]);
    VisibleIffEligible(q, ctx, b[i]);
    VisibleIffEligible(q, ctx, a[j]);
    VisibleIffEligible(q, ctx, b[j]);
    assert Shared(q, ctx, a[i], a[j]);
  }

  predicate AnyMatch<R>(q: Query<R>, records: seq<R>) {
    exists i :: 0 <= i < |records| && q.matches(records[i])
  }

  lemma VisibleIffEligible<R>(q: Query<R>, ctx: Context, s: RecordSet<R>)
    ensures Visible(q, ctx, s) <==> AnyMatch(q, Eligible(q, ctx, s.records))
  {
    EligibleMatches(q, ctx, s.records);
  }

  lemma {:induction false} EligibleMatches<R>(q: Query<R>, ctx: Context, records: seq<R>)
    ensures AnyMatch(q, Eligible(q, ctx, records))
       <==> AnyVisible(q, ctx, records)
  {
    hide Permitted;
    if records != [] {
      var n := |records| - 1;
      var init := Eligible(q, ctx, records[..n]);
      EligibleMatches(q, ctx, records[..n]);
      assert forall i :: 0 <= i < n ==> records[..n][i] == records[i];
      if Permitted(q, ctx, records[n]) {
        assert forall i :: 0 <= i < |init| ==> (init + [records[n]])[i] == init[i];
        assert (init + [records[n]])[|init|] == records[n];
      }
    }
  }

  /** Numbered before the projection (promises), a history is still independent of what
      the audience may not see when no two sets with visible matches share a key, as
      with at most one set a source. */
  lemma OriginalNumberingIndependent<R>(q: Query<R>, ctx: Context, a: seq<RecordSet<R>>, b: seq<RecordSet<R>>)
    requires SameProjection(q, ctx, a, b) && q.numberAll && !SharesKey(q, ctx, a)
    ensures Observations(q, ctx, a) == Observations(q, ctx, b)
  {
    hide Collect, StableSort, SameProjection, SharesKey;
    ProjectionCollects(q, ctx, a, b);
    if SharesKey(q, ctx, b) { SharingIsProjected(q, ctx, a, b); }
    if Collect(q, ctx, a).Ok? {
      var x, y := Collect(q, ctx, a).value, Collect(q, ctx, b).value;
      UnsharedNumbersGrow(q, ctx, a);
      UnsharedNumbersGrow(q, ctx, b);
      SortIgnoresGrowingNumbers(x);
      SortIgnoresGrowingNumbers(y);
      assert Values(StableSort(x)) == Values(Unnumbered(StableSort(x)));
      assert Values(StableSort(y)) == Values(Unnumbered(StableSort(y)));
    }
  }

  // ----- When the order does depend on withheld records -----

  /** The set with further records put before its own. */
  function Padded<R>(s: RecordSet<R>, extra: seq<R>): RecordSet<R> {
    s.(records := extra + s.records)
  }

  ghost predicate Hidden<R>(q: Query<R>, ctx: Context, extra: seq<R>) {
    forall k :: 0 <= k < |extra| ==> !Permitted(q, ctx, extra[k])
  }

  lemma {:induction false} PaddingIsHidden<R>(q: Query<R>, ctx: Context, extra: seq<R>, records: seq<R>)
    requires Hidden(q, ctx, extra)
    ensures Eligible(q, ctx, extra + records) == Eligible(q, ctx, records)
    decreases |records|, |extra|
  {
    var all, n := extra + records, |extra + records| - 1;
    if records == [] {
      if extra != [] {
        assert all[..n] == extra[..n] + records;
        PaddingIsHidden(q, ctx, extra[..n], records);
      }
    } else {
      assert all[..n] == extra + records[..|records| - 1];
      PaddingIsHidden(q, ctx, extra, records[..|records| - 1]);
    }
  }

  /** A visible match is collected under its set's key with its place as its number. */
  lemma {:induction false} SetEntryOf<R>(q: Query<R>, ctx: Context, placed: Placed, row: SourceRow, records: seq<R>,
                                         p: nat)
    requires q.numberAll && p < |records| && Permitted(q, ctx, records[p]) && q.matches(records[p])
    ensures Entry(placed.key, p, Observation(row.handle, row.displayName, placed.output, records[p]))
         in SetEntries(q, ctx, placed, row, records)
    decreases |records|
  {
    hide Permitted;
    if p < |records| - 1 {
      assert records[..|records| - 1][p] == records[p];
      SetEntryOf(q, ctx, placed, row, records[..|records| - 1], p);
    }
  }

  lemma {:induction false} CollectedEntry<R>(q: Query<R>, ctx: Context, sets: seq<RecordSet<R>>, i: nat,
                                             x: Entry<Observation<R>>)
    requires Collect(q, ctx, sets).Ok? && i < |sets| && SetPlace(q, ctx, sets[i]).Ok?
    requires var place := SetPlace(q, ctx, sets[i]).value; x in SetEntries(q, ctx, place.1, place.0, sets[i].records)
    ensures x in Collect(q, ctx, sets).value
    decreases |sets|
  {
    hide SetEntries, SetPlace;
    if i < |sets| - 1 {
      assert sets[..|sets| - 1][i] == sets[i];
      CollectedEntry(q, ctx, sets[..|sets| - 1], i, x);
    }
  }

  /** Of two entries under one key, the lower number sorts first. */
  lemma SortedApart<V>(entries: seq<Entry<V>>, x: Entry<V>, y: Entry<V>) returns (a: nat, b: nat)
    requires x in entries && y in entries && x.key == y.key && x.order < y.order
    ensures a < b < |entries| == |StableSort(entries)|
    ensures StableSort(entries)[a] == x && StableSort(entries)[b] == y
  {
    hide StableSort;
    StableSortSorts(entries);
    var sorted := StableSort(entries);
    assert |multiset(sorted)| == |sorted| && |multiset(entries)| == |entries|;
    assert x in multiset(sorted) && y in multiset(sorted);
    a :| 0 <= a < |sorted| && sorted[a] == x;
    b :| 0 <= b < |sorted| && sorted[b] == y;
  }

  ghost predicate Swapped<V>(values: seq<V>, x: V, y: V) {
    exists a, b :: 0 <= a < b < |values| && values[a] == x && values[b] == y
  }

  /** Where set s has a visible match at p and set t one at r, padding decides which of
      the two observations comes first. */
  lemma PaddedOrder<R>(q: Query<R>, ctx: Context, sets: seq<RecordSet<R>>, i: nat, j: nat, p: nat, r: nat)
    requires q.numberAll && DistinctHandles(ctx.sources) && Collect(q, ctx, sets).Ok?
    requires i < |sets| && j < |sets| && SetPlace(q, ctx, sets[i]).Ok? && SetPlace(q, ctx, sets[j]).Ok?
    requires SetPlace(q, ctx, sets[i]).value.1.key == SetPlace(q, ctx, sets[j]).value.1.key
    requires p < |sets[i].records| && Permitted(q, ctx, sets[i].records[p]) && q.matches(sets[i].records[p])
    requires r < |sets[j].records| && Permitted(q, ctx, sets[j].records[r]) && q.matches(sets[j].records[r])
    requires p < r
    ensures var s, t := SetPlace(q, ctx, sets[i]).value, SetPlace(q, ctx, sets[j]).value;
            Swapped(Observations(q, ctx, sets).value,
                    Observation(s.0.handle, s.0.displayName, s.1.output, sets[i].records[p]),
                    Observation(t.0.handle, t.0.displayName, t.1.output, sets[j].records[r]))
  {
    hide SetPlace, SetEntries, Collect, StableSort, Permitted;
    var s, t := SetPlace(q, ctx, sets[i]).value, SetPlace(q, ctx, sets[j]).value;
    var x := Entry(s.1.key, p, Observation(s.0.handle, s.0.displayName, s.1.output, sets[i].records[p]));
    var y := Entry(t.1.key, r, Observation(t.0.handle, t.0.displayName, t.1.output, sets[j].records[r]));
    SetEntryOf(q, ctx, s.1, s.0, sets[i].records, p);
    SetEntryOf(q, ctx, t.1, t.0, sets[j].records, r);
    CollectedEntry(q, ctx, sets, i, x);
    CollectedEntry(q, ctx, sets, j, y);
    var a, b := SortedApart(Collect(q, ctx, sets).value, x, y);
    var values := Observations(q, ctx, sets).value;
    assert values[a] == x.value && values[b] == y.value;
  }

  lemma PaddedProjection<R>(q: Query<R>, ctx: Context, sets: seq<RecordSet<R>>, i: nat, extra: seq<R>)
    requires Hidden(q, ctx, extra) && i < |sets| && q.valid(sets[i]) && q.valid(Padded(sets[i], extra))
    ensures SameProjection(q, ctx, sets, sets[i := Padded(sets[i], extra)])
  {
    PaddingIsHidden(q, ctx, extra, sets[i].records);
  }

  lemma PaddedRecord<R>(s: RecordSet<R>, extra: seq<R>, p: nat)
    requires p < |s.records|
    ensures |extra| + p < |Padded(s, extra).records| && Padded(s, extra).records[|extra| + p] == s.records[p]
  {
  }

  lemma DistinctNotSwapped<V>(values: seq<V>, x: V, y: V)
    requires Swapped(values, x, y) && Swapped(values, y, x)
    ensures exists a, b :: 0 <= a < b < |values| && values[a] == values[b]
  {
    var a, b :| 0 <= a < b < |values| && values[a] == x && values[b] == y;
    var c, d :| 0 <= c < d < |values| && values[c] == y && values[d] == x;
    if a != d {
      assert values[a] == values[d];
    } else {
      assert values[c] == values[b] && c < b;
    }
  }

  /** How many records put before one place bring it past another. */
  function Gap(p: nat, r: nat): nat {
    if p <= r then r - p + 1 else 0
  }

  ghost predicate MatchAt<R>(q: Query<R>, ctx: Context, s: RecordSet<R>, p: nat) {
    p < |s.records| && Permitted(q, ctx, s.records[p]) && q.matches(s.records[p])
  }

  /** Conversely, let two sets under one key show matches at p and r, with all observations
      shown distinct, and let as many withheld records exist as the two places are apart, plus
      one. If the sets stay valid with these put in front, doing so to one of the two changes
      the order shown. */
  lemma SharedKeyReveals<R>(q: Query<R>, ctx: Context, sets: seq<RecordSet<R>>, i: nat, j: nat, p: nat, r: nat,
                            before: seq<R>, others: seq<R>)
    returns (b: seq<RecordSet<R>>)
    requires q.numberAll && Hidden(q, ctx, before) && Hidden(q, ctx, others) && Observations(q, ctx, sets).Ok?
    requires i < |sets| && j < |sets| && i != j && Shared(q, ctx, sets[i], sets[j])
    requires MatchAt(q, ctx, sets[i], p) && MatchAt(q, ctx, sets[j], r)
    requires |before| == Gap(p, r) && |others| == Gap(r, p)
    requires forall m, n :: 0 <= m < n < |Observations(q, ctx, sets).value| ==>
      Observations(q, ctx, sets).value[m] != Observations(q, ctx, sets).value[n]
    requires q.valid(Padded(sets[i], before)) && q.valid(Padded(sets[j], others))
    ensures b == sets[i := Padded(sets[i], before)] || b == sets[j := Padded(sets[j], others)]
    ensures SameProjection(q, ctx, sets, b) && Observations(q, ctx, b) != Observations(q, ctx, sets)
  {
    hide Permitted, Place, Collect, StableSort, Eligible, Swapped;
    var later, earlier := sets[i := Padded(sets[i], before)], sets[j := Padded(sets[j], others)];
    PaddedProjection(q, ctx, sets, i, before);
    PaddedProjection(q, ctx, sets, j, others);
    hide SameProjection, Hidden;
    ProjectionCollects(q, ctx, sets, later);
    ProjectionCollects(q, ctx, sets, earlier);
    PaddedRecord(sets[i], before, p);
    PaddedRecord(sets[j], others, r);
    PaddedOrder(q, ctx, later, j, i, r, |before| + p);
    PaddedOrder(q, ctx, earlier, i, j, p, |others| + r);
    if Observations(q, ctx, later) != Observations(q, ctx, sets) {
      b := later;
    } else {
      b := earlier;
      if Observations(q, ctx, earlier) == Observations(q, ctx, sets) {
        var s, t := SetPlace(q, ctx, sets[i]).value, SetPlace(q, ctx, sets[j]).value;
        DistinctNotSwapped(Observations(q, ctx, sets).value,
          Observation(s.0.handle, s.0.displayName, s.1.output, sets[i].records[p]),
          Observation(t.0.handle, t.0.displayName, t.1.output, sets[j].records[r]));
      }
    }
  }
}
