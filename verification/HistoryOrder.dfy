/** Ordering reviewed observations: source keys, record numbers, and a stable sort. */
module HistoryOrder {
  import opened Decimals

  const MAX_U64: nat := 0xFFFF_FFFF_FFFF_FFFF
  const MAX_U32: nat := 0xFFFF_FFFF

  /** Compared field by field: rank, position, document id in byte order, index. */
  datatype Key = Key(rank: nat, position: nat, documentId: string, index: nat)

  predicate KeyLe(a: Key, b: Key) {
    if a.rank != b.rank then a.rank < b.rank
    else if a.position != b.position then a.position < b.position
    else if a.documentId != b.documentId then LexLe(a.documentId, b.documentId)
    else a.index <= b.index
  }

  datatype Entry<V> = Entry(key: Key, order: nat, value: V)

  predicate EntryLe<V>(a: Entry<V>, b: Entry<V>) {
    if a.key == b.key then a.order <= b.order else KeyLe(a.key, b.key)
  }

  lemma {:induction false} LexLeTotal(a: string, b: string)
    ensures LexLe(a, b) || LexLe(b, a)
    ensures LexLe(a, b) && LexLe(b, a) ==> a == b
  {
    if a != "" && b != "" && a[0] == b[0] {
      LexLeTotal(a[1..], b[1..]);
      assert a == [a[0]] + a[1..] && b == [b[0]] + b[1..];
    }
  }

  lemma {:induction false} LexLeTransitive(a: string, b: string, c: string)
    requires LexLe(a, b) && LexLe(b, c)
    ensures LexLe(a, c)
  {
    if a != "" && a[0] == b[0] == c[0] {
      LexLeTransitive(a[1..], b[1..], c[1..]);
    }
  }

  lemma EntryOrder<V>(a: Entry<V>, b: Entry<V>, c: Entry<V>)
    ensures EntryLe(a, b) || EntryLe(b, a)
    ensures EntryLe(a, b) && EntryLe(b, c) ==> EntryLe(a, c)
    ensures a.key != b.key ==> !(EntryLe(a, b) && EntryLe(b, a))
  {
    LexLeTotal(a.key.documentId, b.key.documentId);
    LexLeTotal(b.key.documentId, c.key.documentId);
    if LexLe(a.key.documentId, b.key.documentId) && LexLe(b.key.documentId, c.key.documentId) {
      LexLeTransitive(a.key.documentId, b.key.documentId, c.key.documentId);
    }
  }

  // ----- Stable sorting -----

  /** Put x after every entry that does not come after it. */
  function Insert<V>(sorted: seq<Entry<V>>, x: Entry<V>): seq<Entry<V>> {
    if sorted == [] || EntryLe(sorted[|sorted| - 1], x) then sorted + [x]
    else Insert(sorted[..|sorted| - 1], x) + [sorted[|sorted| - 1]]
  }

  function StableSort<V>(entries: seq<Entry<V>>): seq<Entry<V>> {
    if entries == [] then [] else Insert(StableSort(entries[..|entries| - 1]), entries[|entries| - 1])
  }

  ghost predicate Sorted<V>(entries: seq<Entry<V>>) {
    forall i, j :: 0 <= i < j < |entries| ==> EntryLe(entries[i], entries[j])
  }

  lemma {:induction false} InsertSorts<V>(sorted: seq<Entry<V>>, x: Entry<V>)
    requires Sorted(sorted)
    ensures Sorted(Insert(sorted, x))
    ensures multiset(Insert(sorted, x)) == multiset(sorted) + multiset{x}
  {
    hide EntryLe;
    if sorted != [] {
      var n := |sorted| - 1;
      var last, init := sorted[n], sorted[..n];
      assert sorted == init + [last];
      if EntryLe(last, x) {
        forall i | 0 <= i < |sorted| ensures EntryLe(sorted[i], x) {
          EntryOrder(sorted[i], last, x);
        }
      } else {
        InsertSorts(init, x);
        EntryOrder(last, x, x);
        var inserted := Insert(init, x);
        forall i | 0 <= i < |inserted| ensures EntryLe(inserted[i], last) {
          assert inserted[i] in multiset(inserted);
          if inserted[i] != x { assert inserted[i] in multiset(init); }
        }
      }
    }
  }

  /** The sort orders its entries and neither loses nor invents one. */
  lemma {:induction false} StableSortSorts<V>(entries: seq<Entry<V>>)
    ensures Sorted(StableSort(entries)) && multiset(StableSort(entries)) == multiset(entries)
  {
    hide Insert, EntryLe;
    if entries != [] {
      StableSortSorts(entries[..|entries| - 1]);
      InsertSorts(StableSort(entries[..|entries| - 1]), entries[|entries| - 1]);
      assert entries == entries[..|entries| - 1] + [entries[|entries| - 1]];
    }
  }

  function Class<V>(entries: seq<Entry<V>>, key: Key, order: nat): seq<Entry<V>> {
    if entries == [] then []
    else
      var last := entries[|entries| - 1];
      Class(entries[..|entries| - 1], key, order) + (if last.key == key && last.order == order then [last] else [])
  }

  lemma {:induction false} InsertIsStable<V>(sorted: seq<Entry<V>>, x: Entry<V>, key: Key, order: nat)
    ensures Class(Insert(sorted, x), key, order) == Class(sorted + [x], key, order)
  {
    assert (sorted + [x])[..|sorted|] == sorted;
    if sorted != [] && !EntryLe(sorted[|sorted| - 1], x) {
      var n := |sorted| - 1;
      var init, last := sorted[..n], sorted[n];
      InsertIsStable(init, x, key, order);
      var inserted := Insert(init, x);
      assert (inserted + [last])[..|inserted|] == inserted;
      assert (init + [x])[..n] == init;
    }
  }

  /** Entries with equal keys keep the order they were collected in. */
  lemma {:induction false} StableSortIsStable<V>(entries: seq<Entry<V>>, key: Key, order: nat)
    ensures Class(StableSort(entries), key, order) == Class(entries, key, order)
  {
    if entries != [] {
      var n := |entries| - 1;
      var sorted := StableSort(entries[..n]);
      StableSortIsStable(entries[..n], key, order);
      InsertIsStable(sorted, entries[n], key, order);
      assert (sorted + [entries[n]])[..|sorted|] == sorted;
    }
  }

  // ----- Renumbering -----

  function Values<V>(entries: seq<Entry<V>>): (values: seq<V>)
    ensures |values| == |entries|
    ensures forall i :: 0 <= i < |entries| ==> values[i] == entries[i].value
  {
    seq(|entries|, i requires 0 <= i < |entries| => entries[i].value)
  }

  /** The same entries with every record number forgotten. */
  function Unnumbered<V>(entries: seq<Entry<V>>): (plain: seq<Entry<V>>)
    ensures |plain| == |entries|
    ensures forall i :: 0 <= i < |entries| ==> plain[i] == entries[i].(order := 0)
  {
    seq(|entries|, i requires 0 <= i < |entries| => entries[i].(order := 0))
  }

  /** Within a key, numbers grow in the order of collection. */
  ghost predicate NumbersGrow<V>(entries: seq<Entry<V>>) {
    forall i, j :: 0 <= i < j < |entries| && entries[i].key == entries[j].key ==> entries[i].order < entries[j].order
  }

  lemma {:induction false} InsertUnnumbered<V>(sorted: seq<Entry<V>>, x: Entry<V>)
    requires forall i :: 0 <= i < |sorted| && sorted[i].key == x.key ==> sorted[i].order < x.order
    ensures Unnumbered(Insert(sorted, x)) == Insert(Unnumbered(sorted), x.(order := 0))
  {
    if sorted == [] {
      assert Unnumbered([x]) == [x.(order := 0)];
    } else {
      var n := |sorted| - 1;
      var init, last := sorted[..n], sorted[n];
      assert Unnumbered(sorted)[..n] == Unnumbered(init);
      if EntryLe(last, x) {
        assert Unnumbered(sorted + [x]) == Unnumbered(sorted) + [x.(order := 0)];
      } else {
        InsertUnnumbered(init, x);
        assert Unnumbered(Insert(init, x) + [last]) == Unnumbered(Insert(init, x)) + [last.(order := 0)];
      }
    }
  }

  /** A sorted prefix still holds only smaller numbers of the next entry's key. */
  lemma SortedStaysSmaller<V>(init: seq<Entry<V>>, x: Entry<V>)
    requires forall j :: 0 <= j < |init| && init[j].key == x.key ==> init[j].order < x.order
    ensures var sorted := StableSort(init);
            forall i :: 0 <= i < |sorted| && sorted[i].key == x.key ==> sorted[i].order < x.order
  {
    hide StableSort, EntryLe;
    StableSortSorts(init);
    var sorted := StableSort(init);
    forall i | 0 <= i < |sorted| && sorted[i].key == x.key
      ensures sorted[i].order < x.order
    {
      assert sorted[i] in multiset(sorted);
      assert sorted[i] in multiset(init);
    }
  }

  lemma SortSnoc<V>(entries: seq<Entry<V>>)
    requires entries != []
    ensures StableSort(entries) == Insert(StableSort(entries[..|entries| - 1]), entries[|entries| - 1])
  {
  }

  /** When numbers grow within every key, the sorted values do not depend on them. */
  lemma {:induction false} SortIgnoresGrowingNumbers<V>(entries: seq<Entry<V>>)
    requires NumbersGrow(entries)
    ensures Unnumbered(StableSort(entries)) == StableSort(Unnumbered(entries))
  {
    hide StableSort, Insert, EntryLe;
    if entries == [] {
      EmptySort<V>();
    } else {
      var n := |entries| - 1;
      var init := entries[..n];
      SortIgnoresGrowingNumbers(init);
      SortedStaysSmaller(init, entries[n]);
      InsertUnnumbered(StableSort(init), entries[n]);
      assert Unnumbered(entries)[..n] == Unnumbered(init);
      SortSnoc(entries);
      SortSnoc(Unnumbered(entries));
    }
  }

  lemma EmptySort<V>()
    ensures var none: seq<Entry<V>> := []; StableSort(none) == none
  {
  }
}
