/** The entity catalog of reviewed memory: one candidate an identity, from its earliest
    occurrence, with every label it was recorded under. */
module Catalog {
  import opened Wrappers
  import opened FirstSeen
  import opened HistoryOrder
  import Paging
  import Search

  datatype CatalogError = InvalidSet | InvalidMemory

  datatype Kind = Character | Topic | Object | Promise

  datatype Entity = Entity(id: string, name: string)

  /** A reviewed record by the entities it names: an evidence record names an object and
      perhaps a holder, a knowledge record a character and a topic, a promise record a
      promise. */
  datatype Row = Row(forReaders: bool, character: Option<Entity>, topic: Option<Entity>, thing: Option<Entity>,
                     promise: Option<Entity>)

  datatype MemorySet = MemorySet(sourceHandle: string, source: string, rows: seq<Row>)

  datatype SourceEntry = SourceEntry(handle: string, source: string)

  /** The frozen manifest and its evidence, knowledge and promise sets, in that order. */
  datatype Memory = Memory(sources: seq<SourceEntry>, restricted: bool, families: seq<seq<MemorySet>>)

  datatype Occurrence = Occurrence(entity: Entity, sourceHandle: string, source: string)

  datatype Candidate = Candidate(entity: Entity, sourceHandle: string, source: string, labels: seq<string>)

  function Named(kind: Kind, row: Row): Option<Entity> {
    match kind
    case Character => row.character
    case Topic => row.topic
    case Object => row.thing
    case Promise => row.promise
  }

  // ----- Occurrences -----

  function SourceIndex(sources: seq<SourceEntry>, handle: string): (k: Option<nat>)
    ensures k.Some? ==> k.value < |sources| && sources[k.value].handle == handle
  {
    if sources == [] then None
    else if sources[0].handle == handle then Some(0)
    else
      var k := SourceIndex(sources[1..], handle);
      if k.Some? then Some(k.value + 1) else None
  }

  function SourceForSet(m: Memory, s: MemorySet): Option<nat> {
    var k := SourceIndex(m.sources, s.sourceHandle);
    if k.Some? && m.sources[k.value].source == s.source then k else None
  }

  predicate Shown(m: Memory, row: Row) {
    !m.restricted || row.forReaders
  }

  /** The occurrences of one set, under its source, family and place. */
  function SetOccurrences(m: Memory, kind: Kind, key: Key, s: MemorySet, rows: seq<Row>): seq<Entry<Occurrence>> {
    if rows == [] then []
    else
      var n := |rows| - 1;
      SetOccurrences(m, kind, key, s, rows[..n])
        + (if Shown(m, rows[n]) && Named(kind, rows[n]).Some? then
             [Entry(key, n, Occurrence(Named(kind, rows[n]).value, s.sourceHandle, s.source))]
           else [])
  }

  function FamilyOccurrences(m: Memory, kind: Kind, family: nat, sets: seq<MemorySet>): Option<seq<Entry<Occurrence>>> {
    if sets == [] then Some([])
    else
      var n := |sets| - 1;
      var earlier := FamilyOccurrences(m, kind, family, sets[..n]);
      var source := SourceForSet(m, sets[n]);
      if earlier.None? || source.None? then None
      else Some(earlier.value + SetOccurrences(m, kind, Key(source.value, family, "", n), sets[n], sets[n].rows))
  }

  function Occurrences(m: Memory, kind: Kind, families: nat): Option<seq<Entry<Occurrence>>>
    requires families <= |m.families|
  {
    if families == 0 then Some([])
    else
      var earlier := Occurrences(m, kind, families - 1);
      var last := FamilyOccurrences(m, kind, families - 1, m.families[families - 1]);
      if earlier.None? || last.None? then None else Some(earlier.value + last.value)
  }

  // ----- Candidates -----

  function FindCandidate(candidates: seq<Candidate>, id: string): (k: Option<nat>)
    ensures k.Some? ==> k.value < |candidates| && candidates[k.value].entity.id == id
    ensures k.None? ==> forall i :: 0 <= i < |candidates| ==> candidates[i].entity.id != id
  {
    if candidates == [] then None
    else if candidates[|candidates| - 1].entity.id == id then Some(|candidates| - 1)
    else FindCandidate(candidates[..|candidates| - 1], id)
  }

  function AddOccurrence(candidates: seq<Candidate>, o: Occurrence): seq<Candidate> {
    var k := FindCandidate(candidates, o.entity.id);
    if k.Some? then
      var c := candidates[k.value];
      candidates[k.value := c.(labels := Push(c.labels, o.entity.name))]
    else candidates + [Candidate(o.entity, o.sourceHandle, o.source, [o.entity.name])]
  }

  function Fold(occurrences: seq<Occurrence>): seq<Candidate> {
    if occurrences == [] then []
    else AddOccurrence(Fold(occurrences[..|occurrences| - 1]), occurrences[|occurrences| - 1])
  }

  predicate DistinctCandidates(candidates: seq<Candidate>) {
    forall i, j :: 0 <= i < j < |candidates| ==> candidates[i].entity.id != candidates[j].entity.id
  }

  /** The labels recorded for an identity, in order of occurrence. */
  function LabelsFor(occurrences: seq<Occurrence>, id: string): seq<string> {
    if occurrences == [] then []
    else
      var last := occurrences[|occurrences| - 1].entity;
      LabelsFor(occurrences[..|occurrences| - 1], id) + (if last.id == id then [last.name] else [])
  }

  /** The first occurrence of an identity. */
  predicate IsFirst(occurrences: seq<Occurrence>, i: nat) {
    i < |occurrences| && forall j :: 0 <= j < i ==> occurrences[j].entity.id != occurrences[i].entity.id
  }

  predicate IsCandidateOf(occurrences: seq<Occurrence>, i: nat, c: Candidate)
    requires i < |occurrences|
  {
    var o := occurrences[i];
    && c.entity == o.entity && c.sourceHandle == o.sourceHandle && c.source == o.source
    && c.labels == PushAll([], LabelsFor(occurrences, o.entity.id))
  }

  /** Candidates and first occurrences correspond, in order. */
  ghost predicate Catalogued(occurrences: seq<Occurrence>, candidates: seq<Candidate>, firsts: seq<nat>) {
    && |firsts| == |candidates|
    && (forall k :: 0 <= k < |firsts| ==>
        IsFirst(occurrences, firsts[k]) && IsCandidateOf(occurrences, firsts[k], candidates[k]))
    && (forall k :: 0 < k < |firsts| ==> firsts[k - 1] < firsts[k])
    && (forall i :: 0 <= i < |occurrences| && IsFirst(occurrences, i) ==> i in firsts)
  }

  lemma {:induction false} HasFirst(occurrences: seq<Occurrence>, i: nat) returns (f: nat)
    requires i < |occurrences|
    ensures f <= i && IsFirst(occurrences, f) && occurrences[f].entity.id == occurrences[i].entity.id
    decreases i
  {
    if j :| 0 <= j < i && occurrences[j].entity.id == occurrences[i].entity.id {
      f := HasFirst(occurrences, j);
    } else {
      f := i;
    }
  }

  lemma LabelsForSnoc(init: seq<Occurrence>, o: Occurrence, id: string)
    ensures LabelsFor(init + [o], id) == LabelsFor(init, id) + (if o.entity.id == id then [o.entity.name] else [])
  {
    assert (init + [o])[..|init|] == init;
  }

  lemma PushAllSnoc(labels: seq<string>, name: string)
    ensures PushAll([], labels + [name]) == Push(PushAll([], labels), name)
  {
    assert (labels + [name])[..|labels|] == labels;
  }

  lemma FirstSnoc(init: seq<Occurrence>, o: Occurrence, i: nat)
    requires i < |init|
    ensures IsFirst(init + [o], i) <==> IsFirst(init, i)
  {
    assert forall j :: 0 <= j < |init| ==> (init + [o])[j] == init[j];
  }

  /** A candidate whose identity is not the new occurrence's keeps its place. */
  lemma OtherCandidateKept(init: seq<Occurrence>, o: Occurrence, i: nat, c: Candidate)
    requires i < |init| && IsCandidateOf(init, i, c) && init[i].entity.id != o.entity.id
    ensures IsCandidateOf(init + [o], i, c)
  {
    LabelsForSnoc(init, o, init[i].entity.id);
    assert LabelsFor(init, init[i].entity.id) + [] == LabelsFor(init, init[i].entity.id);
    assert (init + [o])[i] == init[i];
  }

  lemma SameCandidateGrows(init: seq<Occurrence>, o: Occurrence, i: nat, c: Candidate)
    requires i < |init| && IsCandidateOf(init, i, c) && init[i].entity.id == o.entity.id
    ensures IsCandidateOf(init + [o], i, c.(labels := Push(c.labels, o.entity.name)))
  {
    LabelsForSnoc(init, o, o.entity.id);
    PushAllSnoc(LabelsFor(init, o.entity.id), o.entity.name);
    assert (init + [o])[i] == init[i];
  }

  lemma NewCandidate(init: seq<Occurrence>, o: Occurrence)
    requires forall j :: 0 <= j < |init| ==> init[j].entity.id != o.entity.id
    ensures IsFirst(init + [o], |init|)
    ensures IsCandidateOf(init + [o], |init|, Candidate(o.entity, o.sourceHandle, o.source, [o.entity.name]))
  {
    NoLabels(init, o.entity.id);
    LabelsForSnoc(init, o, o.entity.id);
    PushAllSnoc([], o.entity.name);
    assert [] + [o.entity.name] == [o.entity.name];
  }

  lemma {:induction false} NoLabels(occurrences: seq<Occurrence>, id: string)
    requires forall j :: 0 <= j < |occurrences| ==> occurrences[j].entity.id != id
    ensures LabelsFor(occurrences, id) == []
  {
    if occurrences != [] {
      NoLabels(occurrences[..|occurrences| - 1], id);
    }
  }

  lemma RelabelledCatalogued(init: seq<Occurrence>, o: Occurrence, candidates: seq<Candidate>, firsts: seq<nat>, k: nat)
    requires Catalogued(init, candidates, firsts) && k < |candidates| && candidates[k].entity.id == o.entity.id
    ensures Catalogued(init + [o],
                       candidates[k := candidates[k].(labels := Push(candidates[k].labels, o.entity.name))], firsts)
  {
    hide IsCandidateOf, IsFirst, Push;
    var all, b := init + [o], candidates[k := candidates[k].(labels := Push(candidates[k].labels, o.entity.name))];
    forall j | 0 <= j < |firsts|
      ensures firsts[j] < |all| && IsFirst(all, firsts[j]) && IsCandidateOf(all, firsts[j], b[j])
    {
      CandidateFacts(init, firsts[j], candidates[j]);
      CandidateFacts(init, firsts[k], candidates[k]);
      FirstSnoc(init, o, firsts[j]);
      if j == k {
        SameCandidateGrows(init, o, firsts[j], candidates[j]);
      } else {
        FirstsDiffer(init, candidates, firsts, j, k);
        OtherCandidateKept(init, o, firsts[j], candidates[j]);
      }
    }
    forall i | 0 <= i < |all| && IsFirst(all, i)
      ensures i in firsts
    {
      if i == |init| {
        CandidateFacts(init, firsts[k], candidates[k]);
        LastNotFirst(all, firsts[k]);
      } else {
        FirstSnoc(init, o, i);
      }
    }
  }

  lemma UnknownId(init: seq<Occurrence>, candidates: seq<Candidate>, firsts: seq<nat>, id: string)
    requires Catalogued(init, candidates, firsts) && forall k :: 0 <= k < |candidates| ==> candidates[k].entity.id != id
    ensures forall j :: 0 <= j < |init| ==> init[j].entity.id != id
  {
    hide IsCandidateOf, IsFirst;
    forall j | 0 <= j < |init|
      ensures init[j].entity.id != id
    {
      var f := HasFirst(init, j);
      var l :| 0 <= l < |firsts| && firsts[l] == f;
      CandidateFacts(init, firsts[l], candidates[l]);
    }
  }

  lemma ExtendedCatalogued(init: seq<Occurrence>, o: Occurrence, candidates: seq<Candidate>, firsts: seq<nat>)
    requires Catalogued(init, candidates, firsts) && forall j :: 0 <= j < |init| ==> init[j].entity.id != o.entity.id
    ensures Catalogued(init + [o], candidates + [Candidate(o.entity, o.sourceHandle, o.source, [o.entity.name])],
                       firsts + [|init|])
  {
    hide IsCandidateOf, IsFirst;
    var all, next := init + [o], firsts + [|init|];
    var b := candidates + [Candidate(o.entity, o.sourceHandle, o.source, [o.entity.name])];
    NewCandidate(init, o);
    forall j | 0 <= j < |next|
      ensures next[j] < |all| && IsFirst(all, next[j]) && IsCandidateOf(all, next[j], b[j])
      ensures j < |firsts| ==> next[j] < |init|
    {
      if j < |firsts| {
        CandidateFacts(init, firsts[j], candidates[j]);
        FirstSnoc(init, o, firsts[j]);
        OtherCandidateKept(init, o, firsts[j], candidates[j]);
      }
    }
    forall i | 0 <= i < |all| && IsFirst(all, i)
      ensures i in next
    {
      if i < |init| {
        FirstSnoc(init, o, i);
        var l :| 0 <= l < |firsts| && firsts[l] == i;
        assert next[l] == i;
      } else {
        assert next[|firsts|] == i;
      }
    }
  }

  lemma AddedCatalogued(init: seq<Occurrence>, o: Occurrence, candidates: seq<Candidate>, firsts: seq<nat>)
    returns (next: seq<nat>)
    requires Catalogued(init, candidates, firsts)
    ensures Catalogued(init + [o], AddOccurrence(candidates, o), next)
  {
    hide Catalogued, FindCandidate, Push;
    var k := FindCandidate(candidates, o.entity.id);
    if k.Some? {
      next := firsts;
      RelabelledCatalogued(init, o, candidates, firsts, k.value);
    } else {
      next := firsts + [|init|];
      UnknownId(init, candidates, firsts, o.entity.id);
      ExtendedCatalogued(init, o, candidates, firsts);
    }
  }

  lemma CandidateFacts(occurrences: seq<Occurrence>, i: nat, c: Candidate)
    requires IsFirst(occurrences, i) && IsCandidateOf(occurrences, i, c)
    ensures i < |occurrences| && c.entity == occurrences[i].entity
  {
    hide PushAll;
  }

  lemma LastNotFirst(all: seq<Occurrence>, i: nat)
    requires all != [] && i < |all| - 1 && all[i].entity.id == all[|all| - 1].entity.id
    ensures !IsFirst(all, |all| - 1)
  {
  }

  lemma {:induction false} FirstsIncrease(firsts: seq<nat>, j: nat, k: nat)
    requires (forall l :: 0 < l < |firsts| ==> firsts[l - 1] < firsts[l]) && j < k < |firsts|
    ensures firsts[j] < firsts[k]
    decreases k
  {
    if j < k - 1 { FirstsIncrease(firsts, j, k - 1); }
  }

  lemma FirstsDiffer(occurrences: seq<Occurrence>, candidates: seq<Candidate>, firsts: seq<nat>, j: nat, k: nat)
    requires Catalogued(occurrences, candidates, firsts) && j < |firsts| && k < |firsts| && j != k
    ensures firsts[j] < |occurrences| && firsts[k] < |occurrences|
    ensures occurrences[firsts[j]].entity.id != occurrences[firsts[k]].entity.id
  {
    hide IsCandidateOf;
    if j < k { FirstsIncrease(firsts, j, k); } else { FirstsIncrease(firsts, k, j); }
    assert IsFirst(occurrences, firsts[j]) && IsFirst(occurrences, firsts[k]);
  }

  /** The catalog holds exactly one candidate an identity, taken from its first
      occurrence, in order of first occurrence, with its labels as first seen. */
  lemma {:induction false} CatalogIsExact(occurrences: seq<Occurrence>) returns (firsts: seq<nat>)
    ensures Catalogued(occurrences, Fold(occurrences), firsts)
  {
    hide Catalogued, AddOccurrence;
    if occurrences == [] {
      firsts := [];
      EmptyCatalog();
    } else {
      var n := |occurrences| - 1;
      var init := CatalogIsExact(occurrences[..n]);
      firsts := AddedCatalogued(occurrences[..n], occurrences[n], Fold(occurrences[..n]), init);
      assert occurrences[..n] + [occurrences[n]] == occurrences;
    }
  }

  lemma EmptyCatalog()
    ensures Catalogued([], [], [])
  {
  }

  lemma CatalogIdsDistinct(occurrences: seq<Occurrence>)
    ensures DistinctCandidates(Fold(occurrences))
    ensures forall i :: 0 <= i < |occurrences| ==> FindCandidate(Fold(occurrences), occurrences[i].entity.id).Some?
  {
    hide IsCandidateOf, Fold, IsFirst, FindCandidate;
    var firsts := CatalogIsExact(occurrences);
    var candidates := Fold(occurrences);
    forall j | 0 <= j < |firsts|
      ensures firsts[j] < |occurrences| && candidates[j].entity == occurrences[firsts[j]].entity
    {
      CandidateFacts(occurrences, firsts[j], candidates[j]);
    }
    forall i, j | 0 <= i < j < |candidates|
      ensures candidates[i].entity.id != candidates[j].entity.id
    {
      FirstsDiffer(occurrences, candidates, firsts, i, j);
    }
    forall i | 0 <= i < |occurrences|
      ensures FindCandidate(candidates, occurrences[i].entity.id).Some?
    {
      var f := HasFirst(occurrences, i);
      var l :| 0 <= l < |firsts| && firsts[l] == f;
      assert candidates[l].entity.id == occurrences[i].entity.id;
    }
  }

  // ----- The whole catalog -----

  function Collect(m: Memory, kind: Kind, valid: Memory -> bool): Result<seq<Candidate>, CatalogError> {
    if !valid(m) then Err(InvalidSet)
    else
      var found := Occurrences(m, kind, |m.families|);
      if found.None? then Err(InvalidMemory) else Ok(Fold(Values(StableSort(found.value))))
  }

  // ----- In which order -----

  /** The r-th record of the s-th set of a family names an entity of the kind and is shown. */
  predicate OccursAt(m: Memory, kind: Kind, family: nat, s: nat, r: nat) {
    && family < |m.families| && s < |m.families[family]| && r < |m.families[family][s].rows|
    && SourceForSet(m, m.families[family][s]).Some?
    && Shown(m, m.families[family][s].rows[r]) && Named(kind, m.families[family][s].rows[r]).Some?
  }

  function OccurrenceAt(m: Memory, kind: Kind, family: nat, s: nat, r: nat): Entry<Occurrence>
    requires OccursAt(m, kind, family, s, r)
  {
    var set_ := m.families[family][s];
    Entry(Key(SourceForSet(m, set_).value, family, "", s), r,
          Occurrence(Named(kind, set_.rows[r]).value, set_.sourceHandle, set_.source))
  }

  /** First by source, then by family, by set and by record. */
  predicate PlaceLe(a: Entry<Occurrence>, b: Entry<Occurrence>) {
    if a.key.rank != b.key.rank then a.key.rank < b.key.rank
    else if a.key.position != b.key.position then a.key.position < b.key.position
    else if a.key.index != b.key.index then a.key.index < b.key.index
    else a.order <= b.order
  }

  lemma {:induction false} SetHolds(m: Memory, kind: Kind, key: Key, s: MemorySet, n: nat, x: Entry<Occurrence>)
    requires n <= |s.rows|
    ensures x in SetOccurrences(m, kind, key, s, s.rows[..n]) <==>
      exists r :: 0 <= r < n && Shown(m, s.rows[r]) && Named(kind, s.rows[r]).Some?
        && x == Entry(key, r, Occurrence(Named(kind, s.rows[r]).value, s.sourceHandle, s.source))
  {
    hide Shown, Named;
    if n > 0 {
      SetHolds(m, kind, key, s, n - 1, x);
      assert s.rows[..n][..n - 1] == s.rows[..n - 1];
    }
  }

  lemma WholeSetHolds(m: Memory, kind: Kind, family: nat, n: nat, x: Entry<Occurrence>)
    requires family < |m.families| && n < |m.families[family]| && SourceForSet(m, m.families[family][n]).Some?
    ensures var s := m.families[family][n];
            x in SetOccurrences(m, kind, Key(SourceForSet(m, s).value, family, "", n), s, s.rows)
            <==> exists r: nat :: OccursAt(m, kind, family, n, r) && x == OccurrenceAt(m, kind, family, n, r)
  {
    hide Shown, Named, SourceForSet, SetOccurrences;
    var s := m.families[family][n];
    var key := Key(SourceForSet(m, s).value, family, "", n);
    SetHolds(m, kind, key, s, |s.rows|, x);
    assert s.rows[..|s.rows|] == s.rows;
    forall r | 0 <= r < |s.rows| && Shown(m, s.rows[r]) && Named(kind, s.rows[r]).Some?
      ensures OccursAt(m, kind, family, n, r)
      ensures OccurrenceAt(m, kind, family, n, r)
           == Entry(key, r, Occurrence(Named(kind, s.rows[r]).value, s.sourceHandle, s.source))
    {
    }
  }

  ghost predicate InFamily(m: Memory, kind: Kind, family: nat, n: nat, x: Entry<Occurrence>) {
    exists s: nat, r: nat :: s < n && OccursAt(m, kind, family, s, r) && x == OccurrenceAt(m, kind, family, s, r)
  }

  lemma {:induction false} FamilyHolds(m: Memory, kind: Kind, family: nat, n: nat, x: Entry<Occurrence>)
    requires family < |m.families| && n <= |m.families[family]|
    requires FamilyOccurrences(m, kind, family, m.families[family][..n]).Some?
    ensures x in FamilyOccurrences(m, kind, family, m.families[family][..n]).value <==> InFamily(m, kind, family, n, x)
  {
    hide OccursAt, OccurrenceAt, SourceForSet, SetOccurrences;
    if n > 0 {
      var sets := m.families[family];
      assert sets[..n][..n - 1] == sets[..n - 1];
      FamilyHolds(m, kind, family, n - 1, x);
      WholeSetHolds(m, kind, family, n - 1, x);
    }
  }

  lemma {:induction false} OccurrencesHold(m: Memory, kind: Kind, families: nat, x: Entry<Occurrence>)
    requires families <= |m.families| && Occurrences(m, kind, families).Some?
    ensures x in Occurrences(m, kind, families).value <==>
      exists f: nat :: f < families && InFamily(m, kind, f, |m.families[f]|, x)
  {
    hide InFamily, FamilyOccurrences;
    if families > 0 {
      OccurrencesHold(m, kind, families - 1, x);
      var last := m.families[families - 1];
      assert last[..|last|] == last;
      FamilyHolds(m, kind, families - 1, |last|, x);
    }
  }

  lemma SortedPlaces(entries: seq<Entry<Occurrence>>)
    requires Sorted(entries) && forall i :: 0 <= i < |entries| ==> entries[i].key.documentId == ""
    ensures forall i, j :: 0 <= i < j < |entries| ==> PlaceLe(entries[i], entries[j])
  {
    forall i, j | 0 <= i < j < |entries| ensures PlaceLe(entries[i], entries[j]) {
      assert EntryLe(entries[i], entries[j]);
    }
  }

  lemma OccurrenceKey(m: Memory, kind: Kind, x: Entry<Occurrence>)
    requires exists f: nat :: f < |m.families| && InFamily(m, kind, f, |m.families[f]|, x)
    ensures x.key.documentId == ""
  {
  }

  /** The catalog of a memory: its candidates are the first occurrences of their identities
      among all the shown records that name one, taken in source, family, set and record
      order. */
  lemma MemoryIsCatalogued(m: Memory, kind: Kind, valid: Memory -> bool)
    returns (entries: seq<Entry<Occurrence>>, firsts: seq<nat>)
    requires Collect(m, kind, valid).Ok?
    ensures forall x :: x in entries <==> exists f: nat :: f < |m.families| && InFamily(m, kind, f, |m.families[f]|, x)
    ensures forall i, j :: 0 <= i < j < |entries| ==> PlaceLe(entries[i], entries[j])
    ensures Catalogued(Values(entries), Collect(m, kind, valid).value, firsts)
  {
    hide Occurrences, StableSort, Sorted, Catalogued, Fold, InFamily, PlaceLe;
    var found := Occurrences(m, kind, |m.families|).value;
    entries := StableSort(found);
    StableSortSorts(found);
    forall x ensures x in entries <==> exists f: nat :: f < |m.families| && InFamily(m, kind, f, |m.families[f]|, x) {
      OccurrencesHold(m, kind, |m.families|, x);
      assert x in entries <==> x in multiset(entries);
      assert x in found <==> x in multiset(found);
    }
    forall i | 0 <= i < |entries| ensures entries[i].key.documentId == "" {
      assert entries[i] in entries;
      OccurrenceKey(m, kind, entries[i]);
    }
    SortedPlaces(entries);
    firsts := CatalogIsExact(Values(entries));
  }

  // ----- The code: a list and an index -----

  /** The growing catalog with its index by identity. */
  class Builder {
    var candidates: seq<Candidate>
    var indexes: map<string, nat>

    ghost predicate Indexed()
      reads this
    {
      && (forall id :: id in indexes ==> indexes[id] < |candidates| && candidates[indexes[id]].entity.id == id)
      && (forall k :: 0 <= k < |candidates| ==>
          candidates[k].entity.id in indexes && indexes[candidates[k].entity.id] == k)
    }

    constructor ()
      ensures Indexed() && candidates == []
    {
      candidates, indexes := [], map[];
    }

    /** Add a label to a known identity, or open a candidate for a new one. */
    method AddEntity(o: Occurrence)
      requires Indexed()
      modifies this
      ensures Indexed() && candidates == AddOccurrence(old(candidates), o)
    {
      var id := o.entity.id;
      if id in indexes {
        var c := candidates[indexes[id]];
        assert FindCandidate(candidates, id) == Some(indexes[id]);
        if o.entity.name !in c.labels {
          candidates := candidates[indexes[id] := c.(labels := c.labels + [o.entity.name])];
        } else {
          assert candidates[indexes[id] := c] == candidates;
        }
      } else {
        indexes := indexes[id := |candidates|];
        candidates := candidates + [Candidate(o.entity, o.sourceHandle, o.source, [o.entity.name])];
      }
    }
  }

  method CollectEntities(m: Memory, kind: Kind, valid: Memory -> bool)
    returns (answer: Result<seq<Candidate>, CatalogError>)
    ensures answer == Collect(m, kind, valid)
  {
    hide StableSort, AddOccurrence, Occurrences;
    if !valid(m) { return Err(InvalidSet); }
    var found := Occurrences(m, kind, |m.families|);
    if found.None? { return Err(InvalidMemory); }
    var sorted := Values(StableSort(found.value));
    var builder := new Builder();
    for i := 0 to |sorted|
      invariant builder.Indexed() && builder.candidates == Fold(sorted[..i])
    {
      assert sorted[..i + 1][..i] == sorted[..i];
      builder.AddEntity(sorted[i]);
    }
    assert sorted[..|sorted|] == sorted;
    return Ok(builder.candidates);
  }

  // ----- Finding entities -----

  predicate Matches(c: Candidate, needle: string, lower: string -> string) {
    exists i :: 0 <= i < |c.labels| && Search.Contains(lower(c.labels[i]), needle)
  }

  function Matching(candidates: seq<Candidate>, needle: string, lower: string -> string): (kept: seq<Candidate>)
    ensures forall c :: c in kept <==> c in candidates && Matches(c, needle, lower)
  {
    if candidates == [] then []
    else
      var init, last := candidates[..|candidates| - 1], candidates[|candidates| - 1];
      assert candidates == init + [last];
      if Matches(last, needle, lower) then Matching(init, needle, lower) + [last] else Matching(init, needle, lower)
  }

  datatype EntityPage = EntityPage(entries: seq<Candidate>, totalMatches: nat, nextOffset: Option<nat>)

  function FindEntities(m: Memory, kind: Kind, query: string, offset: nat, limit: nat, lower: string -> string,
                        valid: Memory -> bool): Result<EntityPage, CatalogError>
  {
    match Collect(m, kind, valid)
    case Err(e) => Err(e)
    case Ok(candidates) =>
      var found := Matching(candidates, lower(query), lower);
      var page := Paging.PageBounds(offset, limit, |found|);
      if |found| > Paging.MAX_U32 || page.None? then Err(InvalidMemory)
      else Ok(EntityPage(found[page.value.start..page.value.end], |found|, page.value.next))
  }

  /** Read the entity pages one after another from an offset. */
  function FollowEntities(m: Memory, kind: Kind, query: string, offset: nat, limit: nat, lower: string -> string,
                          valid: Memory -> bool, fuel: nat): Option<seq<Candidate>>
    decreases fuel
  {
    match FindEntities(m, kind, query, offset, limit, lower, valid)
    case Err(_) => None
    case Ok(page) =>
      if page.nextOffset.None? then Some(page.entries)
      else if fuel == 0 then None
      else
        var rest := FollowEntities(m, kind, query, page.nextOffset.value, limit, lower, valid, fuel - 1);
        if rest.None? then None else Some(page.entries + rest.value)
  }

  /** The entity pages are exactly the pages of the whole list of matches. */
  lemma {:induction false} EntityPagesFollow(m: Memory, kind: Kind, query: string, offset: nat, limit: nat,
                                             lower: string -> string, valid: Memory -> bool, fuel: nat)
    requires Collect(m, kind, valid).Ok?
    requires var found := Matching(Collect(m, kind, valid).value, lower(query), lower);
             |found| <= Paging.MAX_U32 && offset <= |found| && fuel + offset >= |found|
    ensures FollowEntities(m, kind, query, offset, limit, lower, valid, fuel)
         == Paging.Follow(Matching(Collect(m, kind, valid).value, lower(query), lower), offset, limit)
    decreases fuel
  {
    hide Collect, Matching;
    var found := Matching(Collect(m, kind, valid).value, lower(query), lower);
    var page := Paging.PageBounds(offset, limit, |found|);
    if page.Some? && page.value.next.Some? {
      Paging.PageIsSlice(offset, limit, |found|);
      EntityPagesFollow(m, kind, query, page.value.next.value, limit, lower, valid, fuel - 1);
    }
  }

  /** Following next_offset from zero lists every matching entity once, in catalog order,
      exactly when the last needed offset is within the cap; otherwise it is refused. */
  lemma EntityPagesConcatenate(m: Memory, kind: Kind, query: string, limit: nat, lower: string -> string,
                               valid: Memory -> bool)
    requires Collect(m, kind, valid).Ok? && 1 <= limit <= Paging.MAX_MEMORY_LIMIT
    requires |Matching(Collect(m, kind, valid).value, lower(query), lower)| <= Paging.MAX_U32
    ensures var found := Matching(Collect(m, kind, valid).value, lower(query), lower);
            FollowEntities(m, kind, query, 0, limit, lower, valid, |found|)
            == if Paging.LastOffset(|found|, limit) <= Paging.MAX_MEMORY_OFFSET then Some(found) else None
  {
    hide Collect, Matching, FollowEntities;
    var found := Matching(Collect(m, kind, valid).value, lower(query), lower);
    EntityPagesFollow(m, kind, query, 0, limit, lower, valid, |found|);
    Paging.PagesConcatenate(found, limit);
  }

  // ----- Audience projection -----

  function ShownRows(m: Memory, rows: seq<Row>): seq<Row> {
    if rows == [] then []
    else
      ShownRows(m, rows[..|rows| - 1]) + (if Shown(m, rows[|rows| - 1]) then [rows[|rows| - 1]] else [])
  }

  /** The two memories differ only in rows the audience may not see. */
  ghost predicate SameShown(a: Memory, b: Memory) {
    && a.sources == b.sources && a.restricted == b.restricted && |a.families| == |b.families|
    && forall f :: 0 <= f < |a.families| ==> SameShownSets(a, a.families[f], b.families[f])
  }

  ghost predicate SameShownSets(m: Memory, a: seq<MemorySet>, b: seq<MemorySet>) {
    && |a| == |b|
    && forall i :: 0 <= i < |a| ==> a[i].sourceHandle == b[i].sourceHandle && a[i].source == b[i].source
                                    && ShownRows(m, a[i].rows) == ShownRows(m, b[i].rows)
  }

  /** A set's occurrences, numbers apart, are those of the rows shown. */
  function Plain(kind: Kind, key: Key, handle: string, source: string, rows: seq<Row>): seq<Entry<Occurrence>> {
    if rows == [] then []
    else
      var last := Named(kind, rows[|rows| - 1]);
      Plain(kind, key, handle, source, rows[..|rows| - 1])
        + (if last.Some? then [Entry(key, 0, Occurrence(last.value, handle, source))] else [])
  }

  lemma {:induction false} OccurrencesOfShown(m: Memory, kind: Kind, key: Key, s: MemorySet, rows: seq<Row>)
    ensures Unnumbered(SetOccurrences(m, kind, key, s, rows))
      == Plain(kind, key, s.sourceHandle, s.source, ShownRows(m, rows))
  {
    if rows == [] {
      assert Unnumbered(SetOccurrences(m, kind, key, s, rows)) == [];
    } else {
      var n := |rows| - 1;
      OccurrencesOfShown(m, kind, key, s, rows[..n]);
      var earlier, shown := SetOccurrences(m, kind, key, s, rows[..n]), ShownRows(m, rows[..n]);
      if Shown(m, rows[n]) {
        assert (shown + [rows[n]])[..|shown|] == shown;
        if Named(kind, rows[n]).Some? {
          var x := Entry(key, n, Occurrence(Named(kind, rows[n]).value, s.sourceHandle, s.source));
          assert Unnumbered(earlier + [x]) == Unnumbered(earlier) + [x.(order := 0)];
        } else {
          assert earlier + [] == earlier;
        }
      } else {
        assert earlier + [] == earlier && shown + [] == shown;
      }
    }
  }

  lemma UnnumberedConcat<V>(a: seq<Entry<V>>, b: seq<Entry<V>>)
    ensures Unnumbered(a + b) == Unnumbered(a) + Unnumbered(b)
  {
  }

  lemma {:induction false} FamilyIsProjected(a: Memory, b: Memory, kind: Kind, family: nat, x: seq<MemorySet>,
                                             y: seq<MemorySet>)
    requires a.sources == b.sources && a.restricted == b.restricted && SameShownSets(a, x, y)
    ensures var p, q := FamilyOccurrences(a, kind, family, x), FamilyOccurrences(b, kind, family, y);
            (p.None? <==> q.None?) && (p.Some? ==> Unnumbered(p.value) == Unnumbered(q.value))
  {
    hide SetOccurrences, SourceIndex, ShownRows, Plain;
    if x != [] {
      var n := |x| - 1;
      FamilyIsProjected(a, b, kind, family, x[..n], y[..n]);
      var source := SourceForSet(a, x[n]);
      assert SourceForSet(b, y[n]) == source;
      if source.Some? && FamilyOccurrences(a, kind, family, x[..n]).Some? {
        var key := Key(source.value, family, "", n);
        OccurrencesOfShown(a, kind, key, x[n], x[n].rows);
        OccurrencesOfShown(b, kind, key, y[n], y[n].rows);
        SameRowsShown(a, b, y[n].rows);
        UnnumberedConcat(FamilyOccurrences(a, kind, family, x[..n]).value,
                         SetOccurrences(a, kind, key, x[n], x[n].rows));
        UnnumberedConcat(FamilyOccurrences(b, kind, family, y[..n]).value,
                         SetOccurrences(b, kind, key, y[n], y[n].rows));
      }
    }
  }

  lemma {:induction false} SameRowsShown(a: Memory, b: Memory, rows: seq<Row>)
    requires a.restricted == b.restricted
    ensures ShownRows(a, rows) == ShownRows(b, rows)
  {
    if rows != [] { SameRowsShown(a, b, rows[..|rows| - 1]); }
  }

  lemma {:induction false} OccurrencesAreProjected(a: Memory, b: Memory, kind: Kind, families: nat)
    requires SameShown(a, b) && families <= |a.families|
    ensures var p, q := Occurrences(a, kind, families), Occurrences(b, kind, families);
            (p.None? <==> q.None?) && (p.Some? ==> Unnumbered(p.value) == Unnumbered(q.value))
  {
    hide FamilyOccurrences, SameShownSets;
    if families > 0 {
      OccurrencesAreProjected(a, b, kind, families - 1);
      FamilyIsProjected(a, b, kind, families - 1, a.families[families - 1], b.families[families - 1]);
      if Occurrences(a, kind, families).Some? {
        UnnumberedConcat(Occurrences(a, kind, families - 1).value,
                         FamilyOccurrences(a, kind, families - 1, a.families[families - 1]).value);
        UnnumberedConcat(Occurrences(b, kind, families - 1).value,
                         FamilyOccurrences(b, kind, families - 1, b.families[families - 1]).value);
      }
    }
  }

  lemma {:induction false} SetOccurrencesGrow(m: Memory, kind: Kind, key: Key, s: MemorySet, rows: seq<Row>)
    ensures var e := SetOccurrences(m, kind, key, s, rows);
            && NumbersGrow(e) && forall i :: 0 <= i < |e| ==> e[i].key == key && e[i].order < |rows|
  {
    if rows != [] { SetOccurrencesGrow(m, kind, key, s, rows[..|rows| - 1]); }
  }

  lemma GrowAppend(a: seq<Entry<Occurrence>>, b: seq<Entry<Occurrence>>)
    requires NumbersGrow(a) && NumbersGrow(b)
    requires forall i, j :: 0 <= i < |a| && 0 <= j < |b| ==> a[i].key != b[j].key
    ensures NumbersGrow(a + b)
  {
    assert forall i :: 0 <= i < |a + b| ==> (a + b)[i] == if i < |a| then a[i] else b[i - |a|];
  }

  lemma {:induction false} FamilyGrows(m: Memory, kind: Kind, family: nat, sets: seq<MemorySet>)
    requires FamilyOccurrences(m, kind, family, sets).Some?
    ensures var e := FamilyOccurrences(m, kind, family, sets).value;
            && NumbersGrow(e) && forall i :: 0 <= i < |e| ==> e[i].key.position == family && e[i].key.index < |sets|
  {
    hide SetOccurrences, NumbersGrow;
    if sets == [] {
      EmptyGrows();
    } else {
      var n := |sets| - 1;
      FamilyGrows(m, kind, family, sets[..n]);
      var key := Key(SourceForSet(m, sets[n]).value, family, "", n);
      SetOccurrencesGrow(m, kind, key, sets[n], sets[n].rows);
      GrowAppend(FamilyOccurrences(m, kind, family, sets[..n]).value,
                 SetOccurrences(m, kind, key, sets[n], sets[n].rows));
    }
  }

  lemma EmptyGrows()
    ensures NumbersGrow<Occurrence>([])
  {
  }

  lemma {:induction false} OccurrencesGrow(m: Memory, kind: Kind, families: nat)
    requires families <= |m.families| && Occurrences(m, kind, families).Some?
    ensures var e := Occurrences(m, kind, families).value;
            NumbersGrow(e) && forall i :: 0 <= i < |e| ==> e[i].key.position < families
  {
    hide FamilyOccurrences, NumbersGrow;
    if families == 0 {
      EmptyGrows();
    } else {
      OccurrencesGrow(m, kind, families - 1);
      FamilyGrows(m, kind, families - 1, m.families[families - 1]);
      GrowAppend(Occurrences(m, kind, families - 1).value,
                 FamilyOccurrences(m, kind, families - 1, m.families[families - 1]).value);
    }
  }

  /** Restricted catalogs never depend on private records, although records are numbered
      before the projection: every set sorts under a key of its own. */
  lemma CatalogIsIndependent(a: Memory, b: Memory, kind: Kind, valid: Memory -> bool)
    requires SameShown(a, b) && valid(a) == valid(b)
    ensures Collect(a, kind, valid) == Collect(b, kind, valid)
  {
    hide Occurrences, StableSort, Fold, SameShown;
    var n := |a.families|;
    assert |b.families| == n by { SameCounts(a, b); }
    OccurrencesAreProjected(a, b, kind, n);
    if Occurrences(a, kind, n).Some? {
      var x, y := Occurrences(a, kind, n).value, Occurrences(b, kind, n).value;
      OccurrencesGrow(a, kind, n);
      OccurrencesGrow(b, kind, n);
      SortIgnoresGrowingNumbers(x);
      SortIgnoresGrowingNumbers(y);
      assert Values(StableSort(x)) == Values(Unnumbered(StableSort(x)));
      assert Values(StableSort(y)) == Values(Unnumbered(StableSort(y)));
    }
  }

  lemma SameCounts(a: Memory, b: Memory)
    requires SameShown(a, b)
    ensures |a.families| == |b.families|
  {
  }
}
