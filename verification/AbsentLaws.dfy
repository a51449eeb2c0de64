/** What making fields absent does, said of the original text: every such field gains its
    mark and loses the one null its own type ends with, and nothing else changes. */
module AbsentLaws {
  import opened Wrappers
  import opened Text
  import opened Rewriter
  import opened AbsentFields

  // ----- The edits, by position -----

  /** The colon of a field that has no mark yet. */
  predicate Gains(alnum: char -> bool, key: string, w: bool, r: string, j: int) {
    0 <= j < |r| && r[j] == ':' && Field(alnum, key, w, r, j - |key|)
  }

  /** Where the type of the field at i starts and ends. */
  function TypeStart(r: string, key: string, i: nat): nat {
    ColonAt(r, key, i) + 1
  }

  function FieldEnd(r: string, key: string, i: nat): nat {
    if ColonAt(r, key, i) < |r| then TypeEnd(r, TypeStart(r, key, i), 0) else |r|
  }

  /** Where the n-th trailing null of a type begins, counted from the end. */
  function NthNull(t: string, n: nat): (cut: Option<nat>)
    ensures cut.Some? ==> cut.value + 7 <= |t|
    decreases |t|
  {
    TrimEndPrefix(t);
    var u := TrimEnd(t);
    if !EndsNull(u) then None
    else if n == 0 then Some(|u| - 7)
    else NthNull(u[..|u| - 7], n - 1)
  }

  function NthCut(r: string, s: nat, n: nat): (cut: Option<nat>)
    requires s <= |r|
    ensures cut.Some? ==> s <= cut.value && cut.value + 7 <= TypeEnd(r, s, 0)
  {
    var nth := NthNull(r[s..TypeEnd(r, s, 0)], n);
    if nth.Some? then Some(s + nth.value) else None
  }

  /** How many fields before n have types that end at e. */
  function Count(alnum: char -> bool, key: string, w: bool, r: string, e: nat, n: nat): nat {
    if n == 0 then 0
    else
      Count(alnum, key, w, r, e, n - 1)
        + (if Field(alnum, key, w, r, n - 1) && FieldEnd(r, key, n - 1) == e then 1 else 0)
  }

  /** The null a field takes: its own one when its type ends alone; when types end together,
      one declared inside the other without brackets of its own, each takes the next from
      the end, in order. */
  function CutOf(alnum: char -> bool, key: string, w: bool, r: string, i: nat): Option<nat>
    requires Field(alnum, key, w, r, i)
  {
    NthCut(r, TypeStart(r, key, i), Count(alnum, key, w, r, FieldEnd(r, key, i), i))
  }

  /** Position j lies in the null that the field at i takes. */
  predicate DropsAt(alnum: char -> bool, key: string, w: bool, r: string, i: nat, j: int) {
    && Field(alnum, key, w, r, i)
    && var cut := CutOf(alnum, key, w, r, i); cut.Some? && cut.value <= j < cut.value + 7
  }

  ghost predicate Dropped(alnum: char -> bool, key: string, w: bool, r: string, j: int) {
    exists i: nat :: DropsAt(alnum, key, w, r, i, j)
  }

  ghost function Piece(alnum: char -> bool, key: string, w: bool, r: string, j: nat): string
    requires j < |r|
  {
    (if Gains(alnum, key, w, r, j) then "?" else "") + (if Dropped(alnum, key, w, r, j) then "" else [r[j]])
  }

  /** The edited characters from a to b. */
  ghost function Edited(alnum: char -> bool, key: string, w: bool, r: string, a: nat, b: nat): string
    requires a <= b <= |r|
    decreases b
  {
    if a == b then "" else Edited(alnum, key, w, r, a, b - 1) + Piece(alnum, key, w, r, b - 1)
  }

  lemma {:induction false} EditedSplit(alnum: char -> bool, key: string, w: bool, r: string, a: nat, b: nat, c: nat)
    requires a <= b <= c <= |r|
    ensures Edited(alnum, key, w, r, a, c) == Edited(alnum, key, w, r, a, b) + Edited(alnum, key, w, r, b, c)
    decreases c
  {
    hide Piece;
    if b < c {
      EditedSplit(alnum, key, w, r, a, b, c - 1);
    } else {
      assert Edited(alnum, key, w, r, b, c) == "";
    }
  }

  ghost predicate Copies(alnum: char -> bool, key: string, w: bool, r: string, a: nat, b: nat)
    requires a <= b <= |r|
  {
    forall j :: a <= j < b ==> !Gains(alnum, key, w, r, j) && !Dropped(alnum, key, w, r, j)
  }

  lemma {:induction false} EditedCopies(alnum: char -> bool, key: string, w: bool, r: string, a: nat, b: nat)
    requires a <= b <= |r| && Copies(alnum, key, w, r, a, b)
    ensures Edited(alnum, key, w, r, a, b) == r[a..b]
    decreases b
  {
    hide Gains, Dropped;
    if a == b {
      assert r[a..b] == "";
    } else {
      PieceCopied(alnum, key, w, r, b - 1);
      hide Piece;
      EditedCopies(alnum, key, w, r, a, b - 1);
      assert r[a..b] == r[a..b - 1] + [r[b - 1]];
    }
  }

  lemma PieceCopied(alnum: char -> bool, key: string, w: bool, r: string, j: nat)
    requires j < |r| && !Gains(alnum, key, w, r, j) && !Dropped(alnum, key, w, r, j)
    ensures Piece(alnum, key, w, r, j) == [r[j]]
  {
    hide Gains, Dropped;
    assert "" + [r[j]] == [r[j]];
  }

  ghost predicate Empties(alnum: char -> bool, key: string, w: bool, r: string, a: nat, b: nat)
    requires a <= b <= |r|
  {
    forall j :: a <= j < b ==> !Gains(alnum, key, w, r, j) && Dropped(alnum, key, w, r, j)
  }

  lemma {:induction false} EditedEmpties(alnum: char -> bool, key: string, w: bool, r: string, a: nat, b: nat)
    requires a <= b <= |r| && Empties(alnum, key, w, r, a, b)
    ensures Edited(alnum, key, w, r, a, b) == ""
    decreases b
  {
    hide Gains, Dropped;
    if a < b { EditedEmpties(alnum, key, w, r, a, b - 1); }
  }

  /** Two stretches are edited alike. */
  ghost predicate Alike(alnum: char -> bool, key: string, w: bool, r: string, a: nat, v: bool, t: string, b: nat,
                        n: nat)
    requires a + n <= |r| && b + n <= |t|
  {
    forall j: nat {:trigger Same(alnum, key, w, r, a, v, t, b, j)} :: j < n ==> Same(alnum, key, w, r, a, v, t, b, j)
  }

  ghost predicate Same(alnum: char -> bool, key: string, w: bool, r: string, a: nat, v: bool, t: string, b: nat,
                       j: nat) {
    && a + j < |r| && b + j < |t| && r[a + j] == t[b + j]
    && (Gains(alnum, key, w, r, a + j) <==> Gains(alnum, key, v, t, b + j))
    && (Dropped(alnum, key, w, r, a + j) <==> Dropped(alnum, key, v, t, b + j))
  }

  lemma {:induction false} EditedAlike(alnum: char -> bool, key: string, w: bool, r: string, a: nat, v: bool,
                                       t: string, b: nat, n: nat)
    requires a + n <= |r| && b + n <= |t| && Alike(alnum, key, w, r, a, v, t, b, n)
    ensures Edited(alnum, key, w, r, a, a + n) == Edited(alnum, key, v, t, b, b + n)
    decreases n
  {
    hide Gains, Dropped;
    if n > 0 {
      EditedAlike(alnum, key, w, r, a, v, t, b, n - 1);
      assert Same(alnum, key, w, r, a, v, t, b, n - 1);
    }
  }

  // ----- Fields past a prefix -----

  function Before(alnum: char -> bool, w: bool, p: string): bool {
    if p == "" then w else EndsInWord(alnum, p)
  }

  lemma FieldPast(alnum: char -> bool, key: string, w: bool, p: string, t: string, i: nat)
    requires KeyShaped(alnum, key)
    ensures Field(alnum, key, w, p + t, |p| + i) <==> Field(alnum, key, Before(alnum, w, p), t, i)
    ensures KeyAt(t, key, i) ==> ColonAt(p + t, key, |p| + i) == |p| + ColonAt(t, key, i)
  {
    KeyAhead(p, t, key, i);
  }

  lemma NthCutAhead(p: string, r: string, j: nat, n: nat)
    requires j <= |r|
    ensures |p| + j <= |p + r|
    ensures var cut := NthCut(r, j, n);
            NthCut(p + r, |p| + j, n) == if cut.Some? then Some(|p| + cut.value) else None
  {
    hide TypeEnd, NthNull;
    TypeEndAhead(p, r, j, 0);
    assert (p + r)[|p| + j..|p| + TypeEnd(r, j, 0)] == r[j..TypeEnd(r, j, 0)];
  }

  lemma FirstCut(r: string, s: nat)
    requires s <= |r|
    ensures NthCut(r, s, 0) == NullCut(r, s)
  {
    hide TypeEnd, TrimEnd;
  }

  lemma EndPast(key: string, h: string, t: string, i: nat)
    requires KeyAt(t, key, i) && ColonAt(h + t, key, |h| + i) == |h| + ColonAt(t, key, i)
    ensures FieldEnd(h + t, key, |h| + i) == |h| + FieldEnd(t, key, i)
  {
    hide TypeEnd;
    if ColonAt(t, key, i) < |t| { TypeEndAhead(h, t, TypeStart(t, key, i), 0); }
  }

  lemma FieldHasKey(alnum: char -> bool, key: string, w: bool, r: string, i: nat)
    requires Field(alnum, key, w, r, i)
    ensures KeyAt(r, key, i)
  {
  }

  /** The fields of the rest are those of the whole past h, with the same types. */
  lemma FieldOfRest(alnum: char -> bool, key: string, w: bool, h: string, t: string, i: nat)
    requires KeyShaped(alnum, key) && h != ""
    ensures Field(alnum, key, w, h + t, |h| + i) <==> Field(alnum, key, EndsInWord(alnum, h), t, i)
    ensures Field(alnum, key, EndsInWord(alnum, h), t, i) ==>
      && ColonAt(h + t, key, |h| + i) == |h| + ColonAt(t, key, i) && ColonAt(t, key, i) < |t|
      && FieldEnd(h + t, key, |h| + i) == |h| + FieldEnd(t, key, i)
  {
    hide Field, ColonAt, FieldEnd, EndsInWord;
    RestField(alnum, key, w, h, t, i);
    if Field(alnum, key, EndsInWord(alnum, h), t, i) {
      FieldPast(alnum, key, w, h, t, i);
      FieldHasKey(alnum, key, EndsInWord(alnum, h), t, i);
      FieldBounds(alnum, key, EndsInWord(alnum, h), t, i);
      EndPast(key, h, t, i);
    }
  }

  lemma RestField(alnum: char -> bool, key: string, w: bool, p: string, t: string, i: nat)
    requires KeyShaped(alnum, key) && p != ""
    ensures Field(alnum, key, w, p + t, |p| + i) <==> Field(alnum, key, EndsInWord(alnum, p), t, i)
  {
    hide Field;
    FieldPast(alnum, key, w, p, t, i);
  }

  lemma {:induction false} CountPast(alnum: char -> bool, key: string, w: bool, h: string, t: string, e: nat, n: nat)
    requires KeyShaped(alnum, key) && h != ""
    ensures Count(alnum, key, w, h + t, |h| + e, |h| + n)
         == Count(alnum, key, w, h + t, |h| + e, |h|) + Count(alnum, key, EndsInWord(alnum, h), t, e, n)
  {
    hide Field, FieldEnd, ColonAt, KeyShaped, EndsInWord;
    if n > 0 {
      CountPast(alnum, key, w, h, t, e, n - 1);
      FieldOfRest(alnum, key, w, h, t, n - 1);
    }
  }

  lemma {:induction false} CountNone(alnum: char -> bool, key: string, w: bool, r: string, e: nat, n: nat)
    requires forall i: nat :: i < n ==> !Field(alnum, key, w, r, i)
    ensures Count(alnum, key, w, r, e, n) == 0
  {
    hide Field, FieldEnd;
    if n > 0 { CountNone(alnum, key, w, r, e, n - 1); }
  }

  lemma {:induction false} CountOne(alnum: char -> bool, key: string, w: bool, r: string, e: nat, k: nat, n: nat)
    requires Field(alnum, key, w, r, k) && OnlyFieldBefore(alnum, key, w, r, k, n)
    ensures Count(alnum, key, w, r, e, n) == if k < n && FieldEnd(r, key, k) == e then 1 else 0
  {
    hide Field, FieldEnd;
    if n > 0 { CountOne(alnum, key, w, r, e, k, n - 1); }
  }

  lemma GainsPast(alnum: char -> bool, key: string, w: bool, p: string, t: string, j: nat)
    requires KeyShaped(alnum, key) && j >= |key|
    ensures Gains(alnum, key, w, p + t, |p| + j) <==> Gains(alnum, key, Before(alnum, w, p), t, j)
  {
    FieldPast(alnum, key, w, p, t, j - |key|);
  }

  /** A key holds no colon, so no field's colon falls within its name. */
  lemma NoGainInKey(alnum: char -> bool, key: string, w: bool, r: string, j: int)
    requires KeyShaped(alnum, key) && j < |key|
    ensures !Gains(alnum, key, w, r, j)
  {
  }

  lemma FieldBounds(alnum: char -> bool, key: string, w: bool, r: string, i: int)
    requires Field(alnum, key, w, r, i)
    ensures 0 <= i && i + |key| <= ColonAt(r, key, i) < |r| && r[ColonAt(r, key, i)] == ':'
  {
  }

  /** Inside an occurrence of the key no field begins. */
  lemma NoFieldWithin(alnum: char -> bool, key: string, w: bool, r: string, k: nat, i: nat)
    requires KeyShaped(alnum, key) && KeyAt(r, key, k) && k < i <= k + |key|
    ensures !Field(alnum, key, w, r, i)
  {
    assert r[i - 1] == r[k..k + |key|][i - 1 - k];
  }

  /** The only field of r before position m, if any, is at k. */
  ghost predicate OnlyFieldBefore(alnum: char -> bool, key: string, w: bool, r: string, k: nat, m: nat) {
    forall i: nat :: Field(alnum, key, w, r, i) && i < m ==> i == k
  }

  lemma FirstIsOnly(alnum: char -> bool, key: string, w: bool, r: string, k: nat)
    requires KeyShaped(alnum, key) && Find(r, key, 0) == k
    ensures KeyAt(r, key, k) && OnlyFieldBefore(alnum, key, w, r, k, k + |key| + 1)
  {
    forall i: nat | Field(alnum, key, w, r, i) && i < k + |key| + 1
      ensures i == k
    {
      if k < i { NoFieldWithin(alnum, key, w, r, k, i); }
    }
  }

  // ----- The three cases of the rewriting -----

  lemma NoKeyCopies(alnum: char -> bool, key: string, w: bool, r: string)
    requires Find(r, key, 0) == -1
    ensures Edited(alnum, key, w, r, 0, |r|) == r
  {
    hide CutOf, FieldEnd;
    EditedCopies(alnum, key, w, r, 0, |r|);
    assert r[0..|r|] == r;
  }

  /** Past m, r is edited as its rest is, when no field before m reaches it. */
  lemma RestAlike(alnum: char -> bool, key: string, w: bool, p: string, t: string)
    requires KeyShaped(alnum, key) && p != ""
    requires forall i: nat :: i < |p| ==> !Field(alnum, key, w, p + t, i)
    ensures Alike(alnum, key, w, p + t, |p|, EndsInWord(alnum, p), t, 0, |t|)
  {
    hide DropsAt, Field;
    forall j: nat | j < |t|
      ensures Same(alnum, key, w, p + t, |p|, EndsInWord(alnum, p), t, 0, j)
    {
      GainsRest(alnum, key, w, p, t, j);
      DroppedRest(alnum, key, w, p, t, j);
    }
  }

  lemma GainsRest(alnum: char -> bool, key: string, w: bool, p: string, t: string, j: nat)
    requires KeyShaped(alnum, key) && p != "" && j < |t|
    requires forall i: nat :: i < |p| ==> !Field(alnum, key, w, p + t, i)
    ensures Gains(alnum, key, w, p + t, |p| + j) <==> Gains(alnum, key, EndsInWord(alnum, p), t, j)
  {
    hide Field;
    if j >= |key| {
      GainsPast(alnum, key, w, p, t, j);
    } else {
      NoGainInKey(alnum, key, EndsInWord(alnum, p), t, j);
      if Gains(alnum, key, w, p + t, |p| + j) { GainHasField(alnum, key, w, p + t, |p| + j); }
    }
  }

  lemma GainHasField(alnum: char -> bool, key: string, w: bool, r: string, j: int)
    requires Gains(alnum, key, w, r, j)
    ensures j - |key| >= 0 && Field(alnum, key, w, r, j - |key|)
  {
  }

  lemma DropsRest(alnum: char -> bool, key: string, w: bool, p: string, t: string, i: nat, j: int)
    requires KeyShaped(alnum, key) && p != ""
    requires forall i: nat :: i < |p| ==> !Field(alnum, key, w, p + t, i)
    ensures DropsAt(alnum, key, w, p + t, |p| + i, |p| + j) <==> DropsAt(alnum, key, EndsInWord(alnum, p), t, i, j)
  {
    hide NthCut, Field, Count, FieldEnd, ColonAt, EndsInWord, KeyShaped;
    FieldOfRest(alnum, key, w, p, t, i);
    if Field(alnum, key, EndsInWord(alnum, p), t, i) {
      CountPast(alnum, key, w, p, t, FieldEnd(t, key, i), i);
      CountNone(alnum, key, w, p + t, |p| + FieldEnd(t, key, i), |p|);
      NthCutAhead(p, t, TypeStart(t, key, i), Count(alnum, key, EndsInWord(alnum, p), t, FieldEnd(t, key, i), i));
    }
  }

  lemma DroppedRest(alnum: char -> bool, key: string, w: bool, p: string, t: string, j: nat)
    requires KeyShaped(alnum, key) && p != ""
    requires forall i: nat :: i < |p| ==> !Field(alnum, key, w, p + t, i)
    ensures Dropped(alnum, key, w, p + t, |p| + j) <==> Dropped(alnum, key, EndsInWord(alnum, p), t, j)
  {
    hide Field, DropsAt, EndsInWord;
    if Dropped(alnum, key, w, p + t, |p| + j) {
      var i: nat :| DropsAt(alnum, key, w, p + t, i, |p| + j);
      DropsPastColon(alnum, key, w, p + t, i, |p| + j);
      DropsRest(alnum, key, w, p, t, i - |p|, j);
      assert DropsAt(alnum, key, EndsInWord(alnum, p), t, i - |p|, j);
    }
    if Dropped(alnum, key, EndsInWord(alnum, p), t, j) {
      var i: nat :| DropsAt(alnum, key, EndsInWord(alnum, p), t, i, j);
      DropsRest(alnum, key, w, p, t, i, j);
      assert DropsAt(alnum, key, w, p + t, |p| + i, |p| + j);
    }
  }

  /** Before the first field's name ends nothing is edited, save its colon. */
  lemma HeadCopies(alnum: char -> bool, key: string, w: bool, r: string, k: nat, m: nat)
    requires KeyShaped(alnum, key) && KeyAt(r, key, k) && OnlyFieldBefore(alnum, key, w, r, k, m) && m <= |r|
    requires m <= k + |key|
    ensures Copies(alnum, key, w, r, 0, m)
  {
    hide DropsAt, Field;
    forall j | 0 <= j < m
      ensures !Gains(alnum, key, w, r, j) && !Dropped(alnum, key, w, r, j)
    {
      if Gains(alnum, key, w, r, j) {
        GainHasField(alnum, key, w, r, j);
      }
      if Dropped(alnum, key, w, r, j) {
        var i: nat :| DropsAt(alnum, key, w, r, i, j);
        DropsPastColon(alnum, key, w, r, i, j);
      }
    }
  }

  lemma DropsPastColon(alnum: char -> bool, key: string, w: bool, r: string, i: nat, j: int)
    requires DropsAt(alnum, key, w, r, i, j)
    ensures Field(alnum, key, w, r, i) && i + |key| < j
  {
    hide Count, TypeEnd, NthNull;
  }
}
