/** The cursor-driven rewriting equals the edits read off the original text at once. */
module AbsentTheorem {
  import opened Wrappers
  import opened Text
  import opened Rewriter
  import opened AbsentFields
  import opened AbsentLaws
  import opened NullDeletion

  // ----- Dropping the outer null -----

  lemma GainsHead(alnum: char -> bool, key: string, p: string, q: string, j: nat)
    requires Punctuated(alnum, key) && (q != "" ==> Stray(q[0])) && j < |p|
    ensures Gains(alnum, key, false, With(p, q), j) <==> Gains(alnum, key, false, p + q, j)
  {
    hide Field, Punctuated;
    HeadChar(p, q, j);
    if j >= |key| { FieldsBefore(alnum, key, p, q, j - |key|); } else { NoEarlyGain(alnum, key, p, q, j); }
  }

  lemma NoEarlyGain(alnum: char -> bool, key: string, p: string, q: string, j: nat)
    requires j < |key|
    ensures !Gains(alnum, key, false, With(p, q), j) && !Gains(alnum, key, false, p + q, j)
  {
  }

  lemma GainSide(alnum: char -> bool, key: string, p: string, q: string, j: int)
    requires Punctuated(alnum, key) && (q != "" ==> Stray(q[0]))
    ensures Gains(alnum, key, false, With(p, q), j) && j >= |p| ==> j - |key| > |p| + 7
    ensures Gains(alnum, key, false, p + q, j) && j >= |p| ==> j - |key| > |p|
  {
    hide Field, Punctuated;
    if Gains(alnum, key, false, With(p, q), j) {
      GainHasField(alnum, key, false, With(p, q), j);
      FieldsClear(alnum, key, p, q, j - |key|);
      GainColon(alnum, key, false, With(p, q), j);
    }
    if Gains(alnum, key, false, p + q, j) {
      GainHasField(alnum, key, false, p + q, j);
      FieldsClearAfter(alnum, key, p, q, j - |key|);
      GainColon(alnum, key, false, p + q, j);
    }
  }

  lemma GainColon(alnum: char -> bool, key: string, w: bool, r: string, j: int)
    requires Gains(alnum, key, w, r, j)
    ensures j >= |key| && ColonAt(r, key, j - |key|) == j
  {
  }

  lemma TailChar(p: string, q: string, j: nat)
    requires |p| <= j < |p + q|
    ensures j + 7 < |With(p, q)| && With(p, q)[j + 7] == (p + q)[j]
  {
  }

  lemma GainsTail(alnum: char -> bool, key: string, p: string, q: string, j: nat)
    requires Punctuated(alnum, key) && (q != "" ==> Stray(q[0])) && |p| <= j < |p + q|
    ensures Gains(alnum, key, false, With(p, q), j + 7) <==> Gains(alnum, key, false, p + q, j)
  {
    hide Field, Punctuated, With;
    TailChar(p, q, j);
    GainSide(alnum, key, p, q, j + 7);
    GainSide(alnum, key, p, q, j);
    if j - |key| > |p| { FieldsAfter(alnum, key, p, q, j - |key| - |p|); }
  }

  /** Position j lies in the null taken by a field inside a type that starts with t, whose
      own field comes before them all. */
  predicate DropsBelow(alnum: char -> bool, key: string, t: string, i: nat, j: int) {
    && Field(alnum, key, false, t, i)
    && var e := FieldEnd(t, key, i);
       var cut := NthCut(t, TypeStart(t, key, i), Count(alnum, key, false, t, e, i) + Extra(t, e));
       cut.Some? && cut.value <= j < cut.value + 7
  }

  ghost predicate DroppedBelow(alnum: char -> bool, key: string, t: string, j: int) {
    exists i: nat :: DropsBelow(alnum, key, t, i, j)
  }

  lemma DropsImage(alnum: char -> bool, key: string, p: string, q: string, i: nat, j: nat)
    requires Punctuated(alnum, key) && OuterCut(p, q) && Field(alnum, key, false, p + q, i)
    ensures DropsBelow(alnum, key, With(p, q), Image(p, i), Image(p, j)) <==> DropsAt(alnum, key, false, p + q, i, j)
  {
    hide Field, ColonAt, OuterCut, Punctuated, Stray, NthCut, With, Count, Extra, FieldEnd;
    CutShape(p, q);
    FieldImage(alnum, key, p, q, i);
    CountImage(alnum, key, p, q, FieldEnd(p + q, key, i), i);
    CutImage(alnum, key, p, q, i, Count(alnum, key, false, p + q, FieldEnd(p + q, key, i), i));
  }

  /** Inside the type the fields take the nulls they take once the outer one is gone. */
  lemma DroppedImage(alnum: char -> bool, key: string, p: string, q: string, j: nat)
    requires Punctuated(alnum, key) && OuterCut(p, q)
    ensures DroppedBelow(alnum, key, With(p, q), Image(p, j)) <==> Dropped(alnum, key, false, p + q, j)
  {
    hide Field, DropsAt, DropsBelow, OuterCut, Punctuated, Stray, With;
    CutShape(p, q);
    if Dropped(alnum, key, false, p + q, j) {
      var i: nat :| DropsAt(alnum, key, false, p + q, i, j);
      DropsPastColon(alnum, key, false, p + q, i, j);
      DropsImage(alnum, key, p, q, i, j);
      assert DropsBelow(alnum, key, With(p, q), Image(p, i), Image(p, j));
    }
    if DroppedBelow(alnum, key, With(p, q), Image(p, j)) {
      var i: nat :| DropsBelow(alnum, key, With(p, q), i, Image(p, j));
      BelowHasField(alnum, key, With(p, q), i, Image(p, j));
      FieldPreimage(alnum, key, p, q, i);
      var k := Preimage(p, i);
      DropsImage(alnum, key, p, q, k, j);
      assert DropsAt(alnum, key, false, p + q, k, j);
    }
  }

  lemma BelowHasField(alnum: char -> bool, key: string, t: string, i: nat, j: int)
    requires DropsBelow(alnum, key, t, i, j)
    ensures Field(alnum, key, false, t, i)
  {
  }

  lemma {:induction false} TrimWhole(a: string, x: string)
    requires TrimEnd(x) != ""
    ensures TrimEnd(a + x) == a + TrimEnd(x)
    decreases |x|
  {
    hide Whitespace;
    if Whitespace(x[|x| - 1]) {
      assert (a + x)[..|a + x| - 1] == a + x[..|x| - 1];
      TrimWhole(a, x[..|x| - 1]);
    }
  }

  lemma EndsNullWhole(a: string, x: string)
    ensures EndsNull(TrimEnd(x)) ==> EndsNull(TrimEnd(a + x))
  {
    if EndsNull(TrimEnd(x)) {
      TrimWhole(a, x);
      hide TrimEnd;
      assert (a + TrimEnd(x))[|a + TrimEnd(x)| - 7..] == TrimEnd(x)[|TrimEnd(x)| - 7..];
    }
  }

  /** A type with no trailing null holds none that ends with it and has one. */
  lemma NoOuterNoInner(t: string, s: nat, n: nat)
    requires s <= TypeEnd(t, 0, 0) && TypeEnd(t, s, 0) == TypeEnd(t, 0, 0) && NullCut(t, 0).None?
    ensures NthCut(t, s, n).None?
  {
    var e := TypeEnd(t, 0, 0);
    EndsNullWhole(t[..s], t[s..e]);
    assert t[..s] + t[s..e] == t[0..e];
    hide TypeEnd, TrimEnd;
  }

  lemma DropsPlain(alnum: char -> bool, key: string, t: string, i: nat, j: int)
    requires NullCut(t, 0).None?
    ensures DropsBelow(alnum, key, t, i, j) <==> DropsAt(alnum, key, false, t, i, j)
  {
    hide NthCut, TypeEnd, NullCut, Count;
    if Field(alnum, key, false, t, i) {
      FieldBounds(alnum, key, false, t, i);
      var e, s := FieldEnd(t, key, i), TypeStart(t, key, i);
      if e == TypeEnd(t, 0, 0) {
        NoOuterNoInner(t, s, Count(alnum, key, false, t, e, i));
        NoOuterNoInner(t, s, Count(alnum, key, false, t, e, i) + 1);
      }
    }
  }

  lemma DroppedPlain(alnum: char -> bool, key: string, t: string, j: int)
    requires NullCut(t, 0).None?
    ensures DroppedBelow(alnum, key, t, j) <==> Dropped(alnum, key, false, t, j)
  {
    hide DropsAt, DropsBelow, NullCut;
    forall i: nat ensures DropsBelow(alnum, key, t, i, j) <==> DropsAt(alnum, key, false, t, i, j) {
      DropsPlain(alnum, key, t, i, j);
    }
  }

  // ----- Past a field -----

  predicate OuterDrop(t: string, j: int) {
    NullCut(t, 0).Some? && NullCut(t, 0).value <= j < NullCut(t, 0).value + 7
  }

  /** h ends with the colon of the only field that starts in it. */
  ghost predicate PastColon(alnum: char -> bool, key: string, w: bool, h: string, t: string, k: nat) {
    && Field(alnum, key, w, h + t, k) && ColonAt(h + t, key, k) + 1 == |h|
    && OnlyFieldBefore(alnum, key, w, h + t, k, |h|) && !EndsInWord(alnum, h) && h != ""
  }

  lemma OuterEnd(alnum: char -> bool, key: string, w: bool, h: string, t: string, k: nat)
    requires Field(alnum, key, w, h + t, k) && ColonAt(h + t, key, k) + 1 == |h|
    ensures k < |h| && FieldEnd(h + t, key, k) == |h| + TypeEnd(t, 0, 0)
  {
    FieldBounds(alnum, key, w, h + t, k);
    TypeEndAhead(h, t, 0, 0);
    hide Field, ColonAt, TypeEnd;
  }

  /** Before a field of the rest there is the field of h, if their types end together. */
  lemma CountBelow(alnum: char -> bool, key: string, w: bool, h: string, t: string, k: nat, e: nat, n: nat)
    requires KeyShaped(alnum, key) && PastColon(alnum, key, w, h, t, k)
    ensures Count(alnum, key, w, h + t, |h| + e, |h| + n) == Count(alnum, key, false, t, e, n) + Extra(t, e)
  {
    hide Field, ColonAt, TypeEnd, FieldEnd, EndsInWord, OnlyFieldBefore, KeyShaped;
    CountPast(alnum, key, w, h, t, e, n);
    OuterEnd(alnum, key, w, h, t, k);
    CountOne(alnum, key, w, h + t, |h| + e, k, |h|);
  }

  lemma DropsPast(alnum: char -> bool, key: string, w: bool, h: string, t: string, k: nat, i: nat, j: int)
    requires KeyShaped(alnum, key) && PastColon(alnum, key, w, h, t, k)
    ensures DropsAt(alnum, key, w, h + t, |h| + i, |h| + j) <==> DropsBelow(alnum, key, t, i, j)
  {
    hide NthCut, Field, Count, FieldEnd, ColonAt, EndsInWord, KeyShaped, OnlyFieldBefore, Extra;
    FieldOfRest(alnum, key, w, h, t, i);
    if Field(alnum, key, false, t, i) {
      var e := FieldEnd(t, key, i);
      CountBelow(alnum, key, w, h, t, k, e, i);
      NthCutAhead(h, t, TypeStart(t, key, i), Count(alnum, key, false, t, e, i) + Extra(t, e));
    }
  }

  lemma FieldDrops(alnum: char -> bool, key: string, w: bool, h: string, t: string, k: nat, j: nat)
    requires PastColon(alnum, key, w, h, t, k)
    ensures DropsAt(alnum, key, w, h + t, k, |h| + j) <==> OuterDrop(t, j)
  {
    hide Field, NullCut, ColonAt, NthCut, EndsInWord, FieldEnd;
    FieldBounds(alnum, key, w, h + t, k);
    CountOne(alnum, key, w, h + t, FieldEnd(h + t, key, k), k, k);
    NthCutAhead(h, t, 0, 0);
    FirstCut(t, 0);
  }

  lemma GainsPastField(alnum: char -> bool, key: string, w: bool, h: string, t: string, k: nat, j: nat)
    requires KeyShaped(alnum, key) && PastColon(alnum, key, w, h, t, k)
    ensures Gains(alnum, key, w, h + t, |h| + j) <==> Gains(alnum, key, false, t, j)
  {
    hide Field, ColonAt;
    if j >= |key| {
      GainsPast(alnum, key, w, h, t, j);
    } else {
      NoGainInKey(alnum, key, false, t, j);
      if Gains(alnum, key, w, h + t, |h| + j) {
        GainHasField(alnum, key, w, h + t, |h| + j);
        GainColon(alnum, key, w, h + t, |h| + j);
      }
    }
  }

  /** Past the colon of the one field of h, text is edited as inside its type, save for the
      null of that field. */
  lemma PastField(alnum: char -> bool, key: string, w: bool, h: string, t: string, k: nat, j: nat)
    requires KeyShaped(alnum, key) && PastColon(alnum, key, w, h, t, k)
    ensures Gains(alnum, key, w, h + t, |h| + j) <==> Gains(alnum, key, false, t, j)
    ensures Dropped(alnum, key, w, h + t, |h| + j) <==> DroppedBelow(alnum, key, t, j) || OuterDrop(t, j)
  {
    hide Field, NullCut, DropsAt, DropsBelow, ColonAt, EndsInWord, Gains, KeyShaped;
    GainsPastField(alnum, key, w, h, t, k, j);
    FieldDrops(alnum, key, w, h, t, k, j);
    if Dropped(alnum, key, w, h + t, |h| + j) {
      var i: nat :| DropsAt(alnum, key, w, h + t, i, |h| + j);
      DropsPastColon(alnum, key, w, h + t, i, |h| + j);
      if i >= |h| {
        DropsPast(alnum, key, w, h, t, k, i - |h|, j);
        assert DropsBelow(alnum, key, t, i - |h|, j);
      }
    }
    if DroppedBelow(alnum, key, t, j) {
      var i: nat :| DropsBelow(alnum, key, t, i, j);
      DropsPast(alnum, key, w, h, t, k, i, j);
      assert DropsAt(alnum, key, w, h + t, |h| + i, |h| + j);
    }
  }

  // ----- The field that comes first -----

  lemma ColonIsNoField(alnum: char -> bool, key: string, w: bool, r: string, c: nat)
    requires KeyShaped(alnum, key) && c < |r| && r[c] == ':'
    ensures !Field(alnum, key, w, r, c)
  {
  }

  lemma ColonNear(r: string, key: string, k: nat)
    ensures k + |key| <= ColonAt(r, key, k) <= k + |key| + 1
  {
  }

  lemma OnlyInHead(alnum: char -> bool, key: string, w: bool, r: string, k: nat)
    requires KeyShaped(alnum, key) && Find(r, key, 0) == k && Field(alnum, key, w, r, k)
    ensures ColonAt(r, key, k) < |r| && OnlyFieldBefore(alnum, key, w, r, k, ColonAt(r, key, k) + 1)
  {
    hide Field, KeyAt, KeyShaped, Find;
    FirstIsOnly(alnum, key, w, r, k);
    FieldBounds(alnum, key, w, r, k);
    ColonIsNoField(alnum, key, w, r, ColonAt(r, key, k));
    ColonNear(r, key, k);
  }

  lemma DropIsPast(alnum: char -> bool, key: string, w: bool, r: string, k: nat, i: nat, j: nat)
    requires OnlyFieldBefore(alnum, key, w, r, k, ColonAt(r, key, k) + 1) && j <= ColonAt(r, key, k)
    ensures !DropsAt(alnum, key, w, r, i, j)
  {
    hide Field, ColonAt, NullCut;
    if DropsAt(alnum, key, w, r, i, j) { DropsPastColon(alnum, key, w, r, i, j); }
  }

  /** Nothing of the name, the mark or the colon is dropped. */
  lemma HeadNotDropped(alnum: char -> bool, key: string, w: bool, r: string, k: nat, j: nat)
    requires OnlyFieldBefore(alnum, key, w, r, k, ColonAt(r, key, k) + 1) && j <= ColonAt(r, key, k)
    ensures !Dropped(alnum, key, w, r, j)
  {
    hide OnlyFieldBefore, ColonAt, DropsAt;
    forall i: nat ensures !DropsAt(alnum, key, w, r, i, j) { DropIsPast(alnum, key, w, r, k, i, j); }
  }

  lemma PieceIs(alnum: char -> bool, key: string, w: bool, r: string, j: nat)
    requires j < |r| && !Dropped(alnum, key, w, r, j)
    ensures Edited(alnum, key, w, r, j, j + 1) == if Gains(alnum, key, w, r, j) then "?" + [r[j]] else [r[j]]
  {
    hide Dropped, Gains;
    assert Edited(alnum, key, w, r, j, j) == "";
  }

  /** With a mark already there, neither it nor the colon is changed. */
  lemma MarkKept(alnum: char -> bool, key: string, w: bool, r: string, k: nat)
    requires KeyShaped(alnum, key) && KeyAt(r, key, k) && Field(alnum, key, w, r, k)
    requires ColonAt(r, key, k) == k + |key| + 1
    ensures k + |key| < |r| && r[k + |key|] == '?'
    ensures !Gains(alnum, key, w, r, k + |key|) && !Gains(alnum, key, w, r, k + |key| + 1)
  {
    NoFieldWithin(alnum, key, w, r, k, k + 1);
    hide KeyAt, FreeIn;
  }

  lemma MarkAdded(alnum: char -> bool, key: string, w: bool, r: string, k: nat)
    requires Field(alnum, key, w, r, k) && ColonAt(r, key, k) == k + |key|
    ensures k + |key| < |r| && r[k + |key|] == ':' && Gains(alnum, key, w, r, k + |key|)
  {
  }

  /** The mark and the colon come out as `?:`, whichever way they went in. */
  lemma ColonMarked(alnum: char -> bool, key: string, w: bool, r: string, k: nat)
    requires KeyShaped(alnum, key) && Find(r, key, 0) == k && Field(alnum, key, w, r, k)
    ensures var c := ColonAt(r, key, k); k + |key| <= c < |r| && Edited(alnum, key, w, r, k + |key|, c + 1) == "?:"
  {
    hide Edited, Field, Dropped, Gains, ColonAt, KeyAt, OnlyFieldBefore, KeyShaped, Find;
    var a, c := k + |key|, ColonAt(r, key, k);
    ColonNear(r, key, k);
    OnlyInHead(alnum, key, w, r, k);
    HeadNotDropped(alnum, key, w, r, k, a);
    HeadNotDropped(alnum, key, w, r, k, c);
    PieceIs(alnum, key, w, r, a);
    PieceIs(alnum, key, w, r, c);
    FieldBounds(alnum, key, w, r, k);
    if c == a {
      MarkAdded(alnum, key, w, r, k);
    } else {
      FindIsKey(r, key, k);
      MarkKept(alnum, key, w, r, k);
      EditedSplit(alnum, key, w, r, a, c, c + 1);
    }
  }

  lemma FindIsKey(r: string, key: string, k: nat)
    requires Find(r, key, 0) == k
    ensures KeyAt(r, key, k)
  {
  }

  lemma HeadEdited(alnum: char -> bool, key: string, w: bool, r: string, k: nat)
    requires KeyShaped(alnum, key) && Find(r, key, 0) == k && Field(alnum, key, w, r, k)
    ensures var c := ColonAt(r, key, k);
            k + |key| <= c < |r| && Edited(alnum, key, w, r, 0, c + 1) == r[..k + |key|] + "?:"
  {
    hide Field, Edited, Gains, Dropped, Copies;
    var a, c := k + |key|, ColonAt(r, key, k);
    FieldBounds(alnum, key, w, r, k);
    ColonMarked(alnum, key, w, r, k);
    FirstIsOnly(alnum, key, w, r, k);
    HeadCopies(alnum, key, w, r, k, a);
    EditedCopies(alnum, key, w, r, 0, a);
    EditedSplit(alnum, key, w, r, 0, a, c + 1);
    assert r[0..a] == r[..a];
  }

  // ----- The text past it -----

  lemma PastPlain(alnum: char -> bool, key: string, w: bool, h: string, t: string, k: nat)
    requires KeyShaped(alnum, key) && PastColon(alnum, key, w, h, t, k) && NullCut(t, 0).None?
    ensures Edited(alnum, key, w, h + t, |h|, |h + t|) == Edited(alnum, key, false, t, 0, |t|)
  {
    hide NullCut, Gains, Dropped, DroppedBelow, Edited, PastColon, KeyShaped;
    forall j: nat | j < |t|
      ensures Same(alnum, key, w, h + t, |h|, false, t, 0, j)
    {
      PastField(alnum, key, w, h, t, k, j);
      DroppedPlain(alnum, key, t, j);
    }
    EditedAlike(alnum, key, w, h + t, |h|, false, t, 0, |t|);
  }

  lemma PastHead(alnum: char -> bool, key: string, w: bool, h: string, p: string, q: string, k: nat, j: nat)
    requires Punctuated(alnum, key) && PastColon(alnum, key, w, h, With(p, q), k) && OuterCut(p, q) && j < |p|
    ensures Same(alnum, key, w, h + With(p, q), |h|, false, p + q, 0, j)
  {
    hide Gains, Dropped, DroppedBelow, PastColon, OuterCut, With, NullCut, Stray;
    CutShape(p, q);
    OuterDropIs(p, q, j);
    PastField(alnum, key, w, h, With(p, q), k, j);
    HeadChar(p, q, j);
    GainsHead(alnum, key, p, q, j);
    DroppedImage(alnum, key, p, q, j);
  }

  lemma OuterDropIs(p: string, q: string, j: int)
    requires OuterCut(p, q)
    ensures OuterDrop(With(p, q), j) <==> |p| <= j < |p| + 7
  {
  }

  lemma PastTail(alnum: char -> bool, key: string, w: bool, h: string, p: string, q: string, k: nat, j: nat)
    requires Punctuated(alnum, key) && PastColon(alnum, key, w, h, With(p, q), k) && OuterCut(p, q) && j < |q|
    ensures Same(alnum, key, w, h + With(p, q), |h| + |p| + 7, false, p + q, |p|, j)
  {
    hide Gains, Dropped, DroppedBelow, PastColon, OuterCut, With, NullCut, Stray;
    CutShape(p, q);
    OuterDropIs(p, q, |p| + 7 + j);
    PastField(alnum, key, w, h, With(p, q), k, |p| + 7 + j);
    TailChar(p, q, |p| + j);
    GainsTail(alnum, key, p, q, |p| + j);
    DroppedImage(alnum, key, p, q, |p| + j);
  }

  lemma PastGap(alnum: char -> bool, key: string, w: bool, h: string, p: string, q: string, k: nat, j: nat)
    requires Punctuated(alnum, key) && PastColon(alnum, key, w, h, With(p, q), k) && OuterCut(p, q)
    requires |p| <= j < |p| + 7
    ensures !Gains(alnum, key, w, h + With(p, q), |h| + j) && Dropped(alnum, key, w, h + With(p, q), |h| + j)
  {
    hide Gains, Dropped, DroppedBelow, PastColon, OuterCut, With, NullCut, Stray;
    CutShape(p, q);
    OuterDropIs(p, q, j);
    PastField(alnum, key, w, h, With(p, q), k, j);
    GainSide(alnum, key, p, q, j);
    GainColonFar(alnum, key, With(p, q), j, |p|);
  }

  lemma PastCutSides(alnum: char -> bool, key: string, w: bool, h: string, p: string, q: string, k: nat)
    requires Punctuated(alnum, key) && PastColon(alnum, key, w, h, With(p, q), k) && OuterCut(p, q)
    ensures |With(p, q)| == |p| + 7 + |q|
    ensures var t := With(p, q);
            && Alike(alnum, key, w, h + t, |h|, false, p + q, 0, |p|)
            && Empties(alnum, key, w, h + t, |h| + |p|, |h| + |p| + 7)
            && Alike(alnum, key, w, h + t, |h| + |p| + 7, false, p + q, |p|, |q|)
  {
    NullChars(p, q);
    hide Gains, Dropped, PastColon, OuterCut, With, Punctuated, Same;
    var r, m := h + With(p, q), |h| + |p| + 7;
    forall j: nat | j < |p| ensures Same(alnum, key, w, r, |h|, false, p + q, 0, j) {
      PastHead(alnum, key, w, h, p, q, k, j);
    }
    forall j | |h| + |p| <= j < m ensures !Gains(alnum, key, w, r, j) && Dropped(alnum, key, w, r, j) {
      PastGap(alnum, key, w, h, p, q, k, j - |h|);
    }
    forall j: nat | j < |q| ensures Same(alnum, key, w, r, m, false, p + q, |p|, j) {
      PastTail(alnum, key, w, h, p, q, k, j);
    }
  }

  lemma GainColonFar(alnum: char -> bool, key: string, t: string, j: nat, n: nat)
    requires KeyShaped(alnum, key) && n <= j < n + 7 && (Gains(alnum, key, false, t, j) ==> j - |key| > n + 7)
    ensures !Gains(alnum, key, false, t, j)
  {
  }

  /** A stretch edited away between two stretches edited alike joins up. */
  lemma AroundTheCut(alnum: char -> bool, key: string, w: bool, r: string, v: bool, u: string, a: nat, n: nat)
    requires a + n + 7 <= |r| && |u| + a + 7 == |r|
    requires Alike(alnum, key, w, r, a, v, u, 0, n) && Empties(alnum, key, w, r, a + n, a + n + 7)
    requires Alike(alnum, key, w, r, a + n + 7, v, u, n, |u| - n)
    ensures Edited(alnum, key, w, r, a, |r|) == Edited(alnum, key, v, u, 0, |u|)
  {
    hide Edited, Alike, Empties;
    EditedAlike(alnum, key, w, r, a, v, u, 0, n);
    EditedEmpties(alnum, key, w, r, a + n, a + n + 7);
    EditedAlike(alnum, key, w, r, a + n + 7, v, u, n, |u| - n);
    EditedSplit(alnum, key, w, r, a, a + n, |r|);
    EditedSplit(alnum, key, w, r, a + n, a + n + 7, |r|);
    EditedSplit(alnum, key, v, u, 0, n, |u|);
  }

  lemma PastCut(alnum: char -> bool, key: string, w: bool, h: string, p: string, q: string, k: nat)
    requires Punctuated(alnum, key) && PastColon(alnum, key, w, h, With(p, q), k) && OuterCut(p, q)
    ensures var r := h + With(p, q);
            Edited(alnum, key, w, r, |h|, |r|) == Edited(alnum, key, false, p + q, 0, |p + q|)
  {
    hide Edited, Alike, Empties, With, Punctuated, PastColon, OuterCut;
    PastCutSides(alnum, key, w, h, p, q, k);
    var r, u := h + With(p, q), p + q;
    assert |r| == |h| + |p| + 7 + |q| && |u| - |p| == |q|;
    AroundTheCut(alnum, key, w, r, false, u, |h|, |p|);
  }

  lemma CutApart(t: string)
    requires NullCut(t, 0).Some?
    ensures var c := NullCut(t, 0).value;
            && c + 7 <= |t| && t == With(t[..c], t[c + 7..]) && OuterCut(t[..c], t[c + 7..])
            && Stripped(t) == t[..c] + t[c + 7..]
  {
    var c := NullCut(t, 0).value;
    hide NullCut, TypeEnd;
    assert t == t[..c] + t[c..c + 7] + t[c + 7..];
  }

  /** Past the first field the original is edited as its stripped rest is. */
  lemma PastEdited(alnum: char -> bool, key: string, w: bool, h: string, t: string, k: nat)
    requires Punctuated(alnum, key) && PastColon(alnum, key, w, h, t, k)
    ensures Edited(alnum, key, w, h + t, |h|, |h + t|) == Edited(alnum, key, false, Stripped(t), 0, |Stripped(t)|)
  {
    KeyShape(alnum, key);
    hide Edited, NullCut, PastColon, With, Punctuated, KeyShaped;
    if NullCut(t, 0).Some? {
      var c := NullCut(t, 0).value;
      CutApart(t);
      PastCut(alnum, key, w, h, t[..c], t[c + 7..], k);
    } else {
      PastPlain(alnum, key, w, h, t, k);
    }
  }

  // ----- The rewriting -----

  lemma NoFieldInWord(alnum: char -> bool, key: string, w: bool, r: string, k: nat)
    requires KeyShaped(alnum, key) && Find(r, key, 0) == k && !Field(alnum, key, w, r, k)
    ensures forall i: nat :: i < k + |key| ==> !Field(alnum, key, w, r, i)
  {
    FirstIsOnly(alnum, key, w, r, k);
    hide Field, KeyAt, Find;
  }

  lemma WordCopied(alnum: char -> bool, key: string, w: bool, r: string, k: nat)
    requires KeyShaped(alnum, key) && Find(r, key, 0) == k && k + |key| <= |r|
    ensures Edited(alnum, key, w, r, 0, k + |key|) == r[..k + |key|]
  {
    hide Field, Edited, Copies, Find, KeyAt;
    FirstIsOnly(alnum, key, w, r, k);
    HeadCopies(alnum, key, w, r, k, k + |key|);
    EditedCopies(alnum, key, w, r, 0, k + |key|);
  }

  /** A word is copied, and what follows it is edited on its own. */
  lemma WordSplit(alnum: char -> bool, key: string, w: bool, p: string, t: string, k: nat)
    requires Punctuated(alnum, key) && Find(p + t, key, 0) == k && |p| == k + |key| && !Field(alnum, key, w, p + t, k)
    requires EndsInWord(alnum, p) && p != ""
    ensures Edited(alnum, key, w, p + t, 0, |p + t|) == p + Edited(alnum, key, true, t, 0, |t|)
  {
    hide Field, Edited, Alike, Find, KeyAt, EndsInWord;
    NoFieldInWord(alnum, key, w, p + t, k);
    WordCopied(alnum, key, w, p + t, k);
    EditedSplit(alnum, key, w, p + t, 0, |p|, |p + t|);
    RestAlike(alnum, key, w, p, t);
    EditedAlike(alnum, key, w, p + t, |p|, true, t, 0, |t|);
  }

  lemma WordEdited(alnum: char -> bool, key: string, w: bool, r: string, k: nat)
    requires Punctuated(alnum, key) && Find(r, key, 0) == k && k + |key| <= |r| && !Field(alnum, key, w, r, k)
    ensures Edited(alnum, key, w, r, 0, |r|)
         == r[..k + |key|] + Edited(alnum, key, true, r[k + |key|..], 0, |r[k + |key|..]|)
  {
    hide Field, Edited, Find, KeyAt, EndsInWord, Punctuated;
    var m := k + |key|;
    KeyPresent(alnum, key);
    FindIsKey(r, key, k);
    KeyEndsInWord(alnum, key, "", r, k);
    assert r[..m] + r[m..] == r && "" + r[..m] == r[..m];
    WordSplit(alnum, key, w, r[..m], r[m..], k);
  }

  lemma ColonEndsNoWord(alnum: char -> bool, key: string, h: string)
    requires Punctuated(alnum, key) && h != "" && h[|h| - 1] == ':'
    ensures KeyShaped(alnum, key) && !EndsInWord(alnum, h)
  {
  }

  lemma FieldSplit(alnum: char -> bool, key: string, w: bool, h: string, t: string, k: nat)
    requires Punctuated(alnum, key) && Find(h + t, key, 0) == k && Field(alnum, key, w, h + t, k)
    requires h != "" && h[|h| - 1] == ':' && ColonAt(h + t, key, k) + 1 == |h|
    ensures k + |key| < |h|
    ensures Edited(alnum, key, w, h + t, 0, |h + t|)
         == (h + t)[..k + |key|] + "?:" + Edited(alnum, key, false, Stripped(t), 0, |Stripped(t)|)
  {
    hide Field, Edited, ColonAt, Stripped, Find, KeyAt, Punctuated, KeyShaped, OnlyFieldBefore, EndsInWord;
    ColonEndsNoWord(alnum, key, h);
    OnlyInHead(alnum, key, w, h + t, k);
    HeadEdited(alnum, key, w, h + t, k);
    PastEdited(alnum, key, w, h, t, k);
    EditedSplit(alnum, key, w, h + t, 0, |h|, |h + t|);
  }

  lemma FieldEdited(alnum: char -> bool, key: string, w: bool, r: string, k: nat)
    requires Punctuated(alnum, key) && Find(r, key, 0) == k && Field(alnum, key, w, r, k)
    ensures ColonAt(r, key, k) < |r| && k + |key| <= |r|
    ensures var u := Stripped(r[ColonAt(r, key, k) + 1..]);
            && |u| < |r|
            && Edited(alnum, key, w, r, 0, |r|) == r[..k + |key|] + "?:" + Edited(alnum, key, false, u, 0, |u|)
  {
    hide Field, Edited, ColonAt, Stripped, Find, KeyAt, Punctuated;
    FieldBounds(alnum, key, w, r, k);
    var c := ColonAt(r, key, k);
    assert r[..c + 1] + r[c + 1..] == r;
    FieldSplit(alnum, key, w, r[..c + 1], r[c + 1..], k);
    StrippedShorter(r[c + 1..]);
  }

  lemma CopyEndsInWord(alnum: char -> bool, key: string, r: string, k: nat)
    requires Punctuated(alnum, key) && Find(r, key, 0) == k
    ensures k + |key| <= |r| && r[..k + |key|] != "" && EndsInWord(alnum, r[..k + |key|])
  {
    FindIsKey(r, key, k);
    KeyPresent(alnum, key);
    KeyEndsInWord(alnum, key, "", r, k);
    assert "" + r[..k + |key|] == r[..k + |key|];
  }

  lemma KeyShape(alnum: char -> bool, key: string)
    requires Punctuated(alnum, key)
    ensures KeyShaped(alnum, key)
  {
  }

  /** On every text: rewriting marks each field of the original at its colon, drops for each
      field one null of those its type ends with, the last one when no other field's type
      ends there, and copies all other characters. */
  lemma {:induction false} RewritingIsPositional(alnum: char -> bool, key: string, w: bool, r: string)
    requires Punctuated(alnum, key)
    ensures Rewrite(alnum, key, w, r) == Edited(alnum, key, w, r, 0, |r|)
    decreases |r|
  {
    KeyPresent(alnum, key);
    var k := Find(r, key, 0);
    hide Field, Edited, ColonAt, Stripped, Rewrite, Punctuated, Find;
    if k == -1 {
      NothingLeft(alnum, key, w, r);
      NoKeyCopies(alnum, key, w, r);
    } else if Field(alnum, key, w, r, k) {
      FieldEdited(alnum, key, w, r, k);
      RewriteField(alnum, key, w, r, k);
      RewritingIsPositional(alnum, key, false, Stripped(r[ColonAt(r, key, k) + 1..]));
    } else {
      KeyFits(r, key, k);
      WordEdited(alnum, key, w, r, k);
      RewriteWord(alnum, key, w, r, k);
      RewritingIsPositional(alnum, key, true, r[k + |key|..]);
    }
  }
}
