/** A second pass: rewriting is idempotent exactly where no type ends with more nulls than
    there are fields whose types end with it. */
module AbsentAgain {
  import opened Wrappers
  import opened Text
  import opened Rewriter
  import opened AbsentFields
  import opened AbsentLaws
  import opened NullDeletion
  import opened AbsentTheorem
  import opened OuterNulls
  import opened AbsentTwice

  /** The type of the field at i ends with more nulls than there are fields that end there. */
  ghost predicate Surplus(alnum: char -> bool, key: string, w: bool, r: string, i: nat) {
    && Field(alnum, key, w, r, i)
    && NthCut(r, TypeStart(r, key, i), CountAll(alnum, key, w, r, FieldEnd(r, key, i))).Some?
  }

  ghost predicate NoSurplus(alnum: char -> bool, key: string, w: bool, r: string) {
    forall i: nat :: !Surplus(alnum, key, w, r, i)
  }

  // ----- A field inside a type -----

  /** The same inside a type that starts with t, whose own field counts too. */
  ghost predicate SurplusBelow(alnum: char -> bool, key: string, t: string, i: nat) {
    && Field(alnum, key, false, t, i)
    && var e := FieldEnd(t, key, i);
       NthCut(t, TypeStart(t, key, i), CountAll(alnum, key, false, t, e) + Extra(t, e)).Some?
  }

  lemma SurplusPast(alnum: char -> bool, key: string, w: bool, h: string, t: string, k: nat, i: nat)
    requires KeyShaped(alnum, key) && PastColon(alnum, key, w, h, t, k)
    ensures Surplus(alnum, key, w, h + t, |h| + i) <==> SurplusBelow(alnum, key, t, i)
  {
    hide NthCut, Field, CountAll, FieldEnd, ColonAt, EndsInWord, KeyShaped, OnlyFieldBefore, Extra;
    FieldOfRest(alnum, key, w, h, t, i);
    if Field(alnum, key, false, t, i) {
      var e := FieldEnd(t, key, i);
      CountAllBelow(alnum, key, w, h, t, k, e);
      NthCutAhead(h, t, TypeStart(t, key, i), CountAll(alnum, key, false, t, e) + Extra(t, e));
    }
  }

  lemma SurplusRest(alnum: char -> bool, key: string, w: bool, h: string, t: string, i: nat)
    requires KeyShaped(alnum, key) && h != "" && forall i: nat :: i < |h| ==> !Field(alnum, key, w, h + t, i)
    ensures Surplus(alnum, key, w, h + t, |h| + i) <==> Surplus(alnum, key, EndsInWord(alnum, h), t, i)
  {
    hide NthCut, Field, CountAll, FieldEnd, ColonAt, EndsInWord, KeyShaped;
    FieldOfRest(alnum, key, w, h, t, i);
    if Field(alnum, key, EndsInWord(alnum, h), t, i) {
      var e := FieldEnd(t, key, i);
      CountAllRest(alnum, key, w, h, t, e);
      NthCutAhead(h, t, TypeStart(t, key, i), CountAll(alnum, key, EndsInWord(alnum, h), t, e));
    }
  }

  /** A field of h takes the last null of its own type: more are left when, without it, the
      type ends with more nulls than there are fields inside that end there. */
  lemma SurplusOwn(alnum: char -> bool, key: string, w: bool, h: string, t: string, k: nat)
    requires Punctuated(alnum, key) && PastColon(alnum, key, w, h, t, k)
    ensures var u := Stripped(t);
            Surplus(alnum, key, w, h + t, k)
            <==> OuterNth("", u, 0, CountAll(alnum, key, false, u, TypeEnd(u, 0, 0)))
  {
    hide NthCut, Field, CountAll, ColonAt, EndsInWord, Punctuated, OnlyFieldBefore, TypeEnd, Stripped, OuterNth;
    KeyShape(alnum, key);
    var e := TypeEnd(t, 0, 0);
    OuterEnd(alnum, key, w, h, t, k);
    CountAllBelow(alnum, key, w, h, t, k, e);
    CountStripped(alnum, key, t, 0);
    var n := CountAll(alnum, key, false, t, e);
    NthCutAhead(h, t, 0, n + 1);
    OuterNthIsCut(t, n + 1);
    StripNth(t, 0, n);
  }

  lemma SurplusImage(alnum: char -> bool, key: string, p: string, q: string, i: nat)
    requires Punctuated(alnum, key) && OuterCut(p, q) && Field(alnum, key, false, p + q, i)
    ensures SurplusBelow(alnum, key, With(p, q), Image(p, i)) <==> Surplus(alnum, key, false, p + q, i)
  {
    hide Field, ColonAt, OuterCut, Punctuated, Stray, NthCut, With, Count, Extra, FieldEnd;
    CutShape(p, q);
    FieldImage(alnum, key, p, q, i);
    CountAllImage(alnum, key, p, q, FieldEnd(p + q, key, i));
    CutImage(alnum, key, p, q, i, CountAll(alnum, key, false, p + q, FieldEnd(p + q, key, i)));
  }

  lemma SurplusPlain(alnum: char -> bool, key: string, t: string, i: nat)
    requires NullCut(t, 0).None?
    ensures SurplusBelow(alnum, key, t, i) <==> Surplus(alnum, key, false, t, i)
  {
    hide NthCut, TypeEnd, NullCut, CountAll;
    if Field(alnum, key, false, t, i) {
      FieldBounds(alnum, key, false, t, i);
      var e, s := FieldEnd(t, key, i), TypeStart(t, key, i);
      if e == TypeEnd(t, 0, 0) {
        NoOuterNoInner(t, s, CountAll(alnum, key, false, t, e));
        NoOuterNoInner(t, s, CountAll(alnum, key, false, t, e) + 1);
      }
    }
  }

  /** Inside the type there is a surplus exactly when there is one once it is stripped. */
  lemma SurplusStripped(alnum: char -> bool, key: string, t: string)
    requires Punctuated(alnum, key)
    ensures (forall i: nat :: !SurplusBelow(alnum, key, t, i)) <==> NoSurplus(alnum, key, false, Stripped(t))
  {
    hide NullCut, With, Punctuated, SurplusBelow, Surplus, Field, Stray;
    StrippedIs(t);
    if NullCut(t, 0).Some? {
      CutApart(t);
      var p, q := t[..NullCut(t, 0).value], t[NullCut(t, 0).value + 7..];
      CutShape(p, q);
      forall i: nat | Surplus(alnum, key, false, p + q, i)
        ensures SurplusBelow(alnum, key, t, Image(p, i))
      {
        SurplusIsField(alnum, key, false, p + q, i);
        SurplusImage(alnum, key, p, q, i);
      }
      forall i: nat | SurplusBelow(alnum, key, t, i)
        ensures Surplus(alnum, key, false, p + q, Preimage(p, i))
      {
        BelowIsField(alnum, key, t, i);
        FieldPreimage(alnum, key, p, q, i);
        SurplusImage(alnum, key, p, q, Preimage(p, i));
      }
    } else {
      forall i: nat ensures SurplusBelow(alnum, key, t, i) <==> Surplus(alnum, key, false, t, i) {
        SurplusPlain(alnum, key, t, i);
      }
    }
  }

  lemma SurplusIsField(alnum: char -> bool, key: string, w: bool, r: string, i: nat)
    requires Surplus(alnum, key, w, r, i)
    ensures Field(alnum, key, w, r, i)
  {
  }

  lemma BelowIsField(alnum: char -> bool, key: string, t: string, i: nat)
    requires SurplusBelow(alnum, key, t, i)
    ensures Field(alnum, key, false, t, i)
  {
  }

  // ----- What one pass leaves -----

  lemma NoSurplusField(alnum: char -> bool, key: string, w: bool, h: string, t: string, k: nat)
    requires Punctuated(alnum, key) && PastColon(alnum, key, w, h, t, k)
    ensures var u := Stripped(t);
            NoSurplus(alnum, key, w, h + t)
            <==>
              && NoSurplus(alnum, key, false, u)
              && !OuterNth("", u, 0, CountAll(alnum, key, false, u, TypeEnd(u, 0, 0)))
  {
    hide Surplus, SurplusBelow, PastColon, Punctuated, Stripped, OuterNth, CountAll, TypeEnd, Field;
    KeyShape(alnum, key);
    SurplusOwn(alnum, key, w, h, t, k);
    SurplusStripped(alnum, key, t);
    forall i: nat ensures Surplus(alnum, key, w, h + t, |h| + i) <==> SurplusBelow(alnum, key, t, i) {
      SurplusPast(alnum, key, w, h, t, k, i);
    }
    forall i: nat | Surplus(alnum, key, w, h + t, i)
      ensures i == k || (i >= |h| && SurplusBelow(alnum, key, t, i - |h|))
    {
      SurplusIsField(alnum, key, w, h + t, i);
      OnlyInColon(alnum, key, w, h, t, k, i);
      if i >= |h| { assert Surplus(alnum, key, w, h + t, |h| + (i - |h|)); }
    }
  }

  lemma OnlyInColon(alnum: char -> bool, key: string, w: bool, h: string, t: string, k: nat, i: nat)
    requires PastColon(alnum, key, w, h, t, k) && Field(alnum, key, w, h + t, i)
    ensures i == k || i >= |h|
  {
  }

  lemma NoSurplusRest(alnum: char -> bool, key: string, w: bool, h: string, t: string)
    requires KeyShaped(alnum, key) && h != "" && forall i: nat :: i < |h| ==> !Field(alnum, key, w, h + t, i)
    ensures NoSurplus(alnum, key, w, h + t) <==> NoSurplus(alnum, key, EndsInWord(alnum, h), t)
  {
    hide Surplus, KeyShaped, EndsInWord, Field;
    forall i: nat
      ensures Surplus(alnum, key, w, h + t, |h| + i) <==> Surplus(alnum, key, EndsInWord(alnum, h), t, i)
    {
      SurplusRest(alnum, key, w, h, t, i);
    }
    forall i: nat | Surplus(alnum, key, w, h + t, i)
      ensures i >= |h| && Surplus(alnum, key, EndsInWord(alnum, h), t, i - |h|)
    {
      SurplusIsField(alnum, key, w, h + t, i);
      assert Surplus(alnum, key, w, h + t, |h| + (i - |h|));
    }
  }

  lemma NullLeft(alnum: char -> bool, key: string, w: bool, p: string, x: string)
    requires KeyShaped(alnum, key) && p != "" && NoNulls(alnum, key, w, p + x)
    ensures NoNulls(alnum, key, EndsInWord(alnum, p), x)
  {
    hide Field, ColonAt, HasNull, EndsInWord, FieldEnd, KeyShaped;
    forall i: nat | Field(alnum, key, EndsInWord(alnum, p), x, i)
      ensures !HasNull(x, TypeStart(x, key, i))
    {
      FieldOfRest(alnum, key, w, p, x, i);
      FieldFromRest(alnum, key, w, p, x, |p| + i);
    }
  }

  lemma HasNullField(alnum: char -> bool, key: string, w: bool, r: string, i: nat)
    requires Field(alnum, key, w, r, i) && NoNulls(alnum, key, w, r)
    ensures !HasNull(r, TypeStart(r, key, i))
  {
    hide Field, HasNull, ColonAt;
  }

  lemma SeamNull(p: string, x: string)
    ensures HasNull(p + x, |p|) <==> OuterNth("", x, 0, 0)
  {
    OuterNthIsCut(x, 0);
    FirstCut(x, 0);
    NullAhead(p, x, 0);
    hide NullCut, OuterNth;
  }

  lemma NullsOfField(alnum: char -> bool, key: string, w: bool, r: string, x: string, k: nat)
    requires KeyShaped(alnum, key) && Find(r, key, 0) == k && Field(alnum, key, w, r, k) && k + |key| <= |r|
    ensures NoNulls(alnum, key, w, r[..k + |key|] + "?:" + x)
       <==> NoNulls(alnum, key, false, x) && !OuterNth("", x, 0, 0)
  {
    hide Field, ColonAt, HasNull, EndsInWord, FieldEnd, Find, OuterNth, KeyShaped;
    var p := r[..k + |key|] + "?:";
    FieldCopied(alnum, key, w, r, x, k);
    SeamNull(p, x);
    if NoNulls(alnum, key, w, p + x) {
      NullLeft(alnum, key, w, p, x);
      HasNullField(alnum, key, w, p + x, k);
    }
    if NoNulls(alnum, key, false, x) && !OuterNth("", x, 0, 0) {
      forall i: nat | i < |p| && Field(alnum, key, w, p + x, i) ensures i == k {
        OnlyFieldCopied(alnum, key, w, r, x, k, i);
      }
      NullsPast(alnum, key, w, p, x);
    }
  }

  lemma NullsOfWord(alnum: char -> bool, key: string, w: bool, r: string, k: nat)
    requires Punctuated(alnum, key) && Find(r, key, 0) == k && k + |key| <= |r| && !Field(alnum, key, w, r, k)
    ensures var x := Rewrite(alnum, key, true, r[k + |key|..]);
            NoNulls(alnum, key, w, r[..k + |key|] + x) <==> NoNulls(alnum, key, true, x)
  {
    hide Field, ColonAt, HasNull, EndsInWord, FieldEnd, Find, Rewrite, Punctuated, NoNulls;
    KeyShape(alnum, key);
    CopyEndsInWord(alnum, key, r, k);
    var p, x := r[..k + |key|], Rewrite(alnum, key, true, r[k + |key|..]);
    forall i: nat | i < |p| ensures !Field(alnum, key, w, p + x, i) {
      NoFieldInCopy(alnum, key, w, r, k, i);
    }
    if NoNulls(alnum, key, w, p + x) { NullLeft(alnum, key, w, p, x); }
    if NoNulls(alnum, key, true, x) { NullsPast(alnum, key, w, p, x); }
  }

  /** One pass leaves no field whose type ends in a null exactly when there was no surplus. */
  lemma {:induction false} NullsGoneIff(alnum: char -> bool, key: string, w: bool, r: string)
    requires Punctuated(alnum, key)
    ensures NoNulls(alnum, key, w, Rewrite(alnum, key, w, r)) <==> NoSurplus(alnum, key, w, r)
    decreases |r|
  {
    hide Field, ColonAt, Rewrite, Find, Stripped, Punctuated, KeyAt, EndsInWord, HasNull, NoNulls, NoSurplus,
      PastColon, OuterNth, CountAll, TypeEnd;
    KeyShape(alnum, key);
    KeyPresent(alnum, key);
    var k := Find(r, key, 0);
    if k == -1 {
      NothingLeft(alnum, key, w, r);
      NoFieldNoNull(alnum, key, w, r);
      return;
    }
    CopyEndsInWord(alnum, key, r, k);
    var m := k + |key|;
    if Field(alnum, key, w, r, k) {
      HeadOfField(alnum, key, w, r, k);
      HeadIsPastColon(alnum, key, w, r, k);
      var c := ColonAt(r, key, k);
      var h, t := r[..c + 1], r[c + 1..];
      assert h + t == r;
      var x := Rewrite(alnum, key, false, Stripped(t));
      RewriteField(alnum, key, w, r, k);
      StrippedShorter(t);
      NullsGoneIff(alnum, key, false, Stripped(t));
      NullsOfField(alnum, key, w, r, x, k);
      RewritingKeepsOuter(alnum, key, false, Stripped(t), "", 0);
      NoSurplusField(alnum, key, w, h, t, k);
    } else {
      var h, t := r[..m], r[m..];
      assert h + t == r;
      RewriteWord(alnum, key, w, r, k);
      NoFieldInWord(alnum, key, w, r, k);
      NullsGoneIff(alnum, key, true, t);
      NullsOfWord(alnum, key, w, r, k);
      NoSurplusRest(alnum, key, w, h, t);
    }
  }

  // ----- A second pass -----

  /** Once every field is marked a pass never lengthens the text, and a pass that changes
      nothing found no null. */
  lemma {:induction false} FixedHasNoNulls(alnum: char -> bool, key: string, w: bool, r: string)
    requires Punctuated(alnum, key) && AllMarked(alnum, key, w, r)
    ensures |Rewrite(alnum, key, w, r)| <= |r|
    ensures Rewrite(alnum, key, w, r) == r ==> NoNulls(alnum, key, w, r)
    decreases |r|
  {
    hide Field, ColonAt, Rewrite, Find, Stripped, Punctuated, KeyAt, EndsInWord, NoNulls, AllMarked;
    KeyShape(alnum, key);
    KeyPresent(alnum, key);
    var k := Find(r, key, 0);
    if k == -1 {
      NothingLeft(alnum, key, w, r);
      NoFieldNoNull(alnum, key, w, r);
      return;
    }
    CopyEndsInWord(alnum, key, r, k);
    if Field(alnum, key, w, r, k) {
      HeadOfField(alnum, key, w, r, k);
      MarkOf(alnum, key, w, r, k);
      var h, t := r[..ColonAt(r, key, k) + 1], r[ColonAt(r, key, k) + 1..];
      assert h + t == r;
      RewriteField(alnum, key, w, r, k);
      AllMarkedRest(alnum, key, w, h, t);
      MarksStripped(alnum, key, t);
      StrippedShorter(t);
      FixedHasNoNulls(alnum, key, false, Stripped(t));
      if Rewrite(alnum, key, w, r) == r {
        assert Rewrite(alnum, key, false, Stripped(t)) == t;
        WholeKept(t);
        OnlyInHead(alnum, key, w, r, k);
        FieldFixed(alnum, key, w, h, t, k);
      }
    } else {
      var p, t := r[..k + |key|], r[k + |key|..];
      assert p + t == r;
      RewriteWord(alnum, key, w, r, k);
      AllMarkedRest(alnum, key, w, p, t);
      FixedHasNoNulls(alnum, key, true, t);
      if Rewrite(alnum, key, w, r) == r {
        assert Rewrite(alnum, key, true, t) == t;
        NoFieldInWord(alnum, key, w, r, k);
        NullsPast(alnum, key, w, p, t);
      }
    }
  }

  lemma NoFieldNoNull(alnum: char -> bool, key: string, w: bool, r: string)
    requires Find(r, key, 0) == -1
    ensures NoNulls(alnum, key, w, r) && NoSurplus(alnum, key, w, r)
  {
    NoKeyNoField(alnum, key, w, r);
    hide Field;
  }

  lemma MarkOf(alnum: char -> bool, key: string, w: bool, r: string, k: nat)
    requires AllMarked(alnum, key, w, r) && Field(alnum, key, w, r, k)
    ensures ColonAt(r, key, k) == k + |key| + 1
    ensures ColonAt(r, key, k) < |r| && r[..ColonAt(r, key, k) + 1] == r[..k + |key|] + "?:"
  {
    assert ColonAt(r, key, k) == k + |key| + 1;
  }

  lemma AllMarkedRest(alnum: char -> bool, key: string, w: bool, h: string, t: string)
    requires KeyShaped(alnum, key) && h != "" && AllMarked(alnum, key, w, h + t)
    ensures AllMarked(alnum, key, EndsInWord(alnum, h), t)
  {
    hide Field, ColonAt, EndsInWord, FieldEnd;
    forall i: nat | Field(alnum, key, EndsInWord(alnum, h), t, i) ensures ColonAt(t, key, i) == i + |key| + 1 {
      FieldOfRest(alnum, key, w, h, t, i);
    }
  }

  lemma MarksAfter(alnum: char -> bool, key: string, p: string, q: string)
    requires Punctuated(alnum, key) && (q != "" ==> Stray(q[0])) && AllMarked(alnum, key, false, With(p, q))
    ensures AllMarked(alnum, key, false, p + q)
  {
    hide Field, ColonAt, Punctuated, With, FieldEnd, Stray;
    forall i: nat | Field(alnum, key, false, p + q, i) ensures ColonAt(p + q, key, i) == i + |key| + 1 {
      FieldImage(alnum, key, p, q, i);
      FieldBounds(alnum, key, false, p + q, i);
    }
  }

  lemma MarksStripped(alnum: char -> bool, key: string, t: string)
    requires Punctuated(alnum, key) && AllMarked(alnum, key, false, t)
    ensures AllMarked(alnum, key, false, Stripped(t))
  {
    hide NullCut, AllMarked, With, Punctuated, Stray;
    if NullCut(t, 0).Some? {
      CutApart(t);
      CutShape(t[..NullCut(t, 0).value], t[NullCut(t, 0).value + 7..]);
      MarksAfter(alnum, key, t[..NullCut(t, 0).value], t[NullCut(t, 0).value + 7..]);
    }
  }

  /** A type of unchanged length lost no null. */
  lemma WholeKept(t: string)
    ensures |Stripped(t)| == |t| ==> Stripped(t) == t && NullCut(t, 0).None?
  {
    hide NullCut;
  }

  lemma FieldFixed(alnum: char -> bool, key: string, w: bool, h: string, t: string, k: nat)
    requires KeyShaped(alnum, key) && h != "" && !EndsInWord(alnum, h) && NullCut(t, 0).None?
    requires Field(alnum, key, w, h + t, k) && ColonAt(h + t, key, k) + 1 == |h|
    requires OnlyFieldBefore(alnum, key, w, h + t, k, |h|) && NoNulls(alnum, key, false, t)
    ensures NoNulls(alnum, key, w, h + t)
  {
    NullCutAhead(h, t, 0);
    hide Field, ColonAt, NullCut, EndsInWord;
    NullsPast(alnum, key, w, h, t);
  }

  /** On every text: a second pass changes nothing exactly when no type ends with more nulls
      than there are fields whose types end there. */
  lemma RewritingIsIdempotentIff(alnum: char -> bool, key: string, w: bool, r: string)
    requires Punctuated(alnum, key)
    ensures var out := Rewrite(alnum, key, w, r);
            Rewrite(alnum, key, w, out) == out <==> NoSurplus(alnum, key, w, r)
  {
    hide Field, Rewrite, NoSurplus, NoNulls, AllMarked, Punctuated;
    KeyPresent(alnum, key);
    var out := Rewrite(alnum, key, w, r);
    EveryFieldOptional(alnum, key, w, r);
    NullsGoneIff(alnum, key, w, r);
    if NoNulls(alnum, key, w, out) { NothingToRewrite(alnum, key, w, out); }
    FixedHasNoNulls(alnum, key, w, out);
  }

  // ----- Doubled nulls -----

  /** No field's type ends in a doubled null. */
  ghost predicate SingleNulls(alnum: char -> bool, key: string, w: bool, r: string) {
    forall i: nat :: Field(alnum, key, w, r, i) ==>
      ColonAt(r, key, i) < |r| && NthCut(r, TypeStart(r, key, i), 1).None?
  }

  lemma {:induction false} CountPositive(alnum: char -> bool, key: string, w: bool, r: string, e: nat, i: nat, n: nat)
    requires i < n && Field(alnum, key, w, r, i) && FieldEnd(r, key, i) == e
    ensures Count(alnum, key, w, r, e, n) > 0
  {
    hide Field, FieldEnd;
    if i < n - 1 { CountPositive(alnum, key, w, r, e, i, n - 1); }
  }

  lemma {:induction false} NthNeedsSecond(x: string, n: nat)
    requires n > 0 && NthNull(x, 1).None?
    ensures NthNull(x, n).None?
  {
    hide TrimEnd;
    var u := TrimEnd(x);
    if EndsNull(u) && n > 1 { NoFirstNull(u[..|u| - 7], n - 1); }
  }

  lemma NoFirstNull(x: string, n: nat)
    requires NthNull(x, 0).None?
    ensures NthNull(x, n).None?
  {
  }

  /** Without doubled nulls one pass is enough. */
  lemma SingleNullsAreIdempotent(alnum: char -> bool, key: string, w: bool, r: string)
    requires Punctuated(alnum, key) && SingleNulls(alnum, key, w, r)
    ensures Rewrite(alnum, key, w, Rewrite(alnum, key, w, r)) == Rewrite(alnum, key, w, r)
  {
    hide Field, Rewrite, Punctuated, FieldEnd, Count, ColonAt, TypeEnd, NthNull;
    forall i: nat ensures !Surplus(alnum, key, w, r, i) {
      if Field(alnum, key, w, r, i) {
        FieldBounds(alnum, key, w, r, i);
        CountPositive(alnum, key, w, r, FieldEnd(r, key, i), i, |r|);
        NthNeedsSecond(r[TypeStart(r, key, i)..TypeEnd(r, TypeStart(r, key, i), 0)],
                       CountAll(alnum, key, w, r, FieldEnd(r, key, i)));
      }
    }
    RewritingIsIdempotentIff(alnum, key, w, r);
  }

  // ----- Two texts -----

  /** No bracket and no semicolon. */
  predicate Plain(x: string) {
    forall i :: 0 <= i < |x| ==> !Opens(x[i]) && !Ends(x[i])
  }

  lemma {:induction false} PlainEnds(x: string, y: string, j: nat)
    requires Plain(x) && (y == "" || y[0] == ';') && j <= |x|
    ensures TypeEnd(x + y, j, 0) == |x|
    decreases |x| - j
  {
    if j < |x| {
      PlainStep(x + y, j, 0);
      PlainEnds(x, y, j + 1);
    }
  }

  lemma StrippedPlain(x: string, y: string)
    requires Plain(x) && (y == "" || y[0] == ';')
    ensures Stripped(x + NULL_SUFFIX + y) == x + y
  {
    var t := x + NULL_SUFFIX;
    PlainEnds(t, y, 0);
    assert t[|t| - 7..] == NULL_SUFFIX && t[|t| - 1] == 'l' && (t + y)[0..|t|] == t;
    TrimEndIs(t, |t|);
    hide TypeEnd, TrimEnd;
    assert NullCut(t + y, 0) == Some(|x|);
    StrippedIs(t + y);
    assert (t + y)[..|x|] == x && (t + y)[|x| + 7..] == y;
  }

  lemma NothingStripped(x: string, y: string)
    requires Plain(x) && (y == "" || y[0] == ';') && x != "" && x[|x| - 1] != 'l' && !Whitespace(x[|x| - 1])
    ensures Stripped(x + y) == x + y
  {
    PlainEnds(x, y, 0);
    assert (x + y)[0..|x|] == x;
    TrimEndIs(x, |x|);
    hide TypeEnd, TrimEnd;
    assert |x| >= 7 ==> x[|x| - 7..][6] != NULL_SUFFIX[6];
    StrippedIs(x + y);
  }

  lemma FirstField(alnum: char -> bool, t: string)
    requires Punctuated(alnum, "k")
    ensures Rewrite(alnum, "k", false, "k:" + t) == "k?:" + Rewrite(alnum, "k", false, Stripped(t))
    ensures Rewrite(alnum, "k", false, "k?:" + t) == "k?:" + Rewrite(alnum, "k", false, Stripped(t))
  {
    hide Stripped, Punctuated, Rewrite;
    var r, s := "k:" + t, "k?:" + t;
    assert KeyAt(r, "k", 0) && r[0] == 'k' && r[1] == ':' && r[..1] == "k" && r[2..] == t;
    assert KeyAt(s, "k", 0) && s[0] == 'k' && s[1] == '?' && s[2] == ':' && s[..1] == "k" && s[3..] == t;
    RewriteField(alnum, "k", false, r, 0);
    RewriteField(alnum, "k", false, s, 0);
    assert "k" + "?:" == "k?:";
  }

  lemma KeyCharIn(t: string, at: nat)
    requires KeyAt(t, "k", at)
    ensures at < |t| && t[at] == 'k'
  {
    assert t[at..at + 1][0] == "k"[0];
  }

  lemma NoKeyLeft(alnum: char -> bool, t: string)
    requires 'k' !in t
    ensures Rewrite(alnum, "k", false, t) == t
  {
    hide Rewrite, KeyAt;
    var at := Find(t, "k", 0);
    if at != -1 { KeyCharIn(t, at); }
    NothingLeft(alnum, "k", false, t);
  }

  /** The failing case: a doubled null is only halved by one pass, so the next pass changes
      the text again. */
  lemma DoubledNullIsHalved(alnum: char -> bool)
    requires Punctuated(alnum, "k")
    ensures Rewrite(alnum, "k", false, "k:A | null | null") == "k?:A | null"
    ensures Rewrite(alnum, "k", false, "k?:A | null") == "k?:A"
  {
    hide Rewrite, Stripped, Punctuated;
    FirstField(alnum, "A | null | null");
    assert "A | null" + NULL_SUFFIX + "" == "A | null | null" && "A" + NULL_SUFFIX + "" == "A | null";
    assert "A | null" + "" == "A | null" && "A" + "" == "A" && "k?:" + "A" == "k?:A";
    assert "k:" + "A | null | null" == "k:A | null | null" && "k?:" + "A | null" == "k?:A | null";
    StrippedPlain("A | null", "");
    NoKeyLeft(alnum, "A | null");
    FirstField(alnum, "A | null");
    StrippedPlain("A", "");
    NoKeyLeft(alnum, "A");
  }

  /** Two fields that end together take a null each, so here one pass is enough. */
  lemma SharedNullsBothGo(alnum: char -> bool)
    requires Punctuated(alnum, "k")
    ensures Rewrite(alnum, "k", false, "k:k:A | null | null;") == "k?:k?:A;"
    ensures Rewrite(alnum, "k", false, "k?:k?:A;") == "k?:k?:A;"
  {
    hide Rewrite, Stripped, Punctuated;
    assert "k:" + "k:A | null | null;" == "k:k:A | null | null;" && "k:" + "A | null;" == "k:A | null;";
    assert "k:A | null" + NULL_SUFFIX + ";" == "k:A | null | null;" && "A" + NULL_SUFFIX + ";" == "A | null;";
    assert "k:A | null" + ";" == "k:A | null;" && "A" + ";" == "A;";
    FirstField(alnum, "k:A | null | null;");
    StrippedPlain("k:A | null", ";");
    FirstField(alnum, "A | null;");
    StrippedPlain("A", ";");
    NoKeyLeft(alnum, "A;");
    assert "k?:" + "k?:A;" == "k?:k?:A;" && "k?:" + "A;" == "k?:A;" && "k?:A" + ";" == "k?:A;";
    FirstField(alnum, "k?:A;");
    NothingStripped("k?:A", ";");
    FirstField(alnum, "A;");
    NothingStripped("A", ";");
  }
}
