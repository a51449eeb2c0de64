/** Dropping the null a field's type ends with leaves every other field where it was. The
    type reads p + " | null" + q before and p + q after. */
module NullDeletion {
  import opened Wrappers
  import opened Text
  import opened Rewriter
  import opened AbsentFields
  import opened AbsentLaws

  function With(p: string, q: string): string {
    p + NULL_SUFFIX + q
  }

  /** The outer type, from the start, ends in this null. */
  predicate OuterCut(p: string, q: string) {
    NullCut(With(p, q), 0) == Some(|p|)
  }

  /** No part of a field name, its mark or its colon. */
  predicate Stray(c: char) {
    Whitespace(c) || Ends(c) || c == '|'
  }

  lemma {:induction false} TypeEndStops(r: string, j: nat, depth: nat)
    requires j <= |r|
    ensures var e := TypeEnd(r, j, depth); e < |r| ==> Ends(r[e])
    decreases |r| - j
  {
    if j < |r| {
      TypeEndStops(r, j + 1, depth);
      TypeEndStops(r, j + 1, depth + 1);
      if depth > 0 { TypeEndStops(r, j + 1, depth - 1); }
    }
  }

  /** After the null only white space runs to the end of the outer type. */
  lemma CutShape(p: string, q: string)
    requires OuterCut(p, q)
    ensures var e := TypeEnd(With(p, q), 0, 0);
            && |p| + 7 <= e && (forall x :: |p| + 7 <= x < e ==> Whitespace(With(p, q)[x]))
            && (q != "" ==> Stray(q[0]))
  {
    var t := With(p, q);
    var e := TypeEnd(t, 0, 0);
    var seg := t[0..e];
    TrimEndPrefix(seg);
    TypeEndStops(t, 0, 0);
    hide TypeEnd, TrimEnd, Whitespace, Ends;
    assert |TrimEnd(seg)| == |p| + 7;
    forall x | |p| + 7 <= x < e
      ensures Whitespace(t[x])
    {
      assert seg[x] == t[x];
    }
    if q != "" {
      assert t[|p| + 7] == q[0];
    }
  }

  // ----- Fields -----

  /** A field's name, mark and colon hold no stray character. */
  lemma WindowClear(alnum: char -> bool, key: string, w: bool, r: string, i: nat, x: nat)
    requires Punctuated(alnum, key) && Field(alnum, key, w, r, i) && i <= x <= ColonAt(r, key, i)
    ensures !Stray(r[x])
  {
    if x < i + |key| {
      assert r[x] == r[i..i + |key|][x - i] == key[x - i];
    }
  }

  lemma NullChars(p: string, q: string)
    ensures var t := With(p, q);
            && |t| == |p| + 7 + |q| && t[|p|] == ' ' && t[|p| + 1] == '|' && t[|p| + 2] == ' '
            && t[|p| + 3] == 'n' && t[|p| + 4] == 'u' && t[|p| + 5] == 'l' && t[|p| + 6] == 'l'
  {
  }

  /** No field begins in the null or reaches into it. */
  lemma FieldsClear(alnum: char -> bool, key: string, p: string, q: string, i: nat)
    requires Punctuated(alnum, key) && (q != "" ==> Stray(q[0])) && Field(alnum, key, false, With(p, q), i)
    ensures ColonAt(With(p, q), key, i) < |p| || i > |p| + 7
  {
    var t := With(p, q);
    var c := ColonAt(t, key, i);
    FieldBounds(alnum, key, false, t, i);
    NullChars(p, q);
    hide Field, ColonAt;
    if q != "" { assert t[|p| + 7] == q[0]; }
    if i <= |p| <= c { WindowClear(alnum, key, false, t, i, |p|); }
    if i <= |p| + 1 <= c { WindowClear(alnum, key, false, t, i, |p| + 1); }
    if i <= |p| + 2 <= c { WindowClear(alnum, key, false, t, i, |p| + 2); }
    if i <= |p| + 7 <= c { WindowClear(alnum, key, false, t, i, |p| + 7); }
  }

  lemma FieldsClearAfter(alnum: char -> bool, key: string, p: string, q: string, i: nat)
    requires Punctuated(alnum, key) && (q != "" ==> Stray(q[0])) && Field(alnum, key, false, p + q, i)
    ensures ColonAt(p + q, key, i) < |p| || i > |p|
  {
    FieldBounds(alnum, key, false, p + q, i);
    hide Field, ColonAt;
    if q != "" { assert (p + q)[|p|] == q[0]; }
    if i <= |p| <= ColonAt(p + q, key, i) { WindowClear(alnum, key, false, p + q, i, |p|); }
  }

  /** A field that lies within a common prefix is a field of both texts. */
  lemma FieldInHead(alnum: char -> bool, key: string, w: bool, p: string, x: string, y: string, i: nat)
    requires Field(alnum, key, w, p + x, i) && ColonAt(p + x, key, i) < |p|
    ensures Field(alnum, key, w, p + y, i) && ColonAt(p + y, key, i) == ColonAt(p + x, key, i)
  {
    assert (p + x)[i..i + |key|] == (p + y)[i..i + |key|];
  }

  /** Fields correspond: those before the cut in place, those after it seven places on. */
  lemma FieldsBefore(alnum: char -> bool, key: string, p: string, q: string, i: nat)
    requires Punctuated(alnum, key) && (q != "" ==> Stray(q[0])) && i <= |p|
    ensures Field(alnum, key, false, With(p, q), i) <==> Field(alnum, key, false, p + q, i)
    ensures Field(alnum, key, false, p + q, i) ==> ColonAt(With(p, q), key, i) == ColonAt(p + q, key, i) < |p|
  {
    hide Field, ColonAt, Punctuated;
    assert With(p, q) == p + (NULL_SUFFIX + q);
    if Field(alnum, key, false, With(p, q), i) {
      FieldsClear(alnum, key, p, q, i);
      FieldInHead(alnum, key, false, p, NULL_SUFFIX + q, q, i);
    }
    if Field(alnum, key, false, p + q, i) {
      FieldsClearAfter(alnum, key, p, q, i);
      FieldInHead(alnum, key, false, p, q, NULL_SUFFIX + q, i);
    }
  }

  lemma FieldIgnoresStart(alnum: char -> bool, key: string, v: bool, w: bool, q: string, x: nat)
    requires x > 0
    ensures Field(alnum, key, v, q, x) <==> Field(alnum, key, w, q, x)
  {
  }

  lemma FieldsAfter(alnum: char -> bool, key: string, p: string, q: string, x: nat)
    requires Punctuated(alnum, key) && x > 0
    ensures Field(alnum, key, false, With(p, q), |p| + 7 + x) <==> Field(alnum, key, false, p + q, |p| + x)
    ensures Field(alnum, key, false, p + q, |p| + x) ==>
      ColonAt(With(p, q), key, |p| + 7 + x) == ColonAt(p + q, key, |p| + x) + 7
  {
    hide Field, ColonAt, KeyAt;
    FieldPast(alnum, key, false, p + NULL_SUFFIX, q, x);
    FieldPast(alnum, key, false, p, q, x);
    FieldIgnoresStart(alnum, key, Before(alnum, false, p + NULL_SUFFIX), Before(alnum, false, p), q, x);
    if Field(alnum, key, Before(alnum, false, p), q, x) { FieldHasKey(alnum, key, Before(alnum, false, p), q, x); }
  }

  // ----- Types -----

  lemma {:induction false} EndMonotone(r: string, j: nat, d: nat, e: nat)
    requires j <= |r| && d <= e
    ensures TypeEnd(r, j, d) <= TypeEnd(r, j, e)
    decreases |r| - j
  {
    if j < |r| {
      EndMonotone(r, j + 1, d, e);
      EndMonotone(r, j + 1, d + 1, e + 1);
      if d > 0 { EndMonotone(r, j + 1, d - 1, e - 1); }
    }
  }

  /** A type inside another ends no later. */
  lemma {:induction false} NestedEnd(r: string, j: nat, depth: nat, s: nat)
    requires j <= s <= |r| && s <= TypeEnd(r, j, depth)
    ensures TypeEnd(r, s, 0) <= TypeEnd(r, j, depth)
    decreases |r| - j
  {
    if j == s {
      EndMonotone(r, j, 0, depth);
    } else if Opens(r[j]) {
      NestedEnd(r, j + 1, depth + 1, s);
    } else if Closes(r[j]) {
      NestedEnd(r, j + 1, depth - 1, s);
    } else {
      NestedEnd(r, j + 1, depth, s);
    }
  }

  lemma PlainStep(r: string, j: nat, depth: nat)
    requires j < |r| && !Opens(r[j]) && !Ends(r[j])
    ensures TypeEnd(r, j, depth) == TypeEnd(r, j + 1, depth)
  {
  }

  lemma NullSkipped(p: string, q: string, depth: nat)
    ensures TypeEnd(With(p, q), |p|, depth) == TypeEnd(With(p, q), |p| + 7, depth)
  {
    var t := With(p, q);
    NullChars(p, q);
    hide TypeEnd, With;
    PlainStep(t, |p|, depth);
    PlainStep(t, |p| + 1, depth);
    PlainStep(t, |p| + 2, depth);
    PlainStep(t, |p| + 3, depth);
    PlainStep(t, |p| + 4, depth);
    PlainStep(t, |p| + 5, depth);
    PlainStep(t, |p| + 6, depth);
  }

  lemma HeadChar(p: string, q: string, j: nat)
    requires j < |p|
    ensures j < |With(p, q)| && With(p, q)[j] == (p + q)[j]
  {
  }

  lemma EndStep(r: string, j: nat, depth: nat)
    requires j < |r|
    ensures TypeEnd(r, j, depth) ==
      if Opens(r[j]) then TypeEnd(r, j + 1, depth + 1)
      else if Closes(r[j]) then if depth == 0 then j else TypeEnd(r, j + 1, depth - 1)
      else if r[j] == ';' && depth == 0 then j
      else TypeEnd(r, j + 1, depth)
  {
  }

  lemma EndAtCut(p: string, q: string, depth: nat)
    ensures |p| <= |With(p, q)|
    ensures var e, f := TypeEnd(With(p, q), |p|, depth), TypeEnd(p + q, |p|, depth); e >= |p| + 7 && f == e - 7
  {
    hide TypeEnd;
    NullSkipped(p, q, depth);
    TypeEndAhead(p + NULL_SUFFIX, q, 0, depth);
    TypeEndAhead(p, q, 0, depth);
  }

  /** A type starting before the cut ends in place before it or seven places sooner. */
  lemma {:induction false} EndDeleted(p: string, q: string, j: nat, depth: nat)
    requires j <= |p|
    ensures var e, f := TypeEnd(With(p, q), j, depth), TypeEnd(p + q, j, depth);
            (e < |p| && f == e) || (e >= |p| + 7 && f == e - 7)
    decreases |p| - j
  {
    if j == |p| {
      EndAtCut(p, q, depth);
    } else {
      hide With, TypeEnd;
      HeadChar(p, q, j);
      EndStep(With(p, q), j, depth);
      EndStep(p + q, j, depth);
      EndDeleted(p, q, j + 1, depth);
      EndDeleted(p, q, j + 1, depth + 1);
      if depth > 0 { EndDeleted(p, q, j + 1, depth - 1); }
    }
  }

  lemma {:induction false} TrimEndIs(s: string, k: nat)
    requires k <= |s| && (forall x :: k <= x < |s| ==> Whitespace(s[x])) && (k > 0 ==> !Whitespace(s[k - 1]))
    ensures TrimEnd(s) == s[..k]
    decreases |s|
  {
    if k < |s| {
      TrimEndIs(s[..|s| - 1], k);
    } else {
      assert s[..k] == s;
    }
  }

  lemma {:induction false} TrimEndDropsSpace(s: string, space: string)
    requires forall x :: 0 <= x < |space| ==> Whitespace(space[x])
    ensures TrimEnd(s + space) == TrimEnd(s)
    decreases |space|
  {
    if space == "" {
      assert s + space == s;
    } else {
      TrimEndDropsSpace(s, space[..|space| - 1]);
      assert (s + space)[..|s + space| - 1] == s + space[..|space| - 1];
    }
  }

  /** Trimmed, a type that reaches past the cut ends with the null. */
  lemma SharedTrim(p: string, q: string, s: nat, e: nat)
    requires s <= |p| && |p| + 7 <= e <= |With(p, q)| && forall x :: |p| + 7 <= x < e ==> Whitespace(With(p, q)[x])
    ensures TrimEnd(With(p, q)[s..e]) == p[s..] + NULL_SUFFIX
  {
    var t, k := With(p, q), |p| + 7 - s;
    var seg := t[s..e];
    NullChars(p, q);
    assert seg[..k] == t[s..s + k];
    assert t[s..s + k] == p[s..] + NULL_SUFFIX;
    assert seg[k - 1] == t[|p| + 6];
    assert seg[k - 1] == 'l' && !Whitespace('l');
    hide With, Whitespace;
    forall x | k <= x < |seg| ensures Whitespace(seg[x]) { assert seg[x] == t[s + x]; }
    TrimEndIs(seg, k);
  }

  lemma NthIgnoresSpace(x: string, space: string, n: nat)
    requires forall k :: 0 <= k < |space| ==> Whitespace(space[k])
    ensures NthNull(x + space, n) == NthNull(x, n)
  {
    TrimEndDropsSpace(x, space);
    hide TrimEnd, Whitespace;
  }

  /** The second null from the end is the first once the last is gone. */
  lemma NthBelow(seg: string, x: string, n: nat)
    requires TrimEnd(seg) == x + NULL_SUFFIX
    ensures NthNull(seg, n + 1) == NthNull(x, n) && NthNull(seg, 0) == Some(|x|)
  {
    var u := TrimEnd(seg);
    assert u[|u| - 7..] == NULL_SUFFIX && u[..|u| - 7] == x;
    hide TrimEnd;
  }

  lemma SpaceAfter(p: string, q: string, s: nat, e: nat, n: nat)
    requires s <= |p| && |p| + 7 <= e <= |With(p, q)|
    requires forall x :: |p| + 7 <= x < e ==> Whitespace(With(p, q)[x])
    ensures NthNull((p + q)[s..e - 7], n) == NthNull(p[s..], n)
  {
    var space := q[..e - 7 - |p|];
    forall x | 0 <= x < |space| ensures Whitespace(space[x]) { assert space[x] == With(p, q)[|p| + 7 + x]; }
    hide Whitespace, NthNull;
    assert (p + q)[s..e - 7] == p[s..] + space;
    NthIgnoresSpace(p[s..], space, n);
  }

  lemma CutFromNth(r: string, s: nat, e: nat, n: nat)
    requires s <= |r| && e == TypeEnd(r, s, 0)
    ensures var nth := NthNull(r[s..e], n); NthCut(r, s, n) == if nth.Some? then Some(s + nth.value) else None
  {
  }

  lemma NthFits(x: string, n: nat)
    ensures NthNull(x, n).Some? ==> NthNull(x, n).value + 7 <= |x|
  {
  }

  lemma SharedNth(p: string, q: string, s: nat, e: nat, n: nat)
    requires s <= |p| && |p| + 7 <= e <= |With(p, q)|
    requires forall x :: |p| + 7 <= x < e ==> Whitespace(With(p, q)[x])
    ensures e - 7 <= |p + q| && NthNull(With(p, q)[s..e], 0) == Some(|p| - s)
    ensures NthNull(With(p, q)[s..e], n + 1) == NthNull((p + q)[s..e - 7], n)
    ensures NthNull((p + q)[s..e - 7], n).Some? ==> NthNull((p + q)[s..e - 7], n).value + 7 <= |p| - s
  {
    NullChars(p, q);
    hide TrimEnd, Whitespace, With, NthNull;
    SharedTrim(p, q, s, e);
    SpaceAfter(p, q, s, e, n);
    NthBelow(With(p, q)[s..e], p[s..], n);
    NthFits(p[s..], n);
  }

  lemma WithLength(p: string, q: string)
    ensures |With(p, q)| == |p + q| + 7
  {
  }

  lemma SharedNulls(p: string, q: string, s: nat, e: nat, n: nat)
    requires s <= |p| && e == TypeEnd(With(p, q), s, 0) && |p| + 7 <= e && TypeEnd(p + q, s, 0) == e - 7
    requires forall x :: |p| + 7 <= x < e ==> Whitespace(With(p, q)[x])
    ensures NthCut(With(p, q), s, 0) == Some(|p|) && NthCut(With(p, q), s, n + 1) == NthCut(p + q, s, n)
    ensures NthCut(p + q, s, n).Some? ==> NthCut(p + q, s, n).value + 7 <= |p|
  {
    hide TypeEnd, Whitespace, With, NthNull, NthCut;
    WithLength(p, q);
    SharedNth(p, q, s, e, n);
    CutFromNth(With(p, q), s, e, 0);
    CutFromNth(With(p, q), s, e, n + 1);
    CutFromNth(p + q, s, e - 7, n);
  }

  lemma SameType(r: string, t: string, s: nat, e: nat, n: nat)
    requires s <= |r| && s <= |t| && TypeEnd(r, s, 0) == e == TypeEnd(t, s, 0) && r[s..e] == t[s..e]
    ensures NthCut(r, s, n) == NthCut(t, s, n)
  {
    hide TypeEnd, NthNull;
  }

  lemma HeadSlice(p: string, q: string, s: nat, c: nat)
    requires s <= c <= |p|
    ensures |p| <= |With(p, q)| && (p + q)[s..c] == With(p, q)[s..c]
  {
  }

  /** A type that reaches past the cut ends where the outer type does. */
  lemma EndsTogether(p: string, q: string, s: nat)
    requires OuterCut(p, q) && s <= |p| && TypeEnd(With(p, q), s, 0) >= |p|
    ensures TypeEnd(With(p, q), s, 0) == TypeEnd(With(p, q), 0, 0)
  {
    var t := With(p, q);
    hide TypeEnd, OuterCut, With;
    CutShape(p, q);
    EndDeleted(p, q, s, 0);
    NestedEnd(t, 0, 0, s);
    TypeEndStops(t, s, 0);
  }

  /** A type ending before the cut keeps its nulls; one that ends with the outer type shares
      the outer null, and its other nulls move up by one. */
  lemma CutsBefore(p: string, q: string, s: nat, n: nat)
    requires OuterCut(p, q) && s <= |p|
    ensures var e := TypeEnd(With(p, q), s, 0);
            if e == TypeEnd(With(p, q), 0, 0) then NthCut(With(p, q), s, n + 1) == NthCut(p + q, s, n)
            else e < |p| && NthCut(With(p, q), s, n) == NthCut(p + q, s, n)
    ensures NthCut(p + q, s, n).Some? ==> NthCut(p + q, s, n).value + 7 <= |p|
  {
    NullChars(p, q);
    hide TypeEnd, NthCut, OuterCut, Whitespace, With;
    var t := With(p, q);
    var e := TypeEnd(t, s, 0);
    EndDeleted(p, q, s, 0);
    CutShape(p, q);
    if e < |p| {
      HeadSlice(p, q, s, e);
      SameType(t, p + q, s, e, n);
      CutWithin(t, s, n);
    } else {
      EndsTogether(p, q, s);
      SharedNulls(p, q, s, e, n);
    }
  }

  lemma CutWithin(r: string, s: nat, n: nat)
    requires s <= |r|
    ensures NthCut(r, s, n).Some? ==> NthCut(r, s, n).value + 7 <= TypeEnd(r, s, 0) <= |r|
    ensures NthCut(r, s, n).Some? ==> s <= NthCut(r, s, n).value
  {
  }

  lemma CutsAfter(p: string, q: string, x: nat, n: nat)
    requires x <= |q|
    ensures var a, b := NthCut(With(p, q), |p| + 7 + x, n), NthCut(p + q, |p| + x, n);
            (a.None? <==> b.None?) && (a.Some? ==> a.value == b.value + 7)
  {
    hide NthCut;
    NthCutAhead(p + NULL_SUFFIX, q, x, n);
    NthCutAhead(p, q, x, n);
  }

  // ----- Places -----

  /** A position of the text without the null, in the text with it. */
  function Image(p: string, i: nat): nat {
    if i < |p| then i else i + 7
  }

  /** A field, its type's start and its type's end keep their places. */
  lemma FieldImage(alnum: char -> bool, key: string, p: string, q: string, i: nat)
    requires Punctuated(alnum, key) && (q != "" ==> Stray(q[0])) && Field(alnum, key, false, p + q, i)
    ensures Field(alnum, key, false, With(p, q), Image(p, i))
    ensures ColonAt(p + q, key, i) < |p + q|
    ensures ColonAt(With(p, q), key, Image(p, i)) == Image(p, ColonAt(p + q, key, i)) < |With(p, q)|
    ensures if i < |p| then ColonAt(p + q, key, i) < |p| else i > |p|
    ensures FieldEnd(With(p, q), key, Image(p, i)) == Image(p, FieldEnd(p + q, key, i))
  {
    hide Field, ColonAt, Punctuated, TypeEnd, Stray;
    FieldsClearAfter(alnum, key, p, q, i);
    FieldBounds(alnum, key, false, p + q, i);
    var s := TypeStart(p + q, key, i);
    if i < |p| {
      FieldsBefore(alnum, key, p, q, i);
      EndDeleted(p, q, s, 0);
    } else {
      FieldsAfter(alnum, key, p, q, i - |p|);
      TypeEndAhead(p + NULL_SUFFIX, q, s - |p|, 0);
      TypeEndAhead(p, q, s - |p|, 0);
    }
  }

  function Preimage(p: string, i: nat): nat {
    if i < |p| + 7 then i else i - 7
  }

  /** Every field of the text with the null is the image of one without it. */
  lemma FieldPreimage(alnum: char -> bool, key: string, p: string, q: string, i: nat)
    requires Punctuated(alnum, key) && (q != "" ==> Stray(q[0])) && Field(alnum, key, false, With(p, q), i)
    ensures i < |p| || i > |p| + 7
    ensures Field(alnum, key, false, p + q, Preimage(p, i)) && Image(p, Preimage(p, i)) == i
  {
    hide Field, ColonAt, Punctuated, Stray;
    FieldsClear(alnum, key, p, q, i);
    FieldBounds(alnum, key, false, With(p, q), i);
    if i < |p| { FieldsBefore(alnum, key, p, q, i); } else { FieldsAfter(alnum, key, p, q, i - |p| - 7); }
  }

  /** A field past the cut lies past the end of the outer type, as does its own type. */
  lemma PastOuterEnd(alnum: char -> bool, key: string, p: string, q: string, i: nat)
    requires Punctuated(alnum, key) && OuterCut(p, q) && i >= |p| + 7 && Field(alnum, key, false, With(p, q), i)
    ensures FieldEnd(With(p, q), key, i) > TypeEnd(With(p, q), 0, 0)
  {
    var t := With(p, q);
    FieldBounds(alnum, key, false, t, i);
    WindowClear(alnum, key, false, t, i, i);
    hide Field, ColonAt, OuterCut, Punctuated, TypeEnd, With;
    CutShape(p, q);
  }

  function Extra(t: string, e: nat): nat {
    if e == TypeEnd(t, 0, 0) then 1 else 0
  }

  predicate SameCut(p: string, before: Option<nat>, after: Option<nat>) {
    && (before.None? <==> after.None?)
    && (after.Some? ==> before.value == Image(p, after.value) && (after.value < |p| ==> after.value + 7 <= |p|))
  }

  /** The nulls of a field's type keep their places, counted without the one dropped. */
  lemma CutImage(alnum: char -> bool, key: string, p: string, q: string, i: nat, n: nat)
    requires Punctuated(alnum, key) && OuterCut(p, q) && Field(alnum, key, false, p + q, i)
    ensures var t, k := With(p, q), Image(p, i);
            && TypeStart(t, key, k) <= |t| && TypeStart(p + q, key, i) <= |p + q|
            && SameCut(p, NthCut(t, TypeStart(t, key, k), n + Extra(t, FieldEnd(t, key, k))),
                       NthCut(p + q, TypeStart(p + q, key, i), n))
  {
    hide Field, ColonAt, OuterCut, Punctuated, TypeEnd, Stray, NthCut, With;
    CutShape(p, q);
    FieldImage(alnum, key, p, q, i);
    var s := TypeStart(p + q, key, i);
    if i < |p| {
      CutsBefore(p, q, s, n);
    } else {
      FieldBounds(alnum, key, false, p + q, i);
      PastOuterEnd(alnum, key, p, q, i + 7);
      CutsAfter(p, q, s - |p|, n);
      CutWithin(p + q, s, n);
    }
  }

  // ----- Counts -----

  lemma {:induction false} CountGap(alnum: char -> bool, key: string, p: string, q: string, e: nat, m: nat)
    requires Punctuated(alnum, key) && (q != "" ==> Stray(q[0])) && |p| <= m <= |p| + 8
    ensures Count(alnum, key, false, With(p, q), e, m) == Count(alnum, key, false, With(p, q), e, |p|)
  {
    hide Field, FieldEnd, Punctuated, With, Stray;
    if m > |p| {
      CountGap(alnum, key, p, q, e, m - 1);
      if Field(alnum, key, false, With(p, q), m - 1) { FieldPreimage(alnum, key, p, q, m - 1); }
    }
  }

  /** As many fields end at a place as did before. */
  lemma {:induction false} CountImage(alnum: char -> bool, key: string, p: string, q: string, e: nat, n: nat)
    requires Punctuated(alnum, key) && OuterCut(p, q)
    ensures Count(alnum, key, false, With(p, q), Image(p, e), if n <= |p| then n else n + 7)
         == Count(alnum, key, false, p + q, e, n)
  {
    hide Field, FieldEnd, Punctuated, With, Stray, OuterCut, ColonAt;
    CutShape(p, q);
    if n > 0 {
      var i := n - 1;
      CountImage(alnum, key, p, q, e, i);
      if n == |p| + 1 { CountGap(alnum, key, p, q, Image(p, e), |p| + 8); }
      if Field(alnum, key, false, p + q, i) {
        FieldImage(alnum, key, p, q, i);
      } else if Field(alnum, key, false, With(p, q), Image(p, i)) {
        FieldPreimage(alnum, key, p, q, Image(p, i));
      }
    }
  }

  lemma CountAllImage(alnum: char -> bool, key: string, p: string, q: string, e: nat)
    requires Punctuated(alnum, key) && OuterCut(p, q)
    ensures Count(alnum, key, false, With(p, q), Image(p, e), |With(p, q)|)
         == Count(alnum, key, false, p + q, e, |p + q|)
  {
    NullChars(p, q);
    hide Field, FieldEnd, Punctuated, With, Stray, OuterCut;
    CountImage(alnum, key, p, q, e, |p + q|);
    CutShape(p, q);
    if q == "" { CountGap(alnum, key, p, q, Image(p, e), |p| + 7); }
  }
}
