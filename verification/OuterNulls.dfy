/** Rewriting inside a type takes from the nulls the type ends with exactly one for each
    field whose type ends there too. */
module OuterNulls {
  import opened Wrappers
  import opened Text
  import opened Rewriter
  import opened AbsentFields
  import opened AbsentLaws
  import opened NullDeletion
  import opened AbsentTheorem

  /** A type, p and then r scanned from the given depth, ends with more than n nulls. */
  predicate OuterNth(p: string, r: string, depth: nat, n: nat) {
    NthNull(p + r[..TypeEnd(r, 0, depth)], n).Some?
  }

  lemma OuterNthIsCut(r: string, n: nat)
    ensures OuterNth("", r, 0, n) <==> NthCut(r, 0, n).Some?
  {
    hide TypeEnd, NthNull;
    assert "" + r[..TypeEnd(r, 0, 0)] == r[0..TypeEnd(r, 0, 0)];
  }

  // ----- Trimming -----

  lemma {:induction false} TrimKeeps(p: string, y: string)
    requires p != "" && !Whitespace(p[|p| - 1])
    ensures TrimEnd(p + y) == p + TrimEnd(y)
    decreases |y|
  {
    hide Whitespace;
    if y == "" {
      assert p + y == p;
    } else if Whitespace(y[|y| - 1]) {
      assert (p + y)[..|p + y| - 1] == p + y[..|y| - 1];
      TrimKeeps(p, y[..|y| - 1]);
    }
  }

  /** A character that is neither white space nor part of a null separates. */
  predicate Hard(c: char) {
    !Whitespace(c) && c !in NULL_SUFFIX
  }

  lemma HardPrefix(p: string, y: string)
    requires p != "" && Hard(p[|p| - 1])
    ensures EndsNull(TrimEnd(p + y)) <==> EndsNull(TrimEnd(y))
  {
    TrimKeeps(p, y);
    hide TrimEnd, Whitespace;
    var t := TrimEnd(y);
    if |t| >= 7 {
      assert (p + t)[|p + t| - 7..] == t[|t| - 7..];
    } else if |p + t| >= 7 {
      var tail := (p + t)[|p + t| - 7..];
      assert tail[7 - |t| - 1] == p[|p| - 1];
      assert tail[7 - |t| - 1] in tail;
    }
  }

  lemma NthCases(s: string, n: nat)
    ensures var t := TrimEnd(s);
            if !EndsNull(t) then NthNull(s, n) == None
            else if n == 0 then NthNull(s, n) == Some(|t| - 7)
            else NthNull(s, n) == NthNull(t[..|t| - 7], n - 1)
  {
    hide TrimEnd;
  }

  lemma {:induction false} HardPrefixNth(p: string, y: string, n: nat)
    requires p != "" && Hard(p[|p| - 1])
    ensures NthNull(p + y, n).Some? <==> NthNull(y, n).Some?
    decreases n
  {
    HardPrefix(p, y);
    TrimKeeps(p, y);
    NthCases(p + y, n);
    NthCases(y, n);
    hide TrimEnd, Hard, NthNull;
    var t := TrimEnd(y);
    if EndsNull(t) && n > 0 {
      assert (p + t)[..|p + t| - 7] == p + t[..|t| - 7];
      HardPrefixNth(p, t[..|t| - 7], n - 1);
    }
  }

  // ----- Scanning a prefix -----

  /** The depth reached after a prefix, unless the type ends within it. */
  function DepthAfter(p: string, j: nat, depth: nat): Option<nat>
    requires j <= |p|
    decreases |p| - j
  {
    if j == |p| then Some(depth)
    else if Opens(p[j]) then DepthAfter(p, j + 1, depth + 1)
    else if Closes(p[j]) then if depth == 0 then None else DepthAfter(p, j + 1, depth - 1)
    else if p[j] == ';' && depth == 0 then None
    else DepthAfter(p, j + 1, depth)
  }

  lemma DepthStep(p: string, j: nat, depth: nat)
    requires j < |p|
    ensures DepthAfter(p, j, depth) ==
      if Opens(p[j]) then DepthAfter(p, j + 1, depth + 1)
      else if Closes(p[j]) then if depth == 0 then None else DepthAfter(p, j + 1, depth - 1)
      else if p[j] == ';' && depth == 0 then None
      else DepthAfter(p, j + 1, depth)
  {
  }

  lemma ScanDone(p: string, x: string, depth: nat)
    ensures DepthAfter(p, |p|, depth) == Some(depth) && TypeEnd(p + x, |p|, depth) == |p| + TypeEnd(x, 0, depth)
  {
    TypeEndAhead(p, x, 0, depth);
  }

  lemma {:induction false} ScanPrefix(p: string, x: string, j: nat, depth: nat)
    requires j <= |p|
    ensures var d, e := DepthAfter(p, j, depth), TypeEnd(p + x, j, depth);
            if d.None? then e == TypeEnd(p, j, depth) < |p| else e == |p| + TypeEnd(x, 0, d.value)
    decreases |p| - j
  {
    hide TypeEnd, DepthAfter;
    if j == |p| {
      ScanDone(p, x, depth);
    } else {
      assert (p + x)[j] == p[j];
      EndStep(p, j, depth);
      EndStep(p + x, j, depth);
      DepthStep(p, j, depth);
      ScanPrefix(p, x, j + 1, depth);
      ScanPrefix(p, x, j + 1, depth + 1);
      if depth > 0 { ScanPrefix(p, x, j + 1, depth - 1); }
    }
  }

  /** Past a prefix, the type's nulls are those of the rest at the depth reached. */
  lemma OuterNthPast(p: string, h: string, t: string, depth: nat, n: nat)
    ensures var d := DepthAfter(h, 0, depth);
            OuterNth(p, h + t, depth, n) <==>
              if d.None? then OuterNth(p, h, depth, n) else OuterNth(p + h, t, d.value, n)
  {
    ScanPrefix(h, t, 0, depth);
    hide TypeEnd, NthNull, DepthAfter;
    var d, e := DepthAfter(h, 0, depth), TypeEnd(h + t, 0, depth);
    if d.None? {
      assert (h + t)[..e] == h[..e];
    } else {
      assert p + (h + t)[..e] == p + h + t[..e - |h|];
    }
  }

  /** Plain characters neither nest nor end a type. */
  lemma {:induction false} PlainTail(g: string, j: nat, depth: nat, c: char)
    requires j <= |g| && !Opens(c) && !Ends(c)
    ensures DepthAfter(g + [c], j, depth) == DepthAfter(g, j, depth)
    decreases |g| - j
  {
    if j < |g| {
      assert (g + [c])[j] == g[j];
      PlainTail(g, j + 1, depth, c);
      PlainTail(g, j + 1, depth + 1, c);
      if depth > 0 { PlainTail(g, j + 1, depth - 1, c); }
    } else {
      assert (g + [c])[j] == c;
    }
  }

  lemma MarkedHead(g: string, h: string, depth: nat)
    requires h == g + ":" || h == g + "?:"
    ensures DepthAfter(h, 0, depth) == DepthAfter(g, 0, depth) == DepthAfter(g + "?:", 0, depth)
  {
    PlainTail(g, 0, depth, ':');
    PlainTail(g, 0, depth, '?');
    PlainTail(g + "?", 0, depth, ':');
    assert g + "?" + ":" == g + "?:";
  }

  // ----- Stripping a nested type -----

  lemma HardSplit(r: string, k: nat, e: nat, n: nat)
    requires k < e <= |r| && Hard(r[k])
    ensures NthNull("" + r[..e], n).Some? <==> NthNull(r[k + 1..e], n).Some?
  {
    HardPrefixNth(r[..k + 1], r[k + 1..e], n);
    hide NthNull;
    assert "" + r[..e] == r[..k + 1] + r[k + 1..e];
  }

  /** A nested type ends sooner than the longer one around it, at a hard character. */
  lemma NestedShape(p: string, q: string, depth: nat)
    requires OuterCut(p, q) && TypeEnd(With(p, q), 0, 0) != TypeEnd(With(p, q), 0, depth)
    ensures var t := With(p, q); var e0, e := TypeEnd(t, 0, 0), TypeEnd(t, 0, depth);
            && |p| + 7 <= e0 < e <= |p| + 7 + |q| == |t| && Hard(t[e0]) && TypeEnd(p + q, 0, depth) == e - 7
  {
    hide TypeEnd, OuterCut, With, Hard;
    CutShape(p, q);
    EndMonotone(With(p, q), 0, 0, depth);
    EndDeleted(p, q, 0, depth);
    TypeEndStops(With(p, q), 0, 0);
    NullChars(p, q);
    EndIsHard(With(p, q)[TypeEnd(With(p, q), 0, 0)]);
  }

  /** The nulls a longer type ends with are not the ones its nested type loses. */
  lemma NestedStrip(p: string, q: string, depth: nat, n: nat)
    requires OuterCut(p, q) && TypeEnd(With(p, q), 0, 0) != TypeEnd(With(p, q), 0, depth)
    ensures OuterNth("", With(p, q), depth, n) <==> OuterNth("", p + q, depth, n)
  {
    hide TypeEnd, NthNull, OuterCut, With, Hard;
    var t := With(p, q);
    var e0, e := TypeEnd(t, 0, 0), TypeEnd(t, 0, depth);
    NestedShape(p, q, depth);
    StripSeam(p, q, e0, e);
    HardSplit(t, e0, e, n);
    HardSplit(p + q, e0 - 7, e - 7, n);
  }

  lemma EndIsHard(c: char)
    requires Ends(c)
    ensures Hard(c)
  {
  }

  lemma StripSeam(p: string, q: string, e0: nat, e: nat)
    requires |p| + 7 <= e0 < e <= |p| + 7 + |q|
    ensures |With(p, q)| == |p| + 7 + |q|
    ensures (p + q)[e0 - 6..e - 7] == With(p, q)[e0 + 1..e]
    ensures (p + q)[e0 - 7] == With(p, q)[e0]
  {
  }

  /** A type that ends where the nested one does loses its last null with it. */
  lemma SharedStrip(p: string, q: string, depth: nat, n: nat)
    requires OuterCut(p, q) && TypeEnd(With(p, q), 0, 0) == TypeEnd(With(p, q), 0, depth)
    ensures OuterNth("", With(p, q), depth, n + 1) <==> OuterNth("", p + q, depth, n)
  {
    NullChars(p, q);
    hide TypeEnd, NthNull, OuterCut, With;
    var e := TypeEnd(With(p, q), 0, 0);
    CutShape(p, q);
    EndDeleted(p, q, 0, depth);
    SharedNth(p, q, 0, e, n);
    assert "" + With(p, q)[..e] == With(p, q)[0..e] && "" + (p + q)[..e - 7] == (p + q)[0..e - 7];
  }

  lemma NoNullAnywhere(t: string, depth: nat, n: nat)
    requires NullCut(t, 0).None? && TypeEnd(t, 0, 0) == TypeEnd(t, 0, depth)
    ensures !OuterNth("", t, depth, n)
  {
    hide TypeEnd, TrimEnd;
    assert "" + t[..TypeEnd(t, 0, 0)] == t[0..TypeEnd(t, 0, 0)];
  }

  /** Stripping a field's type takes one null from the types that end with it, and none
      from longer ones. */
  lemma StripNth(t: string, depth: nat, n: nat)
    ensures OuterNth("", t, depth, n + Extra(t, TypeEnd(t, 0, depth))) <==> OuterNth("", Stripped(t), depth, n)
  {
    hide NullCut, TypeEnd, OuterNth, With;
    StrippedIs(t);
    if NullCut(t, 0).Some? {
      CutApart(t);
      var c := NullCut(t, 0).value;
      if TypeEnd(t, 0, 0) == TypeEnd(t, 0, depth) {
        SharedStrip(t[..c], t[c + 7..], depth, n);
      } else {
        NestedStrip(t[..c], t[c + 7..], depth, n);
      }
    } else if TypeEnd(t, 0, 0) == TypeEnd(t, 0, depth) {
      NoNullAnywhere(t, depth, n);
      NoNullAnywhere(t, depth, n + 1);
    }
  }

  // ----- Counting the fields that end with a type -----

  function CountAll(alnum: char -> bool, key: string, w: bool, r: string, e: nat): nat {
    Count(alnum, key, w, r, e, |r|)
  }

  lemma CountStripped(alnum: char -> bool, key: string, t: string, depth: nat)
    requires Punctuated(alnum, key)
    ensures CountAll(alnum, key, false, t, TypeEnd(t, 0, depth))
         == CountAll(alnum, key, false, Stripped(t), TypeEnd(Stripped(t), 0, depth))
  {
    hide NullCut, TypeEnd, With, Count, Punctuated;
    StrippedIs(t);
    if NullCut(t, 0).Some? {
      CutApart(t);
      var c := NullCut(t, 0).value;
      var p, q := t[..c], t[c + 7..];
      EndDeleted(p, q, 0, depth);
      CountAllImage(alnum, key, p, q, TypeEnd(p + q, 0, depth));
    }
  }

  lemma CountAllBelow(alnum: char -> bool, key: string, w: bool, h: string, t: string, k: nat, e: nat)
    requires KeyShaped(alnum, key) && PastColon(alnum, key, w, h, t, k)
    ensures CountAll(alnum, key, w, h + t, |h| + e) == CountAll(alnum, key, false, t, e) + Extra(t, e)
  {
    hide Count, PastColon, KeyShaped, Extra;
    CountBelow(alnum, key, w, h, t, k, e, |t|);
  }

  lemma CountAllRest(alnum: char -> bool, key: string, w: bool, h: string, t: string, e: nat)
    requires KeyShaped(alnum, key) && h != "" && forall i: nat :: i < |h| ==> !Field(alnum, key, w, h + t, i)
    ensures CountAll(alnum, key, w, h + t, |h| + e) == CountAll(alnum, key, EndsInWord(alnum, h), t, e)
  {
    hide Count, Field, KeyShaped, EndsInWord;
    CountPast(alnum, key, w, h, t, e, |t|);
    CountNone(alnum, key, w, h + t, |h| + e, |h|);
  }

  lemma {:induction false} CountShort(alnum: char -> bool, key: string, w: bool, r: string, e: nat, n: nat)
    requires forall i: nat :: Field(alnum, key, w, r, i) ==> ColonAt(r, key, i) >= e
    ensures Count(alnum, key, w, r, e, n) == 0
  {
    hide Field, ColonAt, TypeEnd;
    if n > 0 {
      CountShort(alnum, key, w, r, e, n - 1);
      if Field(alnum, key, w, r, n - 1) { FieldBounds(alnum, key, w, r, n - 1); }
    }
  }

  // ----- Rewriting under a type -----

  /** The type that ends at e loses one null for each field whose type ends there. */
  ghost predicate OuterExact(alnum: char -> bool, key: string, w: bool, r: string, x: string, p: string, depth: nat) {
    OuterNth(p, x, depth, 0) <==> OuterNth(p, r, depth, CountAll(alnum, key, w, r, TypeEnd(r, 0, depth)))
  }

  lemma ColonPrefix(p: string, r: string, depth: nat, n: nat)
    requires p != "" && p[|p| - 1] == ':'
    ensures OuterNth(p, r, depth, n) <==> OuterNth("", r, depth, n)
  {
    hide TypeEnd, NthNull;
    var y := r[..TypeEnd(r, 0, depth)];
    assert Hard(':');
    HardPrefixNth(p, y, n);
    assert "" + y == y;
  }

  /** When the type ends inside a prefix before every colon, no field ends with it. */
  lemma NoneEndWithin(alnum: char -> bool, key: string, w: bool, h: string, t: string, g: nat, depth: nat)
    requires DepthAfter(h, 0, depth).None? && TypeEnd(h, 0, depth) <= g
    requires forall i: nat :: Field(alnum, key, w, h + t, i) ==> ColonAt(h + t, key, i) >= g
    ensures CountAll(alnum, key, w, h + t, TypeEnd(h + t, 0, depth)) == 0
  {
    hide Field, ColonAt, TypeEnd, DepthAfter, Count;
    ScanPrefix(h, t, 0, depth);
    CountShort(alnum, key, w, h + t, TypeEnd(h + t, 0, depth), |h + t|);
  }

  lemma ColonsPastHead(alnum: char -> bool, key: string, w: bool, h: string, t: string, k: nat, i: nat)
    requires PastColon(alnum, key, w, h, t, k) && Field(alnum, key, w, h + t, i)
    ensures ColonAt(h + t, key, i) >= |h| - 1
  {
    FieldBounds(alnum, key, w, h + t, i);
    hide Field, ColonAt;
  }

  lemma OuterFieldWithin(alnum: char -> bool, key: string, w: bool, g: string, h: string, t: string, x: string, k: nat,
                         p: string, depth: nat)
    requires PastColon(alnum, key, w, h, t, k) && (h == g + ":" || h == g + "?:") && DepthAfter(g, 0, depth).None?
    ensures OuterExact(alnum, key, w, h + t, g + "?:" + x, p, depth)
  {
    hide PastColon, DepthAfter, CountAll, OuterNth, TypeEnd, Field, ColonAt;
    MarkedHead(g, h, depth);
    var tail := h[|g|..];
    assert h == g + tail;
    ScanPrefix(g, tail, 0, depth);
    OuterNthPast(p, g, tail + t, depth, 0);
    OuterNthPast(p, g, "?:" + x, depth, 0);
    assert g + (tail + t) == h + t && g + ("?:" + x) == g + "?:" + x;
    forall i: nat | Field(alnum, key, w, h + t, i) ensures ColonAt(h + t, key, i) >= |g| {
      ColonsPastHead(alnum, key, w, h, t, k, i);
    }
    NoneEndWithin(alnum, key, w, h, t, |g|, depth);
  }

  lemma OuterPastField(alnum: char -> bool, key: string, w: bool, g: string, h: string, t: string, k: nat, p: string,
                       depth: nat)
    requires Punctuated(alnum, key) && key != "" && PastColon(alnum, key, w, h, t, k)
    requires h == g + ":" || h == g + "?:"
    requires forall d: nat ::
      OuterExact(alnum, key, false, Stripped(t), Rewrite(alnum, key, false, Stripped(t)), "", d)
    ensures OuterExact(alnum, key, w, h + t, g + "?:" + Rewrite(alnum, key, false, Stripped(t)), p, depth)
  {
    hide Field, OuterNth, DepthAfter, Rewrite, Stripped, ColonAt, TypeEnd, Punctuated, EndsInWord, PastColon, CountAll,
      Extra;
    var u := Stripped(t);
    var x := Rewrite(alnum, key, false, u);
    KeyShape(alnum, key);
    MarkedHead(g, h, depth);
    var d := DepthAfter(g, 0, depth);
    if d.None? {
      OuterFieldWithin(alnum, key, w, g, h, t, x, k, p, depth);
    } else {
      var n := CountAll(alnum, key, false, u, TypeEnd(u, 0, d.value));
      ScanPrefix(h, t, 0, depth);
      CountAllBelow(alnum, key, w, h, t, k, TypeEnd(t, 0, d.value));
      CountStripped(alnum, key, t, d.value);
      var m := n + Extra(t, TypeEnd(t, 0, d.value));
      OuterNthPast(p, h, t, depth, m);
      OuterNthPast(p, g + "?:", x, depth, 0);
      ColonPrefix(p + h, t, d.value, m);
      ColonPrefix(p + (g + "?:"), x, d.value, 0);
      StripNth(t, d.value, n);
      assert OuterExact(alnum, key, false, u, x, "", d.value);
    }
  }

  lemma OuterPastWord(alnum: char -> bool, key: string, w: bool, h: string, t: string, x: string, p: string, depth: nat)
    requires KeyShaped(alnum, key) && h != "" && EndsInWord(alnum, h)
    requires forall i: nat :: i < |h| ==> !Field(alnum, key, w, h + t, i)
    requires forall d: nat :: OuterExact(alnum, key, true, t, x, p + h, d)
    ensures OuterExact(alnum, key, w, h + t, h + x, p, depth)
  {
    hide OuterNth, DepthAfter, EndsInWord, Field, TypeEnd, CountAll, ColonAt;
    var d := DepthAfter(h, 0, depth);
    ScanPrefix(h, t, 0, depth);
    OuterNthPast(p, h, x, depth, 0);
    if d.Some? {
      var e := TypeEnd(t, 0, d.value);
      CountAllRest(alnum, key, w, h, t, e);
      OuterNthPast(p, h, t, depth, CountAll(alnum, key, true, t, e));
      assert OuterExact(alnum, key, true, t, x, p + h, d.value);
    } else {
      forall i: nat | Field(alnum, key, w, h + t, i) ensures ColonAt(h + t, key, i) >= |h| {
        FieldBounds(alnum, key, w, h + t, i);
      }
      NoneEndWithin(alnum, key, w, h, t, |h|, depth);
      OuterNthPast(p, h, t, depth, 0);
    }
  }

  lemma HeadOfField(alnum: char -> bool, key: string, w: bool, r: string, k: nat)
    requires Punctuated(alnum, key) && Field(alnum, key, w, r, k)
    ensures var c, m := ColonAt(r, key, k), k + |key|;
            && m <= c < |r| && (r[..c + 1] == r[..m] + ":" || r[..c + 1] == r[..m] + "?:")
            && !EndsInWord(alnum, r[..c + 1])
  {
    var c, m := ColonAt(r, key, k), k + |key|;
    assert !WordChar(alnum, ':');
    if c == m {
      assert r[..c + 1] == r[..m] + ":";
    } else {
      assert r[..c + 1] == r[..m] + "?:";
    }
  }

  lemma HeadIsPastColon(alnum: char -> bool, key: string, w: bool, r: string, k: nat)
    requires Punctuated(alnum, key) && Find(r, key, 0) == k && Field(alnum, key, w, r, k)
    ensures var c := ColonAt(r, key, k); c < |r| && PastColon(alnum, key, w, r[..c + 1], r[c + 1..], k)
  {
    hide Field, ColonAt, Find, Punctuated, EndsInWord, OnlyFieldBefore;
    HeadIsNoWord(alnum, key, w, r, k);
    KeyShape(alnum, key);
    OnlyInHead(alnum, key, w, r, k);
    var c := ColonAt(r, key, k);
    assert r[..c + 1] + r[c + 1..] == r;
  }

  lemma HeadIsNoWord(alnum: char -> bool, key: string, w: bool, r: string, k: nat)
    requires Punctuated(alnum, key) && Field(alnum, key, w, r, k)
    ensures ColonAt(r, key, k) < |r| && !EndsInWord(alnum, r[..ColonAt(r, key, k) + 1])
  {
    hide Field, ColonAt, Punctuated, EndsInWord;
    HeadOfField(alnum, key, w, r, k);
  }

  lemma NothingCounted(alnum: char -> bool, key: string, w: bool, r: string, p: string, depth: nat)
    requires Find(r, key, 0) == -1
    ensures OuterExact(alnum, key, w, r, r, p, depth)
  {
    CountNone(alnum, key, w, r, TypeEnd(r, 0, depth), |r|);
    hide TypeEnd, OuterNth;
  }

  /** Rewriting what a type holds leaves it a trailing null exactly when it ended with more
      nulls than there are fields in it whose types end there. */
  lemma {:induction false} RewritingKeepsOuter(alnum: char -> bool, key: string, w: bool, r: string, p: string,
                                               depth: nat)
    requires Punctuated(alnum, key) && key != ""
    ensures OuterExact(alnum, key, w, r, Rewrite(alnum, key, w, r), p, depth)
    decreases |r|
  {
    hide Field, ColonAt, Rewrite, Find, Stripped, Punctuated, KeyAt, EndsInWord, OuterExact, PastColon;
    KeyShape(alnum, key);
    var k := Find(r, key, 0);
    if k == -1 {
      NothingLeft(alnum, key, w, r);
      NothingCounted(alnum, key, w, r, p, depth);
      return;
    }
    CopyEndsInWord(alnum, key, r, k);
    var m := k + |key|;
    if Field(alnum, key, w, r, k) {
      HeadOfField(alnum, key, w, r, k);
      HeadIsPastColon(alnum, key, w, r, k);
      var c := ColonAt(r, key, k);
      var h, t := r[..c + 1], r[c + 1..];
      assert h + t == r;
      StrippedShorter(t);
      RewriteField(alnum, key, w, r, k);
      forall d: nat
        ensures OuterExact(alnum, key, false, Stripped(t), Rewrite(alnum, key, false, Stripped(t)), "", d)
      {
        RewritingKeepsOuter(alnum, key, false, Stripped(t), "", d);
      }
      OuterPastField(alnum, key, w, r[..m], h, t, k, p, depth);
    } else {
      var h, t := r[..m], r[m..];
      assert h + t == r;
      RewriteWord(alnum, key, w, r, k);
      NoFieldInWord(alnum, key, w, r, k);
      forall d: nat ensures OuterExact(alnum, key, true, t, Rewrite(alnum, key, true, t), p + h, d) {
        RewritingKeepsOuter(alnum, key, true, t, p + h, d);
      }
      OuterPastWord(alnum, key, w, h, t, Rewrite(alnum, key, true, t), p, depth);
    }
  }
}
