/** Rewriting generated declarations: fields that may be omitted are marked optional. */
module Rewriter {

  /** Letters and digits of any script, as the host classifies characters. */
  predicate WordChar(alnum: char -> bool, c: char) {
    alnum(c) || c == '_'
  }

  /** A field name: word characters only, and punctuation is not part of words. */
  ghost predicate KeyShaped(alnum: char -> bool, key: string) {
    && key != "" && (forall i :: 0 <= i < |key| ==> WordChar(alnum, key[i]))
    && !WordChar(alnum, '?') && !WordChar(alnum, ':')
  }

  predicate KeyAt(text: string, key: string, i: int) {
    0 <= i && i + |key| <= |text| && text[i..i + |key|] == key
  }

  /** Nothing of a longer word stands before position i. */
  predicate Free(alnum: char -> bool, text: string, i: int)
    requires i <= |text|
  {
    i <= 0 || !WordChar(alnum, text[i - 1])
  }

  /** A boundary-preceded `key:`. */
  predicate BareField(alnum: char -> bool, text: string, key: string, i: int) {
    KeyAt(text, key, i) && i + |key| < |text| && text[i + |key|] == ':' && Free(alnum, text, i)
  }

  /** The text with a question mark before the colon of every bare field before n. */
  function Marked(alnum: char -> bool, text: string, key: string, n: nat): string
    requires n <= |text|
  {
    if n == 0 then ""
    else
      Marked(alnum, text, key, n - 1)
        + (if BareField(alnum, text, key, n - 1 - |key|) then "?" else "")
        + [text[n - 1]]
  }

  function MarkAll(alnum: char -> bool, text: string, key: string): string {
    Marked(alnum, text, key, |text|)
  }

  /** The first occurrence of a needle at or after a position. */
  function Find(text: string, needle: string, from: nat): (at: int)
    requires from <= |text|
    ensures at == -1 || (from <= at <= |text| && KeyAt(text, needle, at))
    ensures forall i :: from <= i && KeyAt(text, needle, i) ==> at != -1 && at <= i
    decreases |text| - from
  {
    if KeyAt(text, needle, from) then from
    else if from == |text| then -1
    else Find(text, needle, from + 1)
  }

  lemma NeedleIsKeyColon(text: string, key: string, i: int)
    ensures KeyAt(text, key + ":", i) <==> KeyAt(text, key, i) && i + |key| < |text| && text[i + |key|] == ':'
  {
    if 0 <= i && i + |key| < |text| {
      assert text[i..i + |key| + 1] == text[i..i + |key|] + [text[i + |key|]];
    }
    if KeyAt(text, key + ":", i) {
      assert text[i..i + |key| + 1][..|key|] == text[i..i + |key|];
      assert (key + ":")[|key|] == ':';
    }
  }

  /** The marked text up to p, with the mark of a colon standing at p itself. */
  function MarkedTo(alnum: char -> bool, text: string, key: string, p: nat): string
    requires p <= |text|
  {
    Marked(alnum, text, key, p) + (if BareField(alnum, text, key, p - |key|) then "?" else "")
  }

  /** Between two positions with no marked colon, marking copies the text. */
  lemma {:induction false} CopiedStretch(alnum: char -> bool, text: string, key: string, a: nat, b: nat)
    requires a < b <= |text|
    requires forall i :: BareField(alnum, text, key, i) ==> !(a < i + |key| < b)
    ensures Marked(alnum, text, key, b) == MarkedTo(alnum, text, key, a) + text[a..b]
    decreases b - a
  {
    hide BareField;
    assert text[a..b] == text[a..b - 1] + [text[b - 1]];
    if a < b - 1 {
      CopiedStretch(alnum, text, key, a, b - 1);
      assert !BareField(alnum, text, key, b - 1 - |key|);
    } else {
      assert text[a..a] == "";
    }
  }

  /** An occurrence starting inside another one is no bare field. */
  lemma NoFieldInside(alnum: char -> bool, text: string, key: string, at: int, i: int)
    requires KeyShaped(alnum, key) && KeyAt(text, key, at) && at < i <= at + |key|
    ensures !BareField(alnum, text, key, i)
  {
    assert text[i - 1] == text[at..at + |key|][i - 1 - at];
  }

  /** Behind the cursor lies the marked text, ahead the original from p on, and every
      field begun before p has its colon at p or before. */
  ghost predicate Cursor(alnum: char -> bool, text: string, key: string, out: string, from: nat, p: nat) {
    && p <= |text| && from <= |out|
    && out[..from] == MarkedTo(alnum, text, key, p) && out[from..] == text[p..]
    && forall i :: BareField(alnum, text, key, i) && i < p ==> i + |key| <= p
  }

  /** An occurrence ahead of the cursor is one in the text. */
  lemma SameAhead(out: string, from: nat, text: string, p: nat, needle: string, at: nat)
    requires from <= |out| && p <= |text| && out[from..] == text[p..] && from <= at
    ensures KeyAt(out, needle, at) <==> KeyAt(text, needle, at - from + p)
  {
    var k, n := at - from, |needle|;
    assert |out| - from == |text| - p;
    if at + n <= |out| {
      assert out[at..at + n] == out[from..][k..k + n];
      assert text[k + p..k + p + n] == text[p..][k..k + n];
    }
  }

  /** The mark inserted before a colon is never a word character, nor is the colon. */
  lemma CursorBoundary(alnum: char -> bool, text: string, key: string, out: string, from: nat, p: nat, at: nat)
    requires KeyShaped(alnum, key) && Cursor(alnum, text, key, out, from, p)
    requires from <= at && KeyAt(out, key + ":", at)
    ensures KeyAt(text, key + ":", at - from + p)
    ensures Free(alnum, out, at) <==> Free(alnum, text, at - from + p)
  {
    hide Marked, KeyAt, BareField;
    var q := at - from + p;
    SameAhead(out, from, text, p, key + ":", at);
    FirstOfKey(text, key, q);
    if at > from {
      assert out[at - 1] == out[from..][at - 1 - from];
    } else {
      MarkedNonempty(alnum, text, key, p);
      if BareField(alnum, text, key, p - |key|) { ColonIsNoKey(alnum, text, key, p); }
      assert out[..from] == MarkedTo(alnum, text, key, p);
    }
  }

  lemma FirstOfKey(text: string, key: string, q: nat)
    requires key != "" && KeyAt(text, key + ":", q)
    ensures q < |text| && text[q] == key[0]
  {
    assert text[q] == text[q..q + |key| + 1][0] == (key + ":")[0];
  }

  /** Where a mark stands, a colon follows, so no field begins there. */
  lemma ColonIsNoKey(alnum: char -> bool, text: string, key: string, p: nat)
    requires KeyShaped(alnum, key) && BareField(alnum, text, key, p - |key|)
    ensures p < |text| && text[p] == ':' && text[p] != key[0]
  {
  }

  lemma MarkedNonempty(alnum: char -> bool, text: string, key: string, p: nat)
    requires p <= |text|
    ensures Marked(alnum, text, key, p) == "" <==> p == 0
    ensures p > 0 ==> var m := Marked(alnum, text, key, p); m[|m| - 1] == text[p - 1]
  {
  }

  /** No field ends its name between the cursor and the first occurrence ahead. */
  lemma NothingBetween(alnum: char -> bool, text: string, key: string, out: string, from: nat, p: nat, end: nat)
    requires KeyShaped(alnum, key) && Cursor(alnum, text, key, out, from, p)
    requires forall i :: from <= i && KeyAt(out, key + ":", i) ==> end <= i - from + p
    ensures forall i :: BareField(alnum, text, key, i) ==> !(p < i + |key| < end + |key|)
  {
    forall i | BareField(alnum, text, key, i) && p < i + |key|
      ensures end <= i
    {
      assert i >= p;
      NeedleIsKeyColon(text, key, i);
      SameAhead(out, from, text, p, key + ":", i - p + from);
    }
  }

  /** Insert the mark at each occurrence found, skipping those inside longer words. */
  method MarkOmitted(alnum: char -> bool, text: string, key: string) returns (out: string)
    requires KeyShaped(alnum, key)
    ensures out == MarkAll(alnum, text, key)
  {
    hide BareField, Free, KeyAt, Marked, KeyShaped;
    out := text;
    var from: nat := 0;
    ghost var p: nat := 0;
    CursorStart(alnum, text, key);
    while true
      invariant Cursor(alnum, text, key, out, from, p)
      decreases |text| - p
    {
      var at := Find(out, key + ":", from);
      if at == -1 {
        CursorEnd(alnum, text, key, out, from, p);
        break;
      }
      CursorBoundary(alnum, text, key, out, from, p, at);
      if !Free(alnum, out, at) {
        CursorSkips(alnum, text, key, out, from, p, at);
        p := at - from + p + |key| + 1;
        from := at + |key| + 1;
      } else {
        CursorMarks(alnum, text, key, out, from, p, at);
        p := at - from + p + |key|;
        var after := at + |key|;
        out := out[..after] + "?" + out[after..];
        from := after + 1;
      }
    }
  }

  lemma CursorStart(alnum: char -> bool, text: string, key: string)
    requires KeyShaped(alnum, key)
    ensures Cursor(alnum, text, key, text, 0, 0)
  {
    assert text[0..] == text;
  }

  lemma CursorEnd(alnum: char -> bool, text: string, key: string, out: string, from: nat, p: nat)
    requires KeyShaped(alnum, key) && Cursor(alnum, text, key, out, from, p)
    requires forall i :: from <= i ==> !KeyAt(out, key + ":", i)
    ensures out == MarkAll(alnum, text, key)
  {
    hide BareField, KeyAt;
    NothingBetween(alnum, text, key, out, from, p, |text|);
    assert out == out[..from] + out[from..];
    if p < |text| {
      CopiedStretch(alnum, text, key, p, |text|);
      assert text[p..|text|] == text[p..];
    } else {
      NoFieldAtEnd(alnum, text, key);
    }
  }

  lemma NoFieldAtEnd(alnum: char -> bool, text: string, key: string)
    ensures !BareField(alnum, text, key, |text| - |key|)
  {
  }

  ghost predicate FirstAhead(out: string, key: string, from: nat, at: int) {
    from <= at && KeyAt(out, key + ":", at) && forall i :: from <= i && KeyAt(out, key + ":", i) ==> at <= i
  }

  /** The occurrence found is the text's next, and only its own field can end there. */
  lemma NextField(alnum: char -> bool, text: string, key: string, out: string, from: nat, p: nat, at: nat)
    requires KeyShaped(alnum, key) && Cursor(alnum, text, key, out, from, p) && FirstAhead(out, key, from, at)
    ensures var c := at - from + p + |key|;
            && p < c < |text| && KeyAt(text, key, c - |key|) && text[c] == ':'
            && (forall i :: BareField(alnum, text, key, i) && i <= c && i != c - |key| ==> i + |key| <= p)
            && (forall i :: BareField(alnum, text, key, i) ==> !(p < i + |key| < c))
  {
    hide BareField, Free;
    var q := at - from + p;
    CursorBoundary(alnum, text, key, out, from, p, at);
    NeedleIsKeyColon(text, key, q);
    NothingBetween(alnum, text, key, out, from, p, q);
    hide Cursor, FirstAhead;
    forall i | BareField(alnum, text, key, i) && i <= q + |key| && i != q
      ensures i + |key| <= p
    {
      if i > q { NoFieldInside(alnum, text, key, q, i); }
    }
  }

  lemma Splice(out: string, from: nat, text: string, p: nat, k: nat)
    requires from <= |out| && p <= |text| && out[from..] == text[p..] && p + k <= |text|
    ensures from + k <= |out| && out[..from + k] == out[..from] + text[p..p + k] && out[from + k..] == text[p + k..]
  {
    assert out[..from + k] == out[..from] + out[from..][..k];
    assert out[from + k..] == out[from..][k..];
  }

  /** Everything up to the colon of the occurrence found is copied. */
  lemma CopiedToColon(alnum: char -> bool, text: string, key: string, out: string, from: nat, p: nat, at: nat)
    requires KeyShaped(alnum, key) && Cursor(alnum, text, key, out, from, p) && FirstAhead(out, key, from, at)
    ensures var c := at - from + p + |key|;
            && p < c < |text| && at + |key| < |out|
            && out[..at + |key|] == Marked(alnum, text, key, c) && out[at + |key|..] == text[c..]
  {
    hide BareField, Free, KeyAt, FirstAhead, Marked, MarkedTo;
    var c := at - from + p + |key|;
    NextField(alnum, text, key, out, from, p, at);
    CopiedStretch(alnum, text, key, p, c);
    Splice(out, from, text, p, c - p);
  }

  /** One more character of the text that no field makes a marked colon. */
  lemma SkippedColon(alnum: char -> bool, text: string, key: string, out: string, k: nat, c: nat)
    requires k <= |out| && c < |text| && out[..k] == Marked(alnum, text, key, c) && out[k..] == text[c..]
    requires !BareField(alnum, text, key, c - |key|) && !BareField(alnum, text, key, c + 1 - |key|)
    ensures k + 1 <= |out| && out[k + 1..] == text[c + 1..]
    ensures out[..k + 1] == MarkedTo(alnum, text, key, c + 1)
  {
    hide BareField;
    Splice(out, k, text, c, 1);
    assert text[c..c + 1] == [text[c]];
  }

  lemma CursorSkips(alnum: char -> bool, text: string, key: string, out: string, from: nat, p: nat, at: nat)
    requires KeyShaped(alnum, key) && Cursor(alnum, text, key, out, from, p) && FirstAhead(out, key, from, at)
    requires !Free(alnum, text, at - from + p)
    ensures Cursor(alnum, text, key, out, at + |key| + 1, at - from + p + |key| + 1)
  {
    hide FirstAhead, KeyAt, Free, Marked, MarkedTo;
    var c := at - from + p + |key|;
    CopiedToColon(alnum, text, key, out, from, p, at);
    NextField(alnum, text, key, out, from, p, at);
    NoFieldInside(alnum, text, key, c - |key|, c - |key| + 1);
    assert !BareField(alnum, text, key, c - |key|);
    hide BareField;
    SkippedColon(alnum, text, key, out, at + |key|, c);
  }

  lemma CursorMarks(alnum: char -> bool, text: string, key: string, out: string, from: nat, p: nat, at: nat)
    requires KeyShaped(alnum, key) && Cursor(alnum, text, key, out, from, p) && FirstAhead(out, key, from, at)
    requires Free(alnum, text, at - from + p)
    ensures at + |key| <= |out|
    ensures Cursor(alnum, text, key, out[..at + |key|] + "?" + out[at + |key|..], at + |key| + 1, at - from + p + |key|)
  {
    var c := at - from + p + |key|;
    CopiedToColon(alnum, text, key, out, from, p, at);
    NextField(alnum, text, key, out, from, p, at);
    assert BareField(alnum, text, key, c - |key|);
    hide BareField, FirstAhead, KeyAt, Free, Marked;
    Inserted(out, at + |key|);
  }

  lemma Inserted(out: string, k: nat)
    requires k <= |out|
    ensures var next := out[..k] + "?" + out[k..];
            k + 1 <= |next| && next[..k + 1] == out[..k] + "?" && next[k + 1..] == out[k..]
  {
  }

  // ----- What marking does -----

  ghost predicate Unmarked(s: string, k: nat)
    requires k <= |s|
  {
    forall i :: |s| - k <= i < |s| ==> s[i] != '?'
  }

  /** A stretch of marked text without a question mark is a stretch of the text. */
  lemma {:induction false} UnmarkedSuffix(alnum: char -> bool, text: string, key: string, n: nat, k: nat)
    requires 1 <= k && n <= |text| && k <= |Marked(alnum, text, key, n)| && Unmarked(Marked(alnum, text, key, n), k)
    ensures k <= n && Marked(alnum, text, key, n) == MarkedTo(alnum, text, key, n - k) + text[n - k..n]
    decreases k
  {
    hide BareField;
    var m := Marked(alnum, text, key, n);
    assert text[n - 1..n] == [text[n - 1]];
    if k > 1 {
      var init := Marked(alnum, text, key, n - 1);
      UnmarkedInit(alnum, text, key, n, k);
      hide Marked, MarkedTo, Unmarked;
      UnmarkedSuffix(alnum, text, key, n - 1, k - 1);
      assert text[n - k..n] == text[n - k..n - 1] + [text[n - 1]];
    }
  }

  /** Without its last character the stretch is unmarked too. */
  lemma UnmarkedInit(alnum: char -> bool, text: string, key: string, n: nat, k: nat)
    requires 1 < k && n <= |text| && k <= |Marked(alnum, text, key, n)| && Unmarked(Marked(alnum, text, key, n), k)
    ensures n > 0 && k - 1 <= |Marked(alnum, text, key, n - 1)|
    ensures Unmarked(Marked(alnum, text, key, n - 1), k - 1)
    ensures Marked(alnum, text, key, n) == Marked(alnum, text, key, n - 1) + [text[n - 1]]
  {
    hide BareField;
    var m, init := Marked(alnum, text, key, n), Marked(alnum, text, key, n - 1);
    assert m[|m| - 2] != '?';
    assert !BareField(alnum, text, key, n - 1 - |key|);
    assert m == init + [text[n - 1]];
    forall i | |init| - (k - 1) <= i < |init| ensures init[i] != '?' { assert m[i] == init[i]; }
  }

  /** A key's occurrence holds no question mark. */
  lemma KeyIsUnmarked(alnum: char -> bool, s: string, key: string, i: nat)
    requires KeyShaped(alnum, key) && KeyAt(s, key, i) && i + |key| == |s|
    ensures Unmarked(s, |key|)
  {
    forall j | |s| - |key| <= j < |s| ensures s[j] != '?' {
      assert s[j] == s[i..i + |key|][j - i];
    }
  }

  lemma KeyNonempty(alnum: char -> bool, key: string)
    requires KeyShaped(alnum, key)
    ensures 1 <= |key|
  {
  }

  /** Nothing is left to mark: a marked text has no bare field. */
  lemma {:induction false} MarkedHasNoField(alnum: char -> bool, text: string, key: string, n: nat, i: int)
    requires KeyShaped(alnum, key) && n <= |text|
    ensures !BareField(alnum, Marked(alnum, text, key, n), key, i)
    decreases n
  {
    if n > 0 && BareField(alnum, Marked(alnum, text, key, n), key, i) {
      hide Marked, BareField, KeyAt, Free, Unmarked, MarkedTo;
      var m, init := Marked(alnum, text, key, n), Marked(alnum, text, key, n - 1);
      KeyNonempty(alnum, key);
      hide KeyShaped;
      MarkedHasNoField(alnum, text, key, n - 1, i);
      FieldAtTheEnd(alnum, m, init, text, key, n, i);
      KeyIsUnmarked(alnum, init, key, i);
      UnmarkedSuffix(alnum, text, key, n - 1, |key|);
      UnmarkedField(alnum, text, key, init, n, i);
    }
  }

  /** A bare field of the marked prefix that its init lacks ends with the last character. */
  lemma FieldAtTheEnd(alnum: char -> bool, m: string, init: string, text: string, key: string, n: nat, i: int)
    requires KeyShaped(alnum, key) && 0 < n <= |text|
    requires m == Marked(alnum, text, key, n) && init == Marked(alnum, text, key, n - 1)
    requires BareField(alnum, m, key, i) && !BareField(alnum, init, key, i)
    ensures i >= 0 && i + |key| == |init| && KeyAt(init, key, i) && Free(alnum, init, i)
    ensures text[n - 1] == ':' && !BareField(alnum, text, key, n - 1 - |key|)
  {
    assert init == m[..|init|];
    if i + |key| < |init| { FieldInPrefix(alnum, m, key, |init|, i); }
    if BareField(alnum, text, key, n - 1 - |key|) { MarkPrecedes(alnum, m, init, key, i); }
    assert m == init + [text[n - 1]];
    assert m[i..i + |key|] == init[i..i + |key|];
  }

  lemma FieldInPrefix(alnum: char -> bool, m: string, key: string, k: nat, i: int)
    requires BareField(alnum, m, key, i) && i + |key| < k <= |m|
    ensures BareField(alnum, m[..k], key, i)
  {
    assert m[..k][i..i + |key|] == m[i..i + |key|];
  }

  /** A question mark before the last character keeps a key from ending there. */
  lemma MarkPrecedes(alnum: char -> bool, m: string, init: string, key: string, i: int)
    requires KeyShaped(alnum, key) && |m| == |init| + 2 && init == m[..|init|] && m[|init|] == '?'
    ensures !(BareField(alnum, m, key, i) && i + |key| >= |init|)
  {
    if 0 <= i && i + |key| == |init| + 1 {
      assert m[i..i + |key|][|key| - 1] == m[|init|];
    }
  }

  lemma UnmarkedField(alnum: char -> bool, text: string, key: string, init: string, n: nat, i: int)
    requires KeyShaped(alnum, key) && |key| < n <= |text| && text[n - 1] == ':'
    requires init == MarkedTo(alnum, text, key, n - 1 - |key|) + text[n - 1 - |key|..n - 1]
    requires 0 <= i && i + |key| == |init| && KeyAt(init, key, i) && Free(alnum, init, i)
    ensures BareField(alnum, text, key, n - 1 - |key|)
  {
    hide Marked, BareField;
    var p := n - 1 - |key|;
    var head := MarkedTo(alnum, text, key, p);
    assert |head| == i && init[i..i + |key|] == text[p..p + |key|];
    assert key == text[p..p + |key|];
    assert key[0] == text[p];
    if BareField(alnum, text, key, p - |key|) { ColonIsNoKey(alnum, text, key, p); }
    MarkedNonempty(alnum, text, key, p);
    assert |head| == i;
    if p > 0 { assert init[i - 1] == head[i - 1] == text[p - 1]; }
    IsBareField(alnum, text, key, p);
  }

  lemma IsBareField(alnum: char -> bool, text: string, key: string, p: nat)
    requires KeyAt(text, key, p) && p + |key| < |text| && text[p + |key|] == ':' && Free(alnum, text, p)
    ensures BareField(alnum, text, key, p)
  {
  }

  /** Marking twice is marking once. */
  lemma MarkingIsIdempotent(alnum: char -> bool, text: string, key: string)
    requires KeyShaped(alnum, key)
    ensures MarkAll(alnum, MarkAll(alnum, text, key), key) == MarkAll(alnum, text, key)
  {
    hide Marked, BareField;
    var m := MarkAll(alnum, text, key);
    forall i ensures !BareField(alnum, m, key, i) {
      MarkedHasNoField(alnum, text, key, |text|, i);
    }
    MarkedNonempty(alnum, m, key, 0);
    if m != "" {
      CopiedStretch(alnum, m, key, 0, |m|);
      assert m[0..|m|] == m;
    } else {
      MarkedNonempty(alnum, m, key, |m|);
    }
  }
}
