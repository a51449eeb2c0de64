/** Rewriting generated declarations: a skipped optional field becomes absent, and one
    trailing ` | null` of its own type goes with it. */
module AbsentFields {
  import opened Wrappers
  import opened Text
  import opened Rewriter

  const NULL_SUFFIX := " | null"

  predicate Opens(c: char) {
    c == '{' || c == '[' || c == '('
  }

  predicate Closes(c: char) {
    c == '}' || c == ']' || c == ')'
  }

  predicate Ends(c: char) {
    Closes(c) || c == ';'
  }

  /** Punctuation and white space are not part of words. */
  ghost predicate Punctuated(alnum: char -> bool, key: string) {
    && KeyShaped(alnum, key)
    && forall c :: Whitespace(c) || Ends(c) || c == '|' ==> !WordChar(alnum, c)
  }

  // ----- Fields and their types -----

  /** Where the colon of a field is expected: after the key and at most one mark. */
  function ColonAt(r: string, key: string, i: nat): nat {
    var a := i + |key|;
    if a < |r| && r[a] == '?' then a + 1 else a
  }

  /** Position i starts a word, given whether a word runs up to the start of r. */
  predicate FreeIn(alnum: char -> bool, w: bool, r: string, i: nat)
    requires i <= |r|
  {
    if i == 0 then !w else !WordChar(alnum, r[i - 1])
  }

  predicate Field(alnum: char -> bool, key: string, w: bool, r: string, i: int) {
    && KeyAt(r, key, i) && FreeIn(alnum, w, r, i)
    && ColonAt(r, key, i) < |r| && r[ColonAt(r, key, i)] == ':'
  }

  /** The type runs to the first closing bracket or semicolon outside its own brackets. */
  function TypeEnd(r: string, j: nat, depth: nat): (end: nat)
    requires j <= |r|
    ensures j <= end <= |r|
    decreases |r| - j
  {
    if j == |r| then j
    else if Opens(r[j]) then TypeEnd(r, j + 1, depth + 1)
    else if Closes(r[j]) then if depth == 0 then j else TypeEnd(r, j + 1, depth - 1)
    else if r[j] == ';' && depth == 0 then j
    else TypeEnd(r, j + 1, depth)
  }

  predicate EndsNull(t: string) {
    |t| >= 7 && t[|t| - 7..] == NULL_SUFFIX
  }

  lemma {:induction false} TrimEndPrefix(s: string)
    ensures TrimEnd(s) <= s
    ensures forall j :: |TrimEnd(s)| <= j < |s| ==> Whitespace(s[j])
    ensures TrimEnd(s) != "" ==> !Whitespace(TrimEnd(s)[|TrimEnd(s)| - 1])
  {
    if s != "" && Whitespace(s[|s| - 1]) {
      TrimEndPrefix(s[..|s| - 1]);
    }
  }

  /** Where the trailing ` | null` of the type starting at s begins, if it has one. */
  function NullCut(r: string, s: nat): (cut: Option<nat>)
    requires s <= |r|
    ensures cut.Some? ==>
      s <= cut.value && cut.value + 7 <= TypeEnd(r, s, 0) && r[cut.value..cut.value + 7] == NULL_SUFFIX
  {
    var seg := r[s..TypeEnd(r, s, 0)];
    var t := TrimEnd(seg);
    TrimEndPrefix(seg);
    if EndsNull(t) then
      TailOfPrefix(r, s, TypeEnd(r, s, 0), t);
      Some(s + |t| - 7)
    else None
  }

  lemma TailOfPrefix(r: string, s: nat, e: nat, t: string)
    requires s <= e <= |r| && t <= r[s..e] && |t| >= 7
    ensures r[s + |t| - 7..s + |t|] == t[|t| - 7..]
  {
    assert t == r[s..e][..|t|];
    assert r[s..e][|t| - 7..|t|] == r[s + |t| - 7..s + |t|];
    assert r[s..e][..|t|][|t| - 7..] == r[s..e][|t| - 7..|t|];
  }

  // ----- The rewriting, from the cursor on -----

  function Stripped(t: string): (u: string)
    ensures |u| <= |t|
  {
    var cut := NullCut(t, 0);
    if cut.Some? then t[..cut.value] + t[cut.value + 7..] else t
  }

  function Rewrite(alnum: char -> bool, key: string, w: bool, r: string): string
    requires key != ""
    decreases |r|
  {
    var at := Find(r, key, 0);
    if at == -1 then r
    else if !Field(alnum, key, w, r, at) then
      r[..at + |key|] + Rewrite(alnum, key, true, r[at + |key|..])
    else
      r[..at + |key|] + "?:" + Rewrite(alnum, key, false, Stripped(r[ColonAt(r, key, at) + 1..]))
  }

  predicate EndsInWord(alnum: char -> bool, s: string) {
    s != "" && WordChar(alnum, s[|s| - 1])
  }

  lemma KeyAhead(p: string, r: string, key: string, i: nat)
    ensures KeyAt(p + r, key, |p| + i) <==> KeyAt(r, key, i)
  {
    if i + |key| <= |r| {
      assert (p + r)[|p| + i..|p| + i + |key|] == r[i..i + |key|];
    }
  }

  /** Searching past a prefix is searching the rest. */
  lemma {:induction false} FindAhead(p: string, r: string, key: string, i: nat)
    requires i <= |r|
    ensures var at := Find(r, key, i); Find(p + r, key, |p| + i) == if at == -1 then -1 else |p| + at
    decreases |r| - i
  {
    hide KeyAt;
    KeyAhead(p, r, key, i);
    if !KeyAt(r, key, i) && i < |r| {
      FindAhead(p, r, key, i + 1);
    }
  }

  lemma {:induction false} TypeEndAhead(p: string, r: string, j: nat, depth: nat)
    requires j <= |r|
    ensures TypeEnd(p + r, |p| + j, depth) == |p| + TypeEnd(r, j, depth)
    decreases |r| - j
  {
    if j < |r| {
      assert (p + r)[|p| + j] == r[j];
      TypeEndAhead(p, r, j + 1, depth);
      TypeEndAhead(p, r, j + 1, depth + 1);
      if depth > 0 { TypeEndAhead(p, r, j + 1, depth - 1); }
    }
  }

  lemma NullCutAhead(p: string, r: string, j: nat)
    requires j <= |r|
    ensures |p| + j <= |p + r|
    ensures var cut := NullCut(r, j); NullCut(p + r, |p| + j) == if cut.Some? then Some(|p| + cut.value) else None
  {
    hide TypeEnd;
    TypeEndAhead(p, r, j, 0);
    var e := TypeEnd(r, j, 0);
    assert (p + r)[|p| + j..|p| + e] == r[j..e];
  }

  lemma FieldAhead(alnum: char -> bool, key: string, p: string, r: string, i: nat)
    requires Punctuated(alnum, key) && KeyAt(r, key, i)
    ensures |p| + i <= |p + r| && KeyAt(p + r, key, |p| + i)
    ensures ColonAt(p + r, key, |p| + i) == |p| + ColonAt(r, key, i)
    ensures FreeIn(alnum, EndsInWord(alnum, p), r, i) <==> Free(alnum, p + r, |p| + i)
  {
    KeyAhead(p, r, key, i);
  }

  /** What is behind the cursor is final, what is ahead is still to be rewritten. */
  ghost predicate Rewriting(alnum: char -> bool, key: string, text: string, out: string, from: nat, done: string,
                            rest: string) {
    && key != "" && out == done + rest && from == |done|
    && done + Rewrite(alnum, key, EndsInWord(alnum, done), rest) == Rewrite(alnum, key, false, text)
  }

  /** Rewrite in place, one occurrence of the key at a time. */
  method MarkAbsent(alnum: char -> bool, text: string, key: string) returns (out: string)
    requires Punctuated(alnum, key)
    ensures out == Rewrite(alnum, key, false, text)
  {
    KeyPresent(alnum, key);
    out := text;
    var from: nat := 0;
    ghost var done, rest := "", text;
    assert Rewriting(alnum, key, text, out, from, done, rest);
    hide Rewriting, Punctuated, Free, Rewrite, Find, Field, KeyAt, FreeIn, Stripped, EndsInWord;
    while true
      invariant from <= |out| && Rewriting(alnum, key, text, out, from, done, rest)
      decreases |rest|
    {
      Ahead(alnum, key, text, out, from, done, rest);
      var at := Find(out, key, from);
      if at == -1 { break; }
      var after := ColonAt(out, key, at);
      if !Free(alnum, out, at) || after >= |out| || out[after] != ':' {
        done, rest := WordStep(alnum, key, text, out, done, rest, at);
        from := at + |key|;
      } else {
        ghost var head, tail := FieldStep(alnum, key, text, out, done, rest, at);
        out := MarkField(alnum, key, out, at, done, rest, head, tail);
        done, rest := head, tail;
        from := at + |key| + 2;
      }
    }
  }

  /** Searching and checking in place is searching and checking the rest. */
  lemma Ahead(alnum: char -> bool, key: string, text: string, out: string, from: nat, done: string, rest: string)
    requires Punctuated(alnum, key) && from <= |out| && Rewriting(alnum, key, text, out, from, done, rest)
    ensures |done| == from && out == done + rest
    ensures Find(out, key, from) == -1 ==> out == Rewrite(alnum, key, false, text)
    ensures Find(out, key, from) != -1 ==>
      var at := Find(out, key, from);
      && at <= |out| && Find(rest, key, 0) == at - from
      && (Field(alnum, key, EndsInWord(alnum, done), rest, at - from) <==>
            var after := ColonAt(out, key, at); Free(alnum, out, at) && after < |out| && out[after] == ':')
  {
    hide Rewrite, Field, EndsInWord, Punctuated, Free;
    FindAhead(done, rest, key, 0);
    if Find(out, key, from) == -1 {
      NothingLeft(alnum, key, EndsInWord(alnum, done), rest);
    } else {
      FieldHere(alnum, key, done, rest, Find(out, key, from) - from);
    }
  }

  lemma WordStep(alnum: char -> bool, key: string, text: string, out: string, done: string, rest: string, at: nat)
    returns (head: string, tail: string)
    requires Punctuated(alnum, key) && Rewriting(alnum, key, text, out, |done|, done, rest)
    requires at >= |done| && Find(rest, key, 0) == at - |done|
    requires !Field(alnum, key, EndsInWord(alnum, done), rest, at - |done|)
    ensures |tail| < |rest| && at + |key| <= |out| && Rewriting(alnum, key, text, out, at + |key|, head, tail)
  {
    hide Rewrite, Field, Punctuated, Find, EndsInWord;
    var k := at - |done| + |key|;
    WordKept(alnum, key, done, rest, at - |done|);
    head, tail := done + rest[..k], rest[k..];
  }

  lemma FieldStep(alnum: char -> bool, key: string, text: string, out: string, done: string, rest: string, at: nat)
    returns (head: string, tail: string)
    requires Punctuated(alnum, key) && Rewriting(alnum, key, text, out, |done|, done, rest)
    requires at >= |done| && Find(rest, key, 0) == at - |done|
    requires Field(alnum, key, EndsInWord(alnum, done), rest, at - |done|)
    ensures var k := at - |done|;
            && ColonAt(rest, key, k) < |rest| && k + |key| <= |rest|
            && head == done + (rest[..k + |key|] + "?:") && tail == Stripped(rest[ColonAt(rest, key, k) + 1..])
            && |tail| < |rest| && Rewriting(alnum, key, text, head + tail, at + |key| + 2, head, tail)
  {
    hide Rewrite, Field, Punctuated, Find, EndsInWord, ColonAt, NullCut, Stripped;
    var k := at - |done|;
    FieldMarked(alnum, key, done, rest, k);
    StrippedShorter(rest[ColonAt(rest, key, k) + 1..]);
    head, tail := done + (rest[..k + |key|] + "?:"), Stripped(rest[ColonAt(rest, key, k) + 1..]);
  }

  lemma StrippedShorter(t: string)
    ensures |Stripped(t)| <= |t|
  {
  }

  /** Make one field optional and drop the null its own type ends with. */
  method MarkField(alnum: char -> bool, key: string, text: string, at: nat, ghost done: string, ghost rest: string,
                   ghost head: string, ghost tail: string) returns (out: string)
    requires Punctuated(alnum, key) && text == done + rest && at >= |done| && Find(rest, key, 0) == at - |done|
    requires Field(alnum, key, EndsInWord(alnum, done), rest, at - |done|)
    requires var k := at - |done|;
             && ColonAt(rest, key, k) < |rest| && k + |key| <= |rest|
             && head == done + (rest[..k + |key|] + "?:") && tail == Stripped(rest[ColonAt(rest, key, k) + 1..])
    ensures out == head + tail
  {
    hide NullCut, TypeEnd, Punctuated, Rewrite, Find, Field, KeyAt, FreeIn, Stripped, EndsInWord, Free;
    ghost var k := at - |done|;
    FieldMarked(alnum, key, done, rest, k);
    FieldFound(alnum, key, EndsInWord(alnum, done), rest, k);
    FieldAhead(alnum, key, done, rest, k);
    var after := ColonAt(text, key, at);
    out := if after == at + |key| then text[..after] + "?" + text[after..] else text;
    out := StripType(out, at + |key| + 2, head, rest[ColonAt(rest, key, k) + 1..]);
  }

  lemma FieldFound(alnum: char -> bool, key: string, w: bool, r: string, k: nat)
    requires Field(alnum, key, w, r, k)
    ensures KeyAt(r, key, k) && ColonAt(r, key, k) <= k + |key| + 1
  {
  }

  method StripType(text: string, start: nat, ghost p: string, ghost t: string) returns (out: string)
    requires text == p + t && start == |p|
    ensures out == p + Stripped(t)
  {
    hide NullCut, Stripped;
    NullCutAhead(p, t, 0);
    StrippedIs(t);
    var cut := NullCut(text, start);
    if cut.None? { return text; }
    CutAhead(p, t, NullCut(t, 0).value);
    out := text[..cut.value] + text[cut.value + 7..];
  }

  lemma KeyPresent(alnum: char -> bool, key: string)
    requires Punctuated(alnum, key)
    ensures |key| > 0
  {
  }

  lemma CutAhead(p: string, t: string, c: nat)
    requires c + 7 <= |t|
    ensures (p + t)[..|p| + c] + (p + t)[|p| + c + 7..] == p + (t[..c] + t[c + 7..])
  {
  }

  lemma StrippedIs(t: string)
    ensures NullCut(t, 0).Some? ==> Stripped(t) == t[..NullCut(t, 0).value] + t[NullCut(t, 0).value + 7..]
    ensures NullCut(t, 0).None? ==> Stripped(t) == t
  {
    hide NullCut;
  }

  lemma NothingLeft(alnum: char -> bool, key: string, w: bool, r: string)
    requires key != "" && Find(r, key, 0) == -1
    ensures Rewrite(alnum, key, w, r) == r
  {
  }

  /** The checks made in place are the field check on the rest. */
  lemma FieldHere(alnum: char -> bool, key: string, p: string, r: string, k: nat)
    requires Punctuated(alnum, key) && KeyAt(r, key, k)
    ensures |p| + k <= |p + r|
    ensures Field(alnum, key, EndsInWord(alnum, p), r, k) <==>
      var after := ColonAt(p + r, key, |p| + k); Free(alnum, p + r, |p| + k) && after < |p + r| && (p + r)[after] == ':'
  {
    FieldAhead(alnum, key, p, r, k);
  }

  lemma RewriteWord(alnum: char -> bool, key: string, w: bool, r: string, k: nat)
    requires key != "" && Find(r, key, 0) == k && !Field(alnum, key, w, r, k) && k + |key| <= |r|
    ensures Rewrite(alnum, key, w, r) == r[..k + |key|] + Rewrite(alnum, key, true, r[k + |key|..])
  {
    hide Stripped, NullCut, TypeEnd, Field, Find, KeyAt, FreeIn, ColonAt;
  }

  lemma RewriteField(alnum: char -> bool, key: string, w: bool, r: string, k: nat)
    requires key != "" && Find(r, key, 0) == k && Field(alnum, key, w, r, k)
    requires ColonAt(r, key, k) < |r| && k + |key| <= |r|
    ensures Rewrite(alnum, key, w, r)
         == r[..k + |key|] + "?:" + Rewrite(alnum, key, false, Stripped(r[ColonAt(r, key, k) + 1..]))
  {
    hide Stripped, NullCut, TypeEnd, Field, Find, KeyAt, FreeIn, ColonAt;
  }

  lemma KeyEndsInWord(alnum: char -> bool, key: string, done: string, r: string, k: nat)
    requires Punctuated(alnum, key) && KeyAt(r, key, k)
    ensures EndsInWord(alnum, done + r[..k + |key|])
  {
    var head := done + r[..k + |key|];
    assert key[|key| - 1] == r[k..k + |key|][|key| - 1];
    assert head[|head| - 1] == r[..k + |key|][k + |key| - 1];
  }

  lemma KeyFits(r: string, key: string, k: nat)
    requires KeyAt(r, key, k)
    ensures k + |key| <= |r|
  {
  }

  /** A key that starts no field is copied, and a word runs on from it. */
  lemma WordKept(alnum: char -> bool, key: string, done: string, r: string, k: nat)
    requires Punctuated(alnum, key) && Find(r, key, 0) == k
    requires !Field(alnum, key, EndsInWord(alnum, done), r, k)
    ensures k + |key| <= |r|
    ensures var head := done + r[..k + |key|];
            && EndsInWord(alnum, head) && done + r == head + r[k + |key|..]
            && done + Rewrite(alnum, key, EndsInWord(alnum, done), r) == head
              + Rewrite(alnum, key, true, r[k + |key|..])
  {
    hide Rewrite, Field, Find, EndsInWord, Punctuated, KeyAt;
    KeyPresent(alnum, key);
    KeyFits(r, key, k);
    RewriteWord(alnum, key, EndsInWord(alnum, done), r, k);
    KeyEndsInWord(alnum, key, done, r, k);
    Joined(done, r[..k + |key|], r[k + |key|..]);
    Joined(done, r[..k + |key|], Rewrite(alnum, key, true, r[k + |key|..]));
    assert r == r[..k + |key|] + r[k + |key|..];
  }

  lemma Joined(a: string, b: string, c: string)
    ensures a + (b + c) == a + b + c
  {
  }

  lemma ColonSplit(r: string, key: string, done: string, k: nat)
    requires k + |key| <= |r| && ColonAt(r, key, k) < |r| && r[ColonAt(r, key, k)] == ':'
    ensures var head, tail := r[..k + |key|] + "?:", r[ColonAt(r, key, k) + 1..];
            && (ColonAt(r, key, k) == k + |key| + 1 ==> done + r == done + head + tail)
            && (ColonAt(r, key, k) == k + |key| ==>
                  (done + r)[..|done| + k + |key|] + "?" + (done + r)[|done| + k + |key|..] == done + head + tail)
  {
    var a, c := k + |key|, ColonAt(r, key, k);
    var tail := r[c + 1..];
    if c == a + 1 {
      assert r == r[..a] + "?:" + tail;
    } else {
      assert (done + r)[..|done| + a] == done + r[..a];
      assert (done + r)[|done| + a..] == ":" + tail;
    }
  }

  /** A field is copied with its mark; its stripped type and what follows are ahead. */
  lemma FieldMarked(alnum: char -> bool, key: string, done: string, r: string, k: nat)
    requires Punctuated(alnum, key) && Find(r, key, 0) == k && Field(alnum, key, EndsInWord(alnum, done), r, k)
    ensures ColonAt(r, key, k) < |r| && k + |key| <= |r|
    ensures var head, tail := r[..k + |key|] + "?:", r[ColonAt(r, key, k) + 1..];
            && !EndsInWord(alnum, done + head) && |head| == k + |key| + 2 && |tail| < |r|
            && (ColonAt(r, key, k) == k + |key| + 1 ==> done + r == done + head + tail)
            && (ColonAt(r, key, k) == k + |key| ==>
                  (done + r)[..|done| + k + |key|] + "?" + (done + r)[|done| + k + |key|..] == done + head + tail)
            && done + Rewrite(alnum, key, EndsInWord(alnum, done), r)
               == done + head + Rewrite(alnum, key, false, Stripped(tail))
  {
    KeyPresent(alnum, key);
    assert !WordChar(alnum, ':') && r[ColonAt(r, key, k)] == ':';
    hide NullCut, Rewrite, Find, Stripped, Punctuated, KeyAt, Field, FreeIn, ColonAt;
    RewriteField(alnum, key, EndsInWord(alnum, done), r, k);
    ColonSplit(r, key, done, k);
    var head := r[..k + |key|] + "?:";
    Joined(done, head, Rewrite(alnum, key, false, Stripped(r[ColonAt(r, key, k) + 1..])));
    assert (done + head)[|done + head| - 1] == ':';
  }
}
