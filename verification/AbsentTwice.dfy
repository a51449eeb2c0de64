/** What a second pass finds: the marks of the first stay, after it every field carries its
    mark, and a text of marked fields without trailing nulls is left as it is. */
module AbsentTwice {
  import opened Wrappers
  import opened Text
  import opened Rewriter
  import opened AbsentFields
  import opened AbsentLaws
  import opened AbsentTheorem

  ghost predicate AllMarked(alnum: char -> bool, key: string, w: bool, r: string) {
    forall i: nat :: Field(alnum, key, w, r, i) ==> ColonAt(r, key, i) == i + |key| + 1
  }

  predicate HasNull(r: string, s: nat) {
    s <= |r| && NullCut(r, s).Some?
  }

  ghost predicate NoNulls(alnum: char -> bool, key: string, w: bool, r: string) {
    forall i: nat :: Field(alnum, key, w, r, i) ==> !HasNull(r, ColonAt(r, key, i) + 1)
  }

  // ----- Fields of the rewritten text -----

  /** No key starts before the first one, whatever follows it. */
  lemma FirstOfPrefix(key: string, r: string, x: string, k: nat, i: nat)
    requires Find(r, key, 0) == k && k + |key| <= |r| && i < k
    ensures !KeyAt(r[..k + |key|] + x, key, i)
  {
    var out := r[..k + |key|] + x;
    if KeyAt(out, key, i) {
      assert out[i..i + |key|] == r[i..i + |key|];
      assert KeyAt(r, key, i);
    }
  }

  lemma KeyInPrefix(key: string, r: string, x: string, k: nat)
    requires KeyAt(r, key, k)
    ensures k + |key| <= |r| && KeyAt(r[..k + |key|] + x, key, k)
  {
    assert (r[..k + |key|] + x)[k..k + |key|] == r[k..k + |key|];
  }

  /** The only field that can start in a copied prefix is the one its key names. */
  lemma OnlyFieldInPrefix(alnum: char -> bool, key: string, w: bool, r: string, x: string, k: nat, i: nat)
    requires KeyShaped(alnum, key) && Find(r, key, 0) == k && k + |key| <= |r| && i <= k + |key|
    requires Field(alnum, key, w, r[..k + |key|] + x, i)
    ensures i == k
  {
    var out := r[..k + |key|] + x;
    FindIsKey(r, key, k);
    KeyInPrefix(key, r, x, k);
    hide Find;
    if i < k {
      FirstOfPrefix(key, r, x, k, i);
    } else if i > k {
      NoFieldWithin(alnum, key, w, out, k, i);
    }
  }

  /** Rewriting keeps a first mark or colon, as no key starts with either. */
  lemma HeadUnchanged(alnum: char -> bool, key: string, t: string)
    requires KeyShaped(alnum, key)
    ensures var x := Rewrite(alnum, key, true, t);
            && (x != "" && x[0] == ':' ==> t != "" && t[0] == ':')
            && (|x| > 1 && x[0] == '?' && x[1] == ':' ==> |t| > 1 && t[0] == '?' && t[1] == ':')
  {
    hide Stripped, ColonAt;
    var k := Find(t, key, 0);
    if k != -1 {
      var x := Rewrite(alnum, key, true, t);
      FindIsKey(t, key, k);
      KeyFits(t, key, k);
      assert t[k] == key[0];
      assert x[..k + |key|] == t[..k + |key|];
      hide Field, Find, Rewrite;
      assert x[0] == t[0];
      if k > 0 { assert x[1] == t[1]; }
    }
  }

  predicate ColonFirst(t: string) {
    (t != "" && t[0] == ':') || (|t| > 1 && t[0] == '?' && t[1] == ':')
  }

  /** A key that ends a prefix names a field when a colon or a marked colon comes next. */
  lemma FieldAtSeam(alnum: char -> bool, key: string, w: bool, p: string, t: string, k: nat)
    requires |p| == k + |key|
    ensures Field(alnum, key, w, p + t, k) <==> KeyAt(p, key, k) && FreeIn(alnum, w, p, k) && ColonFirst(t)
  {
    assert (p + t)[k..k + |key|] == p[k..k + |key|];
  }

  /** A word stays a word: rewriting what follows does not make it a field. */
  lemma WordStaysWord(alnum: char -> bool, key: string, w: bool, r: string, k: nat)
    requires KeyShaped(alnum, key) && Find(r, key, 0) == k && k + |key| <= |r| && !Field(alnum, key, w, r, k)
    ensures !Field(alnum, key, w, r[..k + |key|] + Rewrite(alnum, key, true, r[k + |key|..]), k)
  {
    var m := k + |key|;
    hide Find, Rewrite, KeyAt, Field, FreeIn;
    HeadUnchanged(alnum, key, r[m..]);
    FieldAtSeam(alnum, key, w, r[..m], r[m..], k);
    FieldAtSeam(alnum, key, w, r[..m], Rewrite(alnum, key, true, r[m..]), k);
    assert r[..m] + r[m..] == r;
  }

  lemma NoFieldInCopy(alnum: char -> bool, key: string, w: bool, r: string, k: nat, i: nat)
    requires KeyShaped(alnum, key) && Find(r, key, 0) == k && k + |key| <= |r| && !Field(alnum, key, w, r, k)
    requires i < k + |key|
    ensures !Field(alnum, key, w, r[..k + |key|] + Rewrite(alnum, key, true, r[k + |key|..]), i)
  {
    var x := Rewrite(alnum, key, true, r[k + |key|..]);
    hide Field, Find, Rewrite;
    WordStaysWord(alnum, key, w, r, k);
    if Field(alnum, key, w, r[..k + |key|] + x, i) { OnlyFieldInPrefix(alnum, key, w, r, x, k, i); }
  }

  lemma NullAhead(p: string, t: string, s: nat)
    ensures HasNull(p + t, |p| + s) <==> HasNull(t, s)
  {
    hide NullCut;
    if s <= |t| { NullCutAhead(p, t, s); }
  }

  /** Past a prefix without an unexpected field, fields are those of the rest. */
  lemma FieldFromRest(alnum: char -> bool, key: string, w: bool, p: string, t: string, i: nat)
    requires KeyShaped(alnum, key) && p != "" && i >= |p| && Field(alnum, key, w, p + t, i)
    ensures Field(alnum, key, EndsInWord(alnum, p), t, i - |p|)
    ensures ColonAt(p + t, key, i) == |p| + ColonAt(t, key, i - |p|) < |p + t|
    ensures HasNull(p + t, TypeStart(p + t, key, i)) <==> HasNull(t, TypeStart(t, key, i - |p|))
  {
    hide Field, ColonAt, HasNull, KeyShaped, EndsInWord, FieldEnd;
    FieldOfRest(alnum, key, w, p, t, i - |p|);
    NullAhead(p, t, TypeStart(t, key, i - |p|));
  }

  // ----- Every field comes out marked -----

  /** The prefix a rewritten field leaves behind. */
  lemma FieldCopied(alnum: char -> bool, key: string, w: bool, r: string, x: string, k: nat)
    requires KeyShaped(alnum, key) && Find(r, key, 0) == k && Field(alnum, key, w, r, k) && k + |key| <= |r|
    ensures var p := r[..k + |key|] + "?:";
            && Field(alnum, key, w, p + x, k) && ColonAt(p + x, key, k) == k + |key| + 1
            && !EndsInWord(alnum, p) && |p| == k + |key| + 2
  {
    var m := k + |key|;
    assert r[..m] + r[m..] == r && r[..m] + "?:" + x == r[..m] + ("?:" + x);
    FieldAtSeam(alnum, key, w, r[..m], r[m..], k);
    FieldAtSeam(alnum, key, w, r[..m], "?:" + x, k);
    hide Find, Field, KeyAt, FreeIn;
  }

  lemma NoFieldAtColon(alnum: char -> bool, key: string, w: bool, g: string, x: string)
    requires KeyShaped(alnum, key)
    ensures !Field(alnum, key, w, g + ("?:" + x), |g| + 1)
  {
    assert (g + ("?:" + x))[|g| + 1] == ':';
    ColonIsNoField(alnum, key, w, g + ("?:" + x), |g| + 1);
  }

  lemma OnlyFieldCopied(alnum: char -> bool, key: string, w: bool, r: string, x: string, k: nat, i: nat)
    requires KeyShaped(alnum, key) && Find(r, key, 0) == k && k + |key| <= |r|
    requires i < k + |key| + 2 && Field(alnum, key, w, r[..k + |key|] + "?:" + x, i)
    ensures i == k
  {
    hide Find, Field, KeyShaped;
    var g := r[..k + |key|];
    assert g + "?:" + x == g + ("?:" + x);
    NoFieldAtColon(alnum, key, w, g, x);
    if i <= k + |key| { OnlyFieldInPrefix(alnum, key, w, r, "?:" + x, k, i); }
  }

  lemma MarkedPast(alnum: char -> bool, key: string, w: bool, p: string, t: string)
    requires KeyShaped(alnum, key) && p != "" && AllMarked(alnum, key, EndsInWord(alnum, p), t)
    requires forall i: nat :: i < |p| && Field(alnum, key, w, p + t, i) ==> ColonAt(p + t, key, i) == i + |key| + 1
    ensures AllMarked(alnum, key, w, p + t)
  {
    hide Field, ColonAt, HasNull;
    forall i: nat | Field(alnum, key, w, p + t, i)
      ensures ColonAt(p + t, key, i) == i + |key| + 1
    {
      if i >= |p| { FieldFromRest(alnum, key, w, p, t, i); }
    }
  }

  lemma NullsPast(alnum: char -> bool, key: string, w: bool, p: string, t: string)
    requires KeyShaped(alnum, key) && p != "" && NoNulls(alnum, key, EndsInWord(alnum, p), t)
    requires forall i: nat :: i < |p| && Field(alnum, key, w, p + t, i) ==> !HasNull(p + t, ColonAt(p + t, key, i) + 1)
    ensures NoNulls(alnum, key, w, p + t)
  {
    hide Field, ColonAt, HasNull;
    forall i: nat | Field(alnum, key, w, p + t, i)
      ensures !HasNull(p + t, ColonAt(p + t, key, i) + 1)
    {
      if i >= |p| { FieldFromRest(alnum, key, w, p, t, i); }
    }
  }

  /** After rewriting, every field carries its mark. */
  lemma {:induction false} EveryFieldOptional(alnum: char -> bool, key: string, w: bool, r: string)
    requires Punctuated(alnum, key)
    ensures AllMarked(alnum, key, w, Rewrite(alnum, key, w, r))
    decreases |r|
  {
    hide Field, ColonAt, Rewrite, Find, Stripped, Punctuated, KeyAt, EndsInWord;
    KeyShape(alnum, key);
    var k := Find(r, key, 0);
    if k == -1 {
      NothingLeft(alnum, key, w, r);
      NoKeyNoField(alnum, key, w, r);
      return;
    }
    CopyEndsInWord(alnum, key, r, k);
    var m := k + |key|;
    if Field(alnum, key, w, r, k) {
      FieldBounds(alnum, key, w, r, k);
      var u := Stripped(r[ColonAt(r, key, k) + 1..]);
      var p, x := r[..m] + "?:", Rewrite(alnum, key, false, u);
      RewriteField(alnum, key, w, r, k);
      StrippedShorter(r[ColonAt(r, key, k) + 1..]);
      EveryFieldOptional(alnum, key, false, u);
      FieldCopied(alnum, key, w, r, x, k);
      forall i: nat | i < |p| && Field(alnum, key, w, p + x, i) ensures i == k {
        OnlyFieldCopied(alnum, key, w, r, x, k, i);
      }
      MarkedPast(alnum, key, w, p, x);
    } else {
      var p, x := r[..m], Rewrite(alnum, key, true, r[m..]);
      RewriteWord(alnum, key, w, r, k);
      EveryFieldOptional(alnum, key, true, r[m..]);
      forall i: nat | i < |p| ensures !Field(alnum, key, w, p + x, i) {
        NoFieldInCopy(alnum, key, w, r, k, i);
      }
      MarkedPast(alnum, key, w, p, x);
    }
  }

  lemma NoKeyNoField(alnum: char -> bool, key: string, w: bool, r: string)
    requires Find(r, key, 0) == -1
    ensures forall i: nat :: !Field(alnum, key, w, r, i)
  {
  }

  // ----- A pass over a finished text -----

  /** With every field marked and no null left there is nothing to rewrite. */
  lemma NothingToRewrite(alnum: char -> bool, key: string, w: bool, r: string)
    requires Punctuated(alnum, key) && AllMarked(alnum, key, w, r) && NoNulls(alnum, key, w, r)
    ensures Rewrite(alnum, key, w, r) == r
  {
    RewritingIsPositional(alnum, key, w, r);
    forall j | 0 <= j < |r| ensures !Gains(alnum, key, w, r, j) && !Dropped(alnum, key, w, r, j) {
      Untouched(alnum, key, w, r, j);
    }
    hide Gains, Dropped;
    EditedCopies(alnum, key, w, r, 0, |r|);
    assert r[0..|r|] == r;
  }

  lemma NoFirstNoNth(r: string, s: nat, n: nat)
    requires s <= |r| && NullCut(r, s).None?
    ensures NthCut(r, s, n).None?
  {
    hide TypeEnd, TrimEnd;
  }

  lemma Untouched(alnum: char -> bool, key: string, w: bool, r: string, j: nat)
    requires AllMarked(alnum, key, w, r) && NoNulls(alnum, key, w, r)
    ensures !Gains(alnum, key, w, r, j) && !Dropped(alnum, key, w, r, j)
  {
    if Gains(alnum, key, w, r, j) {
      GainHasField(alnum, key, w, r, j);
      GainColon(alnum, key, w, r, j);
    }
    hide NullCut, Field, ColonAt, Count, NthCut;
    forall i: nat ensures !DropsAt(alnum, key, w, r, i, j) {
      if Field(alnum, key, w, r, i) {
        FieldBounds(alnum, key, w, r, i);
        NoFirstNoNth(r, TypeStart(r, key, i), Count(alnum, key, w, r, FieldEnd(r, key, i), i));
      }
    }
  }
}
