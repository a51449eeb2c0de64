/** Text as sequences of Unicode scalar values, with the widths of its UTF-8
    encoding (RFC 3629 section 3) and its UTF-16 encoding (RFC 2781 section 2.1). */
module Text {

  function Utf8Width(c: char): (w: nat)
    ensures 1 <= w <= 4
  {
    if c as int < 0x80 then 1
    else if c as int < 0x800 then 2
    else if c as int < 0x1_0000 then 3
    else 4
  }

  function Utf16Width(c: char): (w: nat)
    ensures 1 <= w <= 2
  {
    if c as int < 0x1_0000 then 1 else 2
  }

  /** Number of bytes of the UTF-8 encoding. */
  function Utf8Len(s: string): nat {
    if s == "" then 0 else Utf8Len(s[..|s| - 1]) + Utf8Width(s[|s| - 1])
  }

  /** Number of code units of the UTF-16 encoding. */
  function Utf16Len(s: string): nat {
    if s == "" then 0 else Utf16Len(s[..|s| - 1]) + Utf16Width(s[|s| - 1])
  }

  /** Characters with the Unicode White_Space property. */
  predicate Whitespace(c: char) {
    var n := c as int;
    0x9 <= n <= 0xD || n == 0x20 || n == 0x85 || n == 0xA0 || n == 0x1680 || 0x2000 <= n <= 0x200A
    || n == 0x2028 || n == 0x2029 || n == 0x202F || n == 0x205F || n == 0x3000
  }

  function TrimStart(s: string): string {
    if s != "" && Whitespace(s[0]) then TrimStart(s[1..]) else s
  }

  function TrimEnd(s: string): string {
    if s != "" && Whitespace(s[|s| - 1]) then TrimEnd(s[..|s| - 1]) else s
  }

  function Trim(s: string): string {
    TrimEnd(TrimStart(s))
  }

  lemma Utf8LenTake(s: string, k: nat)
    requires k < |s|
    ensures Utf8Len(s[..k + 1]) == Utf8Len(s[..k]) + Utf8Width(s[k])
  {
    assert s[..k + 1][..k] == s[..k];
  }

  lemma Utf16LenTake(s: string, k: nat)
    requires k < |s|
    ensures Utf16Len(s[..k + 1]) == Utf16Len(s[..k]) + Utf16Width(s[k])
  {
    assert s[..k + 1][..k] == s[..k];
  }

  lemma {:induction false} Utf8LenAppend(s: string, t: string)
    ensures Utf8Len(s + t) == Utf8Len(s) + Utf8Len(t)
    decreases |t|
  {
    if t == "" {
      assert s + t == s;
    } else {
      var n := |t| - 1;
      Utf8LenAppend(s, t[..n]);
      assert (s + t)[..|s + t| - 1] == s + t[..n];
    }
  }

  lemma {:induction false} Utf16LenAppend(s: string, t: string)
    ensures Utf16Len(s + t) == Utf16Len(s) + Utf16Len(t)
    decreases |t|
  {
    if t == "" {
      assert s + t == s;
    } else {
      var n := |t| - 1;
      Utf16LenAppend(s, t[..n]);
      assert (s + t)[..|s + t| - 1] == s + t[..n];
    }
  }

  /** Longer prefixes have strictly more bytes and strictly more UTF-16 units. */
  lemma {:induction false} PrefixLengthsIncrease(s: string, i: nat, j: nat)
    requires i < j <= |s|
    ensures Utf8Len(s[..i]) < Utf8Len(s[..j])
    ensures Utf16Len(s[..i]) < Utf16Len(s[..j])
    decreases j
  {
    Utf8LenTake(s, j - 1);
    Utf16LenTake(s, j - 1);
    if i < j - 1 {
      PrefixLengthsIncrease(s, i, j - 1);
    }
  }

  lemma {:induction false} LengthBounds(s: string)
    ensures |s| <= Utf8Len(s) <= 4 * |s|
    ensures |s| <= Utf16Len(s) <= Utf8Len(s)
    decreases |s|
  {
    if s != "" {
      LengthBounds(s[..|s| - 1]);
    }
  }
}
