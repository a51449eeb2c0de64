/** Case-folded search of saved passages, answered in editor offsets of the original
    text. Folding may expand a character, so offsets are carried from the original. */
module Search {
  import opened Wrappers
  import opened Text

  /** Each character replaced by its lowercase mapping, which may be longer. */
  function Folded(fold: char -> string, text: string): string {
    if text == "" then "" else Folded(fold, text[..|text| - 1]) + fold(text[|text| - 1])
  }

  // ----- Substring matches -----

  predicate OccursAt(hay: string, needle: string, p: int) {
    0 <= p <= |hay| - |needle| && hay[p..p + |needle|] == needle
  }

  /** Leftmost non-overlapping occurrences, scanning from p. */
  function MatchesFrom(hay: string, needle: string, p: nat): seq<nat>
    requires needle != ""
    decreases |hay| - p
  {
    if p + |needle| > |hay| then []
    else if OccursAt(hay, needle, p) then [p] + MatchesFrom(hay, needle, p + |needle|)
    else MatchesFrom(hay, needle, p + 1)
  }

  /** The matches from p on are occurrences, apart, in order, and leave none untouched. */
  ghost predicate Scanned(hay: string, needle: string, p: nat, found: seq<nat>) {
    && (forall k :: 0 <= k < |found| ==> p <= found[k] && OccursAt(hay, needle, found[k]))
    && (forall k :: 0 < k < |found| ==> found[k - 1] + |needle| <= found[k])
    && (forall q :: p <= q && OccursAt(hay, needle, q) ==> Touched(found, |needle|, q))
  }

  ghost predicate Touched(found: seq<nat>, n: nat, q: int) {
    exists k :: 0 <= k < |found| && found[k] <= q < found[k] + n
  }

  lemma TouchedCons(p: nat, rest: seq<nat>, n: nat, q: int)
    requires p <= q < p + n || Touched(rest, n, q)
    ensures Touched([p] + rest, n, q)
  {
    var found := [p] + rest;
    if p <= q < p + n {
      assert found[0] == p;
    } else {
      var k :| 0 <= k < |rest| && rest[k] <= q < rest[k] + n;
      assert found[k + 1] == rest[k];
    }
  }

  lemma ScannedCons(hay: string, needle: string, p: nat, rest: seq<nat>)
    requires needle != "" && OccursAt(hay, needle, p) && Scanned(hay, needle, p + |needle|, rest)
    ensures Scanned(hay, needle, p, [p] + rest)
  {
    hide OccursAt, Touched;
    var found := [p] + rest;
    forall k | 0 <= k < |found|
      ensures p <= found[k] && OccursAt(hay, needle, found[k])
      ensures k > 0 ==> found[k - 1] + |needle| <= found[k]
    {
      if k > 0 {
        assert found[k] == rest[k - 1];
        assert k > 1 ==> found[k - 1] == rest[k - 2];
      }
    }
    forall q | p <= q && OccursAt(hay, needle, q)
      ensures Touched(found, |needle|, q)
    {
      TouchedCons(p, rest, |needle|, q);
    }
  }

  lemma ScannedSkip(hay: string, needle: string, p: nat, found: seq<nat>)
    requires !OccursAt(hay, needle, p) && Scanned(hay, needle, p + 1, found)
    ensures Scanned(hay, needle, p, found)
  {
    hide OccursAt, Touched;
  }

  lemma {:induction false} MatchesAreLeftmost(hay: string, needle: string, p: nat)
    requires needle != ""
    ensures Scanned(hay, needle, p, MatchesFrom(hay, needle, p))
    decreases |hay| - p
  {
    if p + |needle| <= |hay| {
      if OccursAt(hay, needle, p) {
        MatchesAreLeftmost(hay, needle, p + |needle|);
        ScannedCons(hay, needle, p, MatchesFrom(hay, needle, p + |needle|));
      } else {
        MatchesAreLeftmost(hay, needle, p + 1);
        ScannedSkip(hay, needle, p, MatchesFrom(hay, needle, p + 1));
      }
    }
  }

  // ----- Offset maps -----

  function Repeat(value: nat, n: nat): (r: seq<nat>)
    ensures |r| == n
    ensures forall i :: 0 <= i < n ==> r[i] == value
  {
    seq(n, _ => value)
  }

  /** For each byte of the folded text, where its original character starts and ends. */
  function Starts(fold: char -> string, text: string): seq<nat> {
    if text == "" then []
    else
      var init, last := text[..|text| - 1], text[|text| - 1];
      Starts(fold, init) + Repeat(Utf16Len(init), Utf8Len(fold(last)))
  }

  function Ends(fold: char -> string, text: string): seq<nat> {
    if text == "" then []
    else
      var init, last := text[..|text| - 1], text[|text| - 1];
      Ends(fold, init) + Repeat(Utf16Len(text), Utf8Len(fold(last)))
  }

  /** Byte b of the folded text comes from character i. */
  predicate Owns(fold: char -> string, text: string, i: nat, b: nat) {
    && i < |text|
    && Utf8Len(Folded(fold, text[..i])) <= b < Utf8Len(Folded(fold, text[..i + 1]))
  }

  lemma {:induction false} OffsetMapLengths(fold: char -> string, text: string)
    ensures |Starts(fold, text)| == |Ends(fold, text)| == Utf8Len(Folded(fold, text))
  {
    if text != "" {
      OffsetMapLengths(fold, text[..|text| - 1]);
      Utf8LenAppend(Folded(fold, text[..|text| - 1]), fold(text[|text| - 1]));
    }
  }

  /** The maps hold exactly the offsets of the owning character, and one owns each byte. */
  lemma {:induction false} OffsetMapsAreExact(fold: char -> string, text: string, b: nat) returns (i: nat)
    requires b < Utf8Len(Folded(fold, text))
    ensures Owns(fold, text, i, b)
    ensures b < |Starts(fold, text)| && b < |Ends(fold, text)|
    ensures Starts(fold, text)[b] == Utf16Len(text[..i]) && Ends(fold, text)[b] == Utf16Len(text[..i + 1])
  {
    OffsetMapLengths(fold, text);
    var n := |text| - 1;
    var init := text[..n];
    OffsetMapLengths(fold, init);
    Utf8LenAppend(Folded(fold, init), fold(text[n]));
    assert text[..n + 1] == text;
    if b < Utf8Len(Folded(fold, init)) {
      i := OffsetMapsAreExact(fold, init, b);
      assert init[..i] == text[..i] && init[..i + 1] == text[..i + 1];
    } else {
      i := n;
    }
  }

  lemma {:induction false} FoldedPrefix(fold: char -> string, text: string, i: nat)
    requires i <= |text|
    ensures Folded(fold, text[..i]) <= Folded(fold, text)
    decreases |text| - i
  {
    if i == |text| {
      assert text[..i] == text;
    } else {
      FoldedPrefix(fold, text, i + 1);
      assert text[..i + 1][..i] == text[..i];
    }
  }

  lemma FoldedOrder(fold: char -> string, text: string, i: nat, j: nat)
    requires i <= j <= |text|
    ensures |Folded(fold, text[..i])| <= |Folded(fold, text[..j])|
  {
    FoldedPrefix(fold, text[..j], i);
    assert text[..j][..i] == text[..i];
  }

  /** Byte lengths of prefixes order the prefixes themselves. */
  lemma PrefixBytesOrder(s: string, i: nat, j: nat)
    requires i <= |s| && j <= |s|
    ensures Utf8Len(s[..i]) < Utf8Len(s[..j]) <==> i < j
  {
    if i < j { PrefixLengthsIncrease(s, i, j); }
    if j < i { PrefixLengthsIncrease(s, j, i); }
  }

  // ----- Spans -----

  datatype Span = Span(start: nat, end: nat)

  lemma MatchBytes(hay: string, needle: string, p: nat)
    requires needle != "" && OccursAt(hay, needle, p)
    ensures Utf8Len(hay[..p + |needle|]) == Utf8Len(hay[..p]) + Utf8Len(needle) <= Utf8Len(hay)
    ensures Utf8Len(needle) >= 1
  {
    assert hay[..p + |needle|] == hay[..p] + needle;
    Utf8LenAppend(hay[..p], needle);
    assert hay[..|hay|] == hay;
    PrefixBytesOrder(hay, |hay|, p + |needle|);
  }

  /** The original span recorded for a match at folded position p. */
  function SpanAt(fold: char -> string, text: string, query: string, p: nat): Span
    requires query != "" && OccursAt(Folded(fold, text), query, p)
  {
    var hay := Folded(fold, text);
    MatchBytes(hay, query, p);
    OffsetMapLengths(fold, text);
    var at := Utf8Len(hay[..p]);
    Span(Starts(fold, text)[at], Ends(fold, text)[at + Utf8Len(query) - 1])
  }

  /** Characters a..b of the original fold to a stretch containing the match. */
  predicate Covers(fold: char -> string, text: string, a: nat, b: nat, p: nat, n: nat) {
    a <= b <= |text| && |Folded(fold, text[..a])| <= p && p + n <= |Folded(fold, text[..b])|
  }

  ghost predicate SmallestCover(fold: char -> string, text: string, p: nat, n: nat, a: nat, b: nat) {
    && Covers(fold, text, a, b, p, n)
    && forall c: nat, d: nat :: Covers(fold, text, c, d, p, n) ==> c <= a && b <= d
  }

  lemma OwnerBounds(fold: char -> string, text: string, i: nat, p: nat, n: nat, b: nat)
    requires Owns(fold, text, i, b) && p + n <= |Folded(fold, text)| && n >= 1
    requires var hay := Folded(fold, text); Utf8Len(hay[..p]) <= b < Utf8Len(hay[..p + n])
    ensures |Folded(fold, text[..i])| < p + n && p < |Folded(fold, text[..i + 1])|
    ensures b == Utf8Len(Folded(fold, text)[..p]) ==> |Folded(fold, text[..i])| <= p
    ensures b + 1 == Utf8Len(Folded(fold, text)[..p + n]) ==> p + n <= |Folded(fold, text[..i + 1])|
  {
    hide Folded, Utf8Len;
    var hay, before, through := Folded(fold, text), Folded(fold, text[..i]), Folded(fold, text[..i + 1]);
    FoldedPrefix(fold, text, i);
    FoldedPrefix(fold, text, i + 1);
    assert before == hay[..|before|] && through == hay[..|through|];
    PrefixBytesOrder(hay, |before|, p + n);
    PrefixBytesOrder(hay, p, |through|);
    PrefixBytesOrder(hay, p, |before|);
    PrefixBytesOrder(hay, |through|, p + n);
  }

  /** The span of every match is the smallest span of whole original characters whose
      folding contains it, even when folding expands characters, and is never empty. */
  lemma SpanIsSmallestCover(fold: char -> string, text: string, query: string, p: nat) returns (a: nat, b: nat)
    requires query != "" && OccursAt(Folded(fold, text), query, p)
    ensures SmallestCover(fold, text, p, |query|, a, b) && a < b <= |text|
    ensures SpanAt(fold, text, query, p) == Span(Utf16Len(text[..a]), Utf16Len(text[..b]))
    ensures SpanAt(fold, text, query, p).start < SpanAt(fold, text, query, p).end
  {
    hide Folded, Utf8Len, Utf16Len, Starts, Ends;
    var hay, n := Folded(fold, text), |query|;
    MatchBytes(hay, query, p);
    OffsetMapLengths(fold, text);
    var at := Utf8Len(hay[..p]);
    a := OffsetMapsAreExact(fold, text, at);
    var j := OffsetMapsAreExact(fold, text, at + Utf8Len(query) - 1);
    b := j + 1;
    OwnerBounds(fold, text, a, p, n, at);
    OwnerBounds(fold, text, j, p, n, at + Utf8Len(query) - 1);
    if b <= a { FoldedOrder(fold, text, b, a); }
    forall c: nat, d: nat | Covers(fold, text, c, d, p, n)
      ensures c <= a && b <= d
    {
      if c > a { FoldedOrder(fold, text, a + 1, c); }
      if d <= j { FoldedOrder(fold, text, d, j); }
    }
    PrefixLengthsIncrease(text, a, b);
  }

  lemma {:induction false} Utf16LenOrder(text: string, a: nat, b: nat)
    requires a <= b <= |text|
    ensures Utf16Len(text[..a]) <= Utf16Len(text[..b])
  {
    if a < b { PrefixLengthsIncrease(text, a, b); }
  }

  /** Later matches never start or end earlier in the original. */
  lemma SpansInOrder(fold: char -> string, text: string, query: string, p: nat, q: nat)
    requires query != "" && p <= q
    requires OccursAt(Folded(fold, text), query, p) && OccursAt(Folded(fold, text), query, q)
    ensures SpanAt(fold, text, query, p).start <= SpanAt(fold, text, query, q).start
    ensures SpanAt(fold, text, query, p).end <= SpanAt(fold, text, query, q).end
  {
    hide SpanAt, Utf16Len, OccursAt;
    var a, b := SpanIsSmallestCover(fold, text, query, p);
    var c, d := SpanIsSmallestCover(fold, text, query, q);
    CoversMeet(fold, text, p, q, |query|, a, b, c, d);
    Utf16LenOrder(text, a, c);
    Utf16LenOrder(text, b, d);
  }

  lemma CoversMeet(fold: char -> string, text: string, p: nat, q: nat, n: nat, a: nat, b: nat, c: nat, d: nat)
    requires p <= q && n >= 1 && SmallestCover(fold, text, p, n, a, b) && SmallestCover(fold, text, q, n, c, d)
    ensures a <= c && b <= d
  {
    hide Folded;
    if d < a {
      FoldedOrder(fold, text, d, a);
      assert false;
    }
    assert Covers(fold, text, a, d, p, n) && Covers(fold, text, a, d, q, n);
  }

  function SpansOf(fold: char -> string, text: string, query: string, found: seq<nat>): (spans: seq<Span>)
    requires query != "" && forall k :: 0 <= k < |found| ==> OccursAt(Folded(fold, text), query, found[k])
    ensures |spans| == |found|
  {
    if found == [] then []
    else SpansOf(fold, text, query, found[..|found| - 1]) + [SpanAt(fold, text, query, found[|found| - 1])]
  }

  function FoundIn(fold: char -> string, text: string, query: string): (found: seq<nat>)
    requires query != ""
    ensures Scanned(Folded(fold, text), query, 0, found)
  {
    MatchesAreLeftmost(Folded(fold, text), query, 0);
    MatchesFrom(Folded(fold, text), query, 0)
  }

  /** Every match of a case-folded query, as spans of the original text. */
  function LiteralSpans(fold: char -> string, text: string, query: string): seq<Span>
    requires query != ""
  {
    SpansOf(fold, text, query, FoundIn(fold, text, query))
  }

  lemma {:induction false} SpansOfAt(fold: char -> string, text: string, query: string, found: seq<nat>, k: nat)
    requires query != "" && forall j :: 0 <= j < |found| ==> OccursAt(Folded(fold, text), query, found[j])
    requires k < |found|
    ensures SpansOf(fold, text, query, found)[k] == SpanAt(fold, text, query, found[k])
    decreases |found|
  {
    if k < |found| - 1 {
      SpansOfAt(fold, text, query, found[..|found| - 1], k);
    }
  }

  /** Literal search is complete and exact: one span for each leftmost non-overlapping
      match in the folded text, the smallest original span covering it, none empty, and
      neither end ever moving back; and every occurrence touches a reported match. */
  lemma LiteralSpansAreExact(fold: char -> string, text: string, query: string)
    requires query != ""
    ensures var spans, found := LiteralSpans(fold, text, query), FoundIn(fold, text, query);
            && |spans| == |found|
            && (forall k :: 0 <= k < |spans| ==>
                spans[k].start < spans[k].end && SpanCovers(fold, text, |query|, found[k], spans[k]))
            && (forall j, k :: 0 <= j < k < |spans| ==>
                spans[j].start <= spans[k].start && spans[j].end <= spans[k].end)
  {
    hide SpanAt, SpansOf, OccursAt, SmallestCover;
    var hay, found, spans := Folded(fold, text), FoundIn(fold, text, query), LiteralSpans(fold, text, query);
    forall k | 0 <= k < |spans|
      ensures spans[k] == SpanAt(fold, text, query, found[k])
      ensures spans[k].start < spans[k].end && SpanCovers(fold, text, |query|, found[k], spans[k])
    {
      SpansOfAt(fold, text, query, found, k);
      var a, b := SpanIsSmallestCover(fold, text, query, found[k]);
      assert SmallestCover(fold, text, found[k], |query|, a, b)
        && spans[k] == Span(Utf16Len(text[..a]), Utf16Len(text[..b]));
    }
    forall j, k | 0 <= j < k < |spans|
      ensures spans[j].start <= spans[k].start && spans[j].end <= spans[k].end
    {
      FoundInOrder(hay, query, found, j, k);
      SpansInOrder(fold, text, query, found[j], found[k]);
    }
  }

  ghost predicate SpanCovers(fold: char -> string, text: string, n: nat, p: nat, span: Span) {
    exists a: nat, b: nat :: a <= |text| && b <= |text| && SmallestCover(fold, text, p, n, a, b)
      && span == Span(Utf16Len(text[..a]), Utf16Len(text[..b]))
  }

  lemma {:induction false} FoundInOrder(hay: string, query: string, found: seq<nat>, j: nat, k: nat)
    requires Scanned(hay, query, 0, found) && j < k < |found|
    ensures found[j] <= found[k]
    decreases k
  {
    if j < k - 1 {
      FoundInOrder(hay, query, found, j, k - 1);
    }
  }

  /** Build the folded text and its two offset maps in one pass. */
  method BuildMaps(fold: char -> string, text: string) returns (normalized: string, starts: seq<nat>, ends: seq<nat>)
    ensures normalized == Folded(fold, text) && starts == Starts(fold, text) && ends == Ends(fold, text)
  {
    normalized, starts, ends := "", [], [];
    var offset := 0;
    for i := 0 to |text|
      invariant normalized == Folded(fold, text[..i]) && offset == Utf16Len(text[..i])
      invariant starts == Starts(fold, text[..i]) && ends == Ends(fold, text[..i])
    {
      MapsSnoc(fold, text, i);
      var next := offset + Utf16Width(text[i]);
      var lowered := fold(text[i]);
      starts := starts + Repeat(offset, Utf8Len(lowered));
      ends := ends + Repeat(next, Utf8Len(lowered));
      normalized := normalized + lowered;
      offset := next;
    }
    assert text[..|text|] == text;
  }

  lemma MapsSnoc(fold: char -> string, text: string, i: nat)
    requires i < |text|
    ensures Folded(fold, text[..i + 1]) == Folded(fold, text[..i]) + fold(text[i])
    ensures Utf16Len(text[..i + 1]) == Utf16Len(text[..i]) + Utf16Width(text[i])
    ensures Starts(fold, text[..i + 1]) == Starts(fold, text[..i]) + Repeat(Utf16Len(text[..i]), Utf8Len(fold(text[i])))
    ensures Ends(fold, text[..i + 1]) == Ends(fold, text[..i]) + Repeat(Utf16Len(text[..i + 1]), Utf8Len(fold(text[i])))
  {
    assert text[..i + 1][..i] == text[..i];
  }

  lemma MappedMatch(fold: char -> string, text: string, query: string, p: nat)
    requires query != "" && OccursAt(Folded(fold, text), query, p)
    ensures p <= |Folded(fold, text)|
    ensures var at, n := Utf8Len(Folded(fold, text)[..p]), Utf8Len(query);
            && n >= 1 && at < |Starts(fold, text)| && at + n - 1 < |Ends(fold, text)|
            && SpanAt(fold, text, query, p) == Span(Starts(fold, text)[at], Ends(fold, text)[at + n - 1])
  {
    hide Starts, Ends, Folded, Utf8Len;
    MatchBytes(Folded(fold, text), query, p);
    OffsetMapLengths(fold, text);
  }

  /** Map each match of the query through the byte offsets of the folded text. */
  method ComputeLiteralSpans(fold: char -> string, text: string, query: string) returns (spans: seq<Span>)
    requires query != ""
    ensures spans == LiteralSpans(fold, text, query)
  {
    hide Starts, Ends, Folded, Utf8Len, OccursAt, SpanAt, Touched;
    var normalized, starts, ends := BuildMaps(fold, text);
    var found := FoundIn(fold, text, query);
    spans := [];
    for k := 0 to |found|
      invariant spans == SpansOf(fold, text, query, found[..k])
    {
      assert found[..k + 1][..k] == found[..k];
      MappedMatch(fold, text, query, found[k]);
      var at := Utf8Len(normalized[..found[k]]);
      spans := spans + [Span(starts[at], ends[at + Utf8Len(query) - 1])];
    }
    assert found[..|found|] == found;
  }

  // ----- Bounded search -----

  datatype SearchError = InvalidSearch | PassagesUnavailable(detail: string)

  datatype Mode = Literal | Lexical | ExactAlias

  datatype Source = Source(handle: string, displayName: string)

  datatype Passage = Passage(handle: string, blockId: string, text: string)

  datatype Hit = Hit(passage: Passage, span: Span)

  datatype Found = Found(hits: seq<Hit>, sourceMatches: seq<Source>, hasMore: bool)

  datatype Story = Story(sources: seq<Source>, aliases: map<string, seq<string>>)

  /** Lowercasing one character and, not assumed to agree with it, a whole string. */
  datatype Casing = Casing(fold: char -> string, lower: string -> string)

  /** The maximal runs of characters that are not white space. */
  function Words(s: string): seq<string> {
    if s == "" then []
    else
      var init, last := Words(s[..|s| - 1]), s[|s| - 1];
      if Whitespace(last) then init
      else if |s| > 1 && !Whitespace(s[|s| - 2]) && init != [] then init[..|init| - 1] + [init[|init| - 1] + [last]]
      else init + [[last]]
  }

  lemma {:induction false} WordsAreNonempty(s: string)
    ensures forall i :: 0 <= i < |Words(s)| ==> Words(s)[i] != ""
  {
    if s != "" {
      WordsAreNonempty(s[..|s| - 1]);
    }
  }

  predicate Contains(hay: string, needle: string) {
    exists p :: 0 <= p <= |hay| && OccursAt(hay, needle, p)
  }

  /** Lowercasing a query that shows something leaves something to show. */
  predicate Searchable(casing: Casing, query: string) {
    Words(casing.lower(query)) != []
  }

  function PassageSpans(casing: Casing, mode: Mode, text: string, normalized: string): seq<Span>
    requires Words(normalized) != [] && normalized != ""
  {
    if mode == Lexical then
      var terms := Words(normalized);
      WordsAreNonempty(normalized);
      if forall i :: 0 <= i < |terms| ==> Contains(casing.lower(text), terms[i]) then
        LiteralSpans(casing.fold, text, terms[0])
      else []
    else LiteralSpans(casing.fold, text, normalized)
  }

  function HitsOf(passage: Passage, spans: seq<Span>): (hits: seq<Hit>)
    ensures |hits| == |spans|
    ensures forall i :: 0 <= i < |spans| ==> hits[i] == Hit(passage, spans[i])
  {
    seq(|spans|, i requires 0 <= i < |spans| => Hit(passage, spans[i]))
  }

  function PassageHits(casing: Casing, mode: Mode, normalized: string, passages: seq<Passage>): seq<Hit>
    requires Words(normalized) != [] && normalized != ""
  {
    if passages == [] then []
    else
      var last := passages[|passages| - 1];
      PassageHits(casing, mode, normalized, passages[..|passages| - 1])
        + HitsOf(last, PassageSpans(casing, mode, last.text, normalized))
  }

  /** Every hit of every passage of the sources, in source order; one unreadable source
      spoils the whole search. */
  function AllHits(casing: Casing, mode: Mode, normalized: string, sources: seq<Source>,
                   passages: string -> Result<seq<Passage>, SearchError>): Result<seq<Hit>, SearchError>
    requires Words(normalized) != [] && normalized != ""
  {
    if sources == [] then Ok([])
    else
      var earlier := AllHits(casing, mode, normalized, sources[..|sources| - 1], passages);
      if earlier.Err? then earlier
      else match passages(sources[|sources| - 1].handle)
        case Err(e) => Err(e)
        case Ok(found) => Ok(earlier.value + PassageHits(casing, mode, normalized, found))
  }

  predicate IsAlias(casing: Casing, story: Story, source: Source, normalized: string) {
    casing.lower(source.displayName) == normalized
    || (source.handle in story.aliases
        && exists i :: 0 <= i < |story.aliases[source.handle]|
             && casing.lower(story.aliases[source.handle][i]) == normalized)
  }

  function AliasMatches(casing: Casing, story: Story, sources: seq<Source>, normalized: string): seq<Source> {
    if sources == [] then []
    else
      var last := sources[|sources| - 1];
      AliasMatches(casing, story, sources[..|sources| - 1], normalized)
        + (if IsAlias(casing, story, last, normalized) then [last] else [])
  }

  function First<T>(all: seq<T>, limit: nat): seq<T> {
    if |all| <= limit then all else all[..limit]
  }

  /** The first hits, and whether any were dropped. */
  function Cut(all: Result<seq<Hit>, SearchError>, limit: nat): Result<Found, SearchError> {
    match all
    case Err(e) => Err(e)
    case Ok(hits) => Ok(Found(First(hits, limit), [], |hits| > limit))
  }

  /** Bounded search against the whole answer: the hits are exactly the first of the
      flattened matches, and more is claimed exactly when something was dropped. */
  method SearchSavedPassages(casing: Casing, story: Story, query: string, mode: Mode, limit: nat,
                             passages: string -> Result<seq<Passage>, SearchError>)
    returns (answer: Result<Found, SearchError>)
    requires Trim(query) != "" ==> Searchable(casing, query)
    ensures Trim(query) == "" || !(1 <= limit <= 100) ==> answer == Err(InvalidSearch)
    ensures Trim(query) != "" && 1 <= limit <= 100 && mode == ExactAlias ==>
      var all := AliasMatches(casing, story, story.sources, casing.lower(query));
      answer == Ok(Found([], First(all, limit), |all| > limit))
    ensures Trim(query) != "" && 1 <= limit <= 100 && mode != ExactAlias ==>
      answer == Cut(AllHits(casing, mode, casing.lower(query), story.sources, passages), limit)
  {
    hide Words, Trim, PassageSpans, IsAlias, AllHits, AliasMatches;
    if Trim(query) == "" || !(1 <= limit <= 100) { return Err(InvalidSearch); }
    var normalized := casing.lower(query);
    assert normalized != "" by { NonemptyQuery(normalized); }
    if mode == ExactAlias {
      var matches, more := SearchAliases(casing, story, normalized, limit);
      return Ok(Found([], matches, more));
    }
    answer := SearchHits(casing, story, normalized, mode, limit, passages);
  }

  method SearchHits(casing: Casing, story: Story, normalized: string, mode: Mode, limit: nat,
                    passages: string -> Result<seq<Passage>, SearchError>)
    returns (answer: Result<Found, SearchError>)
    requires Words(normalized) != [] && normalized != ""
    ensures answer == Cut(AllHits(casing, mode, normalized, story.sources, passages), limit)
  {
    hide Words, PassageSpans, PassageHits;
    var hits, hasMore := [], false;
    ghost var flat := [];
    for i := 0 to |story.sources|
      invariant AllHits(casing, mode, normalized, story.sources[..i], passages) == Ok(flat)
      invariant hits == First(flat, limit) && hasMore == (|flat| > limit)
    {
      assert story.sources[..i + 1][..i] == story.sources[..i];
      var found := passages(story.sources[i].handle);
      if found.Err? {
        UnreadableSource(casing, mode, normalized, story.sources, passages, i + 1);
        return Err(found.error);
      }
      hits, hasMore := CollectHits(casing, mode, normalized, found.value, limit, hits, hasMore, flat);
      flat := flat + PassageHits(casing, mode, normalized, found.value);
    }
    assert story.sources[..|story.sources|] == story.sources;
    return Ok(Found(hits, [], hasMore));
  }

  lemma NonemptyQuery(normalized: string)
    requires Words(normalized) != []
    ensures normalized != ""
  {
  }

  method SearchAliases(casing: Casing, story: Story, normalized: string, limit: nat)
    returns (matches: seq<Source>, hasMore: bool)
    ensures var all := AliasMatches(casing, story, story.sources, normalized);
            matches == First(all, limit) && hasMore == (|all| > limit)
  {
    hide IsAlias;
    matches, hasMore := [], false;
    for i := 0 to |story.sources|
      invariant var all := AliasMatches(casing, story, story.sources[..i], normalized);
                matches == First(all, limit) && hasMore == (|all| > limit)
    {
      assert story.sources[..i + 1][..i] == story.sources[..i];
      if IsAlias(casing, story, story.sources[i], normalized) {
        if |matches| == limit { hasMore := true; } else { matches := matches + [story.sources[i]]; }
      }
    }
    assert story.sources[..|story.sources|] == story.sources;
  }

  /** One source's passages; the inner loop stops early only once the answer is full. */
  method CollectHits(casing: Casing, mode: Mode, normalized: string, found: seq<Passage>, limit: nat,
                     hits0: seq<Hit>, hasMore0: bool, ghost flat: seq<Hit>) returns (hits: seq<Hit>, hasMore: bool)
    requires Words(normalized) != [] && normalized != ""
    requires hits0 == First(flat, limit) && hasMore0 == (|flat| > limit)
    ensures var all := flat + PassageHits(casing, mode, normalized, found);
            hits == First(all, limit) && hasMore == (|all| > limit)
  {
    hide Words, PassageSpans;
    hits, hasMore := hits0, hasMore0;
    assert flat + [] == flat;
    for i := 0 to |found|
      invariant var all := flat + PassageHits(casing, mode, normalized, found[..i]);
                hits == First(all, limit) && hasMore == (|all| > limit)
    {
      assert found[..i + 1][..i] == found[..i];
      var spans := PassageSpans(casing, mode, found[i].text, normalized);
      ghost var before := flat + PassageHits(casing, mode, normalized, found[..i]);
      ghost var all := before + HitsOf(found[i], spans);
      assert all == flat + PassageHits(casing, mode, normalized, found[..i + 1]);
      hits, hasMore := PushHits(found[i], spans, limit, hits, hasMore, before);
    }
    assert found[..|found|] == found;
  }

  method PushHits(passage: Passage, spans: seq<Span>, limit: nat, hits0: seq<Hit>, hasMore0: bool,
                  ghost before: seq<Hit>)
    returns (hits: seq<Hit>, hasMore: bool)
    requires hits0 == First(before, limit) && hasMore0 == (|before| > limit)
    ensures var all := before + HitsOf(passage, spans);
            hits == First(all, limit) && hasMore == (|all| > limit)
  {
    hits, hasMore := hits0, hasMore0;
    ghost var all := before + HitsOf(passage, spans);
    var k := 0;
    while k < |spans|
      invariant k <= |spans|
      invariant hits == First(all[..|before| + k], limit) && hasMore == (|before| + k > limit)
    {
      if |hits| == limit {
        hasMore := true;
        break;
      }
      hits := hits + [Hit(passage, spans[k])];
      k := k + 1;
    }
  }

  lemma {:induction false} UnreadableSource(casing: Casing, mode: Mode, normalized: string, sources: seq<Source>,
                                            passages: string -> Result<seq<Passage>, SearchError>, n: nat)
    requires Words(normalized) != [] && normalized != "" && n <= |sources|
    requires AllHits(casing, mode, normalized, sources[..n], passages).Err?
    ensures AllHits(casing, mode, normalized, sources, passages)
      == AllHits(casing, mode, normalized, sources[..n], passages)
    decreases |sources| - n
  {
    hide Words, PassageHits;
    if n == |sources| {
      assert sources[..n] == sources;
    } else {
      assert sources[..n + 1][..n] == sources[..n];
      UnreadableSource(casing, mode, normalized, sources, passages, n + 1);
    }
  }
}
