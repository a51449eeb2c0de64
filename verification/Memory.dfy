/** Navigation digests: quotes addressed by editor offsets, their validation, and the
    deterministic sample digest. */
module Memory {
  import opened Arithmetic
  import opened Text
  import opened Wrappers

  const MAX_U32: nat := 0xFFFF_FFFF
  const DIGEST_SCHEMA_VERSION := "navigation-digest.v1"
  const MAX_ITEMS: nat := 16
  const MAX_ITEM_TEXT_BYTES: nat := 2048
  const MAX_EVIDENCE_PER_ITEM: nat := 4
  const MAX_EVIDENCE_QUOTE_BYTES: nat := 4096
  const MAX_UNCERTAINTY_BYTES: nat := 512
  const EXCERPT_BYTES: nat := 256
  const SAMPLE_NOTE := "Extractive local test sample; it does not summarize every passage or verify meaning."

  type U32 = n: nat | n <= MAX_U32

  // ----- Editor offsets -----

  /** The first k characters are exactly this many UTF-16 units long. */
  predicate UnitsAt(text: string, target: nat, k: nat) {
    k <= |text| && Utf16Len(text[..k]) == target
  }

  function CharacterFrom(text: string, target: nat, k: nat): Option<nat>
    decreases |text| - k
  {
    if k > |text| then None
    else if Utf16Len(text[..k]) == target then Some(k)
    else CharacterFrom(text, target, k + 1)
  }

  /** The number of characters before an editor offset, unless it is out of range or
      inside a surrogate pair. */
  function CharacterAt(text: string, target: nat): Option<nat> {
    CharacterFrom(text, target, 0)
  }

  lemma {:induction false} CharacterFromIsExact(text: string, target: nat, from: nat, k: nat)
    requires from <= k && UnitsAt(text, target, k)
    ensures CharacterFrom(text, target, from) == Some(k)
    decreases k - from
  {
    if from < k {
      PrefixLengthsIncrease(text, from, k);
      CharacterFromIsExact(text, target, from + 1, k);
    }
  }

  lemma {:induction false} CharacterFromFinds(text: string, target: nat, from: nat)
    ensures var r := CharacterFrom(text, target, from); r.Some? ==> UnitsAt(text, target, r.value)
    decreases |text| - from
  {
    if from <= |text| && Utf16Len(text[..from]) != target {
      CharacterFromFinds(text, target, from + 1);
    }
  }

  /** An offset names a character boundary exactly when the prefix before it has exactly
      that many units, and no other boundary does. */
  lemma CharacterAtIsExact(text: string, target: nat, k: nat)
    ensures CharacterAt(text, target) == Some(k) <==> UnitsAt(text, target, k)
  {
    CharacterFromFinds(text, target, 0);
    if UnitsAt(text, target, k) {
      CharacterFromIsExact(text, target, 0, k);
    }
  }

  /** The UTF-8 byte boundary at an editor offset. The 32-bit unit counter stops at an
      overflow, which can only happen past every offset a caller can ask for. */
  method Utf16Boundary(text: string, target: U32) returns (boundary: Option<nat>)
    ensures forall k: nat :: UnitsAt(text, target, k) ==> boundary == Some(Utf8Len(text[..k]))
    ensures boundary.Some? ==> exists k: nat :: UnitsAt(text, target, k) && boundary.value == Utf8Len(text[..k])
  {
    forall j: nat, k: nat | UnitsAt(text, target, j) && UnitsAt(text, target, k)
      ensures j == k
    {
      CharacterAtIsExact(text, target, j);
      CharacterAtIsExact(text, target, k);
    }
    if target == 0 {
      assert UnitsAt(text, target, 0);
      return Some(0);
    }
    var units, index := 0, 0;
    for k := 0 to |text|
      invariant units == Utf16Len(text[..k]) <= target && index == Utf8Len(text[..k])
    {
      if units == target {
        assert UnitsAt(text, target, k);
        return Some(index);
      }
      Utf16LenTake(text, k);
      Utf8LenTake(text, k);
      if units + Utf16Width(text[k]) > MAX_U32 {
        PassedOver(text, target, k);
        return None;
      }
      units := units + Utf16Width(text[k]);
      if units > target {
        PassedOver(text, target, k);
        return None;
      }
      index := index + Utf8Width(text[k]);
    }
    assert text[..|text|] == text;
    if units == target {
      assert UnitsAt(text, target, |text|);
      return Some(index);
    }
    assert units < target;
    forall k: nat ensures !UnitsAt(text, target, k) {
      if k < |text| { PrefixLengthsIncrease(text, k, |text|); }
    }
    return None;
  }

  /** No boundary has the target when one character steps over it. */
  lemma PassedOver(text: string, target: nat, k: nat)
    requires k < |text| && Utf16Len(text[..k]) < target < Utf16Len(text[..k + 1])
    ensures forall j: nat :: !UnitsAt(text, target, j)
  {
    forall j: nat ensures !UnitsAt(text, target, j) {
      if j < k { PrefixLengthsIncrease(text, j, k); }
      if k + 1 < j <= |text| { PrefixLengthsIncrease(text, k + 1, j); }
    }
  }

  // ----- Candidates -----

  datatype Passage = Passage(blockId: string, text: string)

  datatype Evidence = Evidence(blockId: string, fromUtf16: U32, toUtf16: U32, quote: string)

  datatype Item = Item(text: string, evidence: seq<Evidence>, uncertainty: Option<string>)

  datatype Candidate = Candidate(schemaVersion: string, source: string, items: seq<Item>)

  datatype Error = InvalidMemoryCandidate | MemorySourceMismatch | InvalidMemoryEvidence | EmptyMemorySource

  function FindPassage(passages: seq<Passage>, blockId: string): Option<Passage> {
    if passages == [] then None
    else if passages[0].blockId == blockId then Some(passages[0])
    else FindPassage(passages[1..], blockId)
  }

  predicate BoundedText(s: string, limit: nat) {
    s != "" && Utf8Len(s) <= limit
  }

  /** The quote is exactly the text between the two offsets. */
  predicate Quotes(text: string, e: Evidence) {
    var start, end := CharacterAt(text, e.fromUtf16), CharacterAt(text, e.toUtf16);
    start.Some? && end.Some? && start.value < end.value <= |text| && text[start.value..end.value] == e.quote
  }

  predicate EvidenceValid(passages: seq<Passage>, e: Evidence) {
    var passage := FindPassage(passages, e.blockId);
    && passage.Some? && BoundedText(e.quote, MAX_EVIDENCE_QUOTE_BYTES)
    && e.fromUtf16 < e.toUtf16 && Quotes(passage.value.text, e)
  }

  function ItemError(passages: seq<Passage>, item: Item): Option<Error> {
    if !BoundedText(item.text, MAX_ITEM_TEXT_BYTES) then Some(InvalidMemoryCandidate)
    else if item.uncertainty.Some? && !BoundedText(item.uncertainty.value, MAX_UNCERTAINTY_BYTES)
            then Some(InvalidMemoryCandidate)
    else if item.evidence == [] || |item.evidence| > MAX_EVIDENCE_PER_ITEM then Some(InvalidMemoryCandidate)
    else if exists i :: 0 <= i < |item.evidence| && !EvidenceValid(passages, item.evidence[i])
            then Some(InvalidMemoryEvidence)
    else None
  }

  function ItemsError(passages: seq<Passage>, items: seq<Item>): Option<Error> {
    if items == [] then None
    else if ItemError(passages, items[0]).Some? then ItemError(passages, items[0])
    else ItemsError(passages, items[1..])
  }

  function CandidateError(c: Candidate, source: string, passages: seq<Passage>): Option<Error> {
    if c.schemaVersion != DIGEST_SCHEMA_VERSION then Some(InvalidMemoryCandidate)
    else if c.source != source then Some(MemorySourceMismatch)
    else if c.items == [] || |c.items| > MAX_ITEMS then Some(InvalidMemoryCandidate)
    else ItemsError(passages, c.items)
  }

  lemma {:induction false} NoItemError(passages: seq<Passage>, items: seq<Item>)
    ensures ItemsError(passages, items).None? <==> forall i :: 0 <= i < |items| ==> ItemError(passages, items[i]).None?
  {
    if items != [] {
      NoItemError(passages, items[1..]);
      assert forall i :: 1 <= i < |items| ==> items[i] == items[1..][i - 1];
    }
  }

  /** A quote between two offsets has exactly as many units as the offsets are apart. */
  lemma QuoteHasExactUnits(text: string, e: Evidence)
    requires Quotes(text, e)
    ensures Utf16Len(e.quote) == e.toUtf16 - e.fromUtf16 && e.fromUtf16 < e.toUtf16
  {
    var start, end := CharacterAt(text, e.fromUtf16).value, CharacterAt(text, e.toUtf16).value;
    CharacterAtIsExact(text, e.fromUtf16, start);
    CharacterAtIsExact(text, e.toUtf16, end);
    assert text[..end] == text[..start] + e.quote;
    Utf16LenAppend(text[..start], e.quote);
    PrefixLengthsIncrease(text, start, end);
  }

  /** Every quote of an accepted candidate lies in the named block and has exactly the
      units its range claims. */
  lemma AcceptedQuotesAreExact(c: Candidate, source: string, passages: seq<Passage>, i: nat, j: nat)
    requires CandidateError(c, source, passages).None? && i < |c.items| && j < |c.items[i].evidence|
    ensures var e := c.items[i].evidence[j];
            && FindPassage(passages, e.blockId).Some?
            && Quotes(FindPassage(passages, e.blockId).value.text, e)
            && Utf16Len(e.quote) == e.toUtf16 - e.fromUtf16
  {
    hide Quotes, BoundedText;
    NoItemError(passages, c.items);
    assert ItemError(passages, c.items[i]).None?;
    assert EvidenceValid(passages, c.items[i].evidence[j]);
    QuoteHasExactUnits(FindPassage(passages, c.items[i].evidence[j].blockId).value.text, c.items[i].evidence[j]);
  }

  // ----- The sample digest -----

  predicate CharBoundary(text: string, end: nat) {
    exists k :: 0 <= k <= |text| && Utf8Len(text[..k]) == end
  }

  /** The longest whole-character prefix of at most 256 bytes. */
  ghost predicate IsExcerpt(text: string, excerpt: string) {
    && excerpt <= text && Utf8Len(excerpt) <= EXCERPT_BYTES
    && forall k :: |excerpt| < k <= |text| ==> Utf8Len(text[..k]) > EXCERPT_BYTES
  }

  lemma PrefixBytes(text: string, k: nat)
    requires k <= |text|
    ensures Utf8Len(text[..k]) <= Utf8Len(text)
  {
    assert text[..|text|] == text;
    if k < |text| { PrefixLengthsIncrease(text, k, |text|); }
  }

  /** Step back from byte 256 to the nearest character boundary. */
  method Excerpt(text: string) returns (excerpt: string)
    ensures IsExcerpt(text, excerpt)
  {
    forall k | 0 <= k <= |text| ensures Utf8Len(text[..k]) <= Utf8Len(text) { PrefixBytes(text, k); }
    assert text[..0] == "" && CharBoundary(text, 0);
    var end: nat := if Utf8Len(text) < EXCERPT_BYTES then Utf8Len(text) else EXCERPT_BYTES;
    while !CharBoundary(text, end)
      invariant end <= EXCERPT_BYTES
      invariant forall k :: 0 <= k <= |text| && Utf8Len(text[..k]) > end ==> Utf8Len(text[..k]) > EXCERPT_BYTES
      decreases end
    {
      end := end - 1;
    }
    var k :| 0 <= k <= |text| && Utf8Len(text[..k]) == end;
    excerpt := text[..k];
    forall j | k < j <= |text| ensures Utf8Len(text[..j]) > EXCERPT_BYTES {
      PrefixLengthsIncrease(text, k, j);
    }
  }

  lemma ExcerptNonempty(text: string, excerpt: string)
    requires IsExcerpt(text, excerpt) && text != ""
    ensures excerpt != ""
  {
    LengthBounds(text[..1]);
  }

  lemma ExcerptUnits(text: string, excerpt: string)
    requires IsExcerpt(text, excerpt)
    ensures Utf16Len(excerpt) <= EXCERPT_BYTES
  {
    LengthBounds(excerpt);
  }

  /** The block sampled at one index, spread evenly from the first to the last. */
  function Position(index: nat, count: nat, n: nat): nat
    requires index < count <= n
  {
    if count == 1 then 0
    else
      Scaled(0, index, n - 1);
      index * (n - 1) / (count - 1)
  }

  /** Sampled positions are in range, strictly increasing, start at the first block, and
      with two or more samples end at the last. */
  lemma PositionsSpread(index: nat, count: nat, n: nat)
    requires index < count <= n
    ensures Position(index, count, n) < n
    ensures Position(0, count, n) == 0
    ensures count > 1 ==> Position(count - 1, count, n) == n - 1
    ensures index + 1 < count ==> Position(index, count, n) < Position(index + 1, count, n)
  {
    if count > 1 {
      var a, d := n - 1, count - 1;
      QuotientWithin(index, a, d);
      assert a * d == d * a && (a + 1) * d == a * d + d;
      QuotientIs(d * a, d, a);
      QuotientIs(0, d, 0);
      if index + 1 < count {
        assert (index + 1) * a == index * a + a;
        QuotientRises(index * a, a, d);
      }
    }
  }

  function NonBlank(passages: seq<Passage>): (kept: seq<Passage>)
    ensures forall i :: 0 <= i < |kept| ==> kept[i] in passages && Trim(kept[i].text) != ""
  {
    if passages == [] then []
    else
      var init, last := NonBlank(passages[..|passages| - 1]), passages[|passages| - 1];
      if Trim(last.text) == "" then init else init + [last]
  }

  /** An item quotes its block's excerpt from the start. */
  ghost predicate Samples(item: Item, passage: Passage) {
    && |item.evidence| == 1 && item.uncertainty == Some(SAMPLE_NOTE)
    && item.evidence[0].blockId == passage.blockId && item.evidence[0].fromUtf16 == 0
    && item.evidence[0].quote == item.text && IsExcerpt(passage.text, item.text)
    && item.evidence[0].toUtf16 == Utf16Len(item.text)
  }

  ghost predicate Sampled(items: seq<Item>, kept: seq<Passage>, count: nat) {
    && |items| <= count <= |kept|
    && forall i :: 0 <= i < |items| ==>
         Position(i, count, |kept|) < |kept| && Samples(items[i], kept[Position(i, count, |kept|)])
  }

  method MockNavigationDigest(source: string, passages: seq<Passage>) returns (digest: Result<Candidate, Error>)
    ensures NonBlank(passages) == [] ==> digest == Err(EmptyMemorySource)
    ensures NonBlank(passages) != [] ==>
      digest.Ok? && digest.value.schemaVersion == DIGEST_SCHEMA_VERSION && digest.value.source == source
    ensures var kept := NonBlank(passages);
            var count := if |kept| < MAX_ITEMS then |kept| else MAX_ITEMS;
            kept != [] ==> |digest.value.items| == count && Sampled(digest.value.items, kept, count)
  {
    hide NonBlank, Position, IsExcerpt, Utf16Len;
    var kept := NonBlank(passages);
    var count := if |kept| < MAX_ITEMS then |kept| else MAX_ITEMS;
    var items := [];
    for index := 0 to count
      invariant |items| == index && Sampled(items, kept, count)
    {
      PositionsSpread(index, count, |kept|);
      var passage := kept[Position(index, count, |kept|)];
      var excerpt := Excerpt(passage.text);
      ExcerptUnits(passage.text, excerpt);
      items := items + [Item(excerpt, [Evidence(passage.blockId, 0, Utf16Len(excerpt), excerpt)], Some(SAMPLE_NOTE))];
    }
    if items == [] { return Err(EmptyMemorySource); }
    return Ok(Candidate(DIGEST_SCHEMA_VERSION, source, items));
  }

  // ----- The sample digest always validates -----

  predicate DistinctBlocks(passages: seq<Passage>) {
    forall i, j :: 0 <= i < j < |passages| ==> passages[i].blockId != passages[j].blockId
  }

  lemma {:induction false} FindPassageIsFirst(passages: seq<Passage>, p: Passage)
    requires p in passages && DistinctBlocks(passages)
    ensures FindPassage(passages, p.blockId) == Some(p)
  {
    if passages[0] != p {
      assert passages == [passages[0]] + passages[1..];
      var k :| 1 <= k < |passages| && passages[k] == p;
      assert passages[0].blockId != passages[k].blockId;
      FindPassageIsFirst(passages[1..], p);
    }
  }

  lemma {:induction false} FindPassageExists(passages: seq<Passage>, p: Passage)
    requires p in passages
    ensures FindPassage(passages, p.blockId).Some?
  {
    if passages[0].blockId != p.blockId {
      assert passages == [passages[0]] + passages[1..];
      FindPassageExists(passages[1..], p);
    }
  }

  /** A quote of length n from the start is the text's own prefix. */
  lemma PrefixQuote(text: string, e: Evidence)
    requires e.fromUtf16 == 0 && e.toUtf16 == Utf16Len(e.quote) && e.quote != ""
    ensures Quotes(text, e) <==> e.quote <= text
  {
    CharacterAtIsExact(text, 0, 0);
    LengthBounds(e.quote);
    if e.quote <= text {
      assert text[..|e.quote|] == e.quote;
      CharacterAtIsExact(text, e.toUtf16, |e.quote|);
    }
  }

  /** A sampled item is valid exactly when the first block with its id begins with it. */
  lemma SampleIsValidIff(passages: seq<Passage>, item: Item, passage: Passage)
    requires passage in passages && Trim(passage.text) != "" && Samples(item, passage)
    ensures ItemError(passages, item).None? <==> item.text <= FirstText(passages, passage.blockId)
  {
    hide Quotes, FindPassage;
    FindPassageExists(passages, passage);
    assert passage.text != "" by { assert Trim("") == ""; }
    ExcerptNonempty(passage.text, item.text);
    LengthBounds(SAMPLE_NOTE);
    LengthBounds(item.text);
    PrefixQuote(FirstText(passages, passage.blockId), item.evidence[0]);
  }

  function FirstText(passages: seq<Passage>, blockId: string): string {
    match FindPassage(passages, blockId) case Some(p) => p.text case None => ""
  }

  /** The digest of a source validates exactly when every sampled block's excerpt also
      begins the first block carrying its id. */
  lemma DigestValidatesIff(c: Candidate, source: string, passages: seq<Passage>, count: nat)
    requires var kept := NonBlank(passages);
             && c.schemaVersion == DIGEST_SCHEMA_VERSION && c.source == source && c.items != []
             && |c.items| == count <= MAX_ITEMS && Sampled(c.items, kept, count)
    ensures CandidateError(c, source, passages).None? <==>
      forall i :: 0 <= i < |c.items| ==> c.items[i].text <= FirstText(passages, c.items[i].evidence[0].blockId)
  {
    hide ItemError, FindPassage, Trim, IsExcerpt, Position;
    var kept := NonBlank(passages);
    NoItemError(passages, c.items);
    forall i | 0 <= i < |c.items|
      ensures ItemError(passages, c.items[i]).None? <==>
        c.items[i].text <= FirstText(passages, c.items[i].evidence[0].blockId)
    {
      SampleIsValidIff(passages, c.items[i], kept[Position(i, count, |kept|)]);
    }
  }

  /** In particular it always validates when block ids are unique. */
  lemma DistinctBlocksValidate(c: Candidate, source: string, passages: seq<Passage>, count: nat)
    requires DistinctBlocks(passages)
    requires var kept := NonBlank(passages);
             && c.schemaVersion == DIGEST_SCHEMA_VERSION && c.source == source && c.items != []
             && |c.items| == count <= MAX_ITEMS && Sampled(c.items, kept, count)
    ensures CandidateError(c, source, passages).None?
  {
    hide CandidateError, FindPassage, Trim, Position;
    var kept := NonBlank(passages);
    DigestValidatesIff(c, source, passages, count);
    forall i | 0 <= i < |c.items|
      ensures c.items[i].text <= FirstText(passages, c.items[i].evidence[0].blockId)
    {
      FindPassageIsFirst(passages, kept[Position(i, count, |kept|)]);
    }
  }
}
