/** Bounded pages over a fixed result: following the next offset returns it all. */
module Paging {
  import opened Arithmetic
  import opened Wrappers

  const MAX_MEMORY_OFFSET: nat := 100_000
  const MAX_MEMORY_LIMIT: nat := 20
  const MAX_U32: nat := 0xFFFF_FFFF

  datatype Bounds = Bounds(start: nat, end: nat, next: Option<nat>)

  function Min(a: nat, b: nat): nat {
    if a < b then a else b
  }

  /** The slice one page shows and the offset of the next, or a refusal. */
  function PageBounds(offset: nat, limit: nat, total: nat): Option<Bounds> {
    if offset > MAX_MEMORY_OFFSET || !(1 <= limit <= MAX_MEMORY_LIMIT) then None
    else
      var end := Min(offset + limit, total);
      Some(Bounds(Min(offset, total), end, if end < total && end <= MAX_U32 then Some(end) else None))
  }

  lemma PageIsSlice(offset: nat, limit: nat, total: nat)
    requires PageBounds(offset, limit, total).Some?
    ensures var b := PageBounds(offset, limit, total).value;
            && b.start <= b.end <= total && b.end - b.start <= limit
            && (b.next.Some? <==> offset + limit < total)
            && (b.next.Some? ==> b.next.value == b.end == offset + limit)
            && (b.next.None? ==> b.end == total)
  {
  }

  /** Read a page, then the one its next offset names, until there is none. */
  function Follow<T>(all: seq<T>, offset: nat, limit: nat): Option<seq<T>>
    decreases |all| + MAX_MEMORY_LIMIT - Min(offset, |all| + MAX_MEMORY_LIMIT)
  {
    var page := PageBounds(offset, limit, |all|);
    if page.None? then None
    else if page.value.next.None? then Some(all[page.value.start..page.value.end])
    else
      var rest := Follow(all, page.value.next.value, limit);
      if rest.None? then None else Some(all[page.value.start..page.value.end] + rest.value)
  }

  /** The last offset a reader has to ask for. */
  function LastOffset(total: nat, limit: nat): nat
    requires limit > 0
  {
    if total == 0 then 0 else (total - 1) / limit * limit
  }

  lemma StepBack(k: nat, limit: nat, total: nat)
    requires limit > 0 && (k + 1) * limit < total
    ensures (k + 1) * limit <= LastOffset(total, limit)
  {
    var q := (total - 1) / limit;
    QuotientBounds(total - 1, limit);
    if q < k + 1 { Scaled(q + 1, k + 1, limit); }
    Scaled(k + 1, q, limit);
  }

  lemma LastStep(k: nat, limit: nat, total: nat)
    requires limit > 0 && (k > 0 ==> k * limit < total) && (k + 1) * limit >= total
    ensures k * limit == LastOffset(total, limit)
  {
    if total > 0 {
      QuotientIs(total - 1, limit, k);
    }
  }

  /** One page further: its offset, and whether the last page has been reached. */
  lemma NextBoundary(offset: nat, k: nat, limit: nat, total: nat)
    requires limit > 0 && offset == k * limit && (k > 0 ==> offset < total)
    ensures offset + limit == (k + 1) * limit
    ensures offset + limit < total ==> offset + limit <= LastOffset(total, limit)
    ensures offset + limit >= total ==> offset == LastOffset(total, limit)
  {
    hide LastOffset;
    assert (k + 1) * limit == k * limit + limit;
    if offset + limit < total { StepBack(k, limit, total); } else { LastStep(k, limit, total); }
  }

  /** From any page boundary: the pages that follow concatenate to the rest of the result
      exactly when no offset on the way passes the cap; otherwise the reader is refused. */
  lemma {:induction false} FollowFrom<T>(all: seq<T>, offset: nat, k: nat, limit: nat)
    requires 1 <= limit <= MAX_MEMORY_LIMIT && offset == k * limit
    requires (k > 0 ==> offset < |all|) && offset <= MAX_MEMORY_OFFSET && |all| <= MAX_U32
    ensures Follow(all, offset, limit)
         == if LastOffset(|all|, limit) <= MAX_MEMORY_OFFSET then Some(all[Min(offset, |all|)..]) else None
    decreases |all| + MAX_MEMORY_LIMIT - Min(offset, |all| + MAX_MEMORY_LIMIT)
  {
    hide LastOffset;
    PageIsSlice(offset, limit, |all|);
    NextBoundary(offset, k, limit, |all|);
    if offset + limit < |all| {
      if offset + limit <= MAX_MEMORY_OFFSET {
        FollowFrom(all, offset + limit, k + 1, limit);
        assert all[offset..offset + limit] + all[offset + limit..] == all[offset..];
      }
    } else {
      assert all[Min(offset, |all|)..|all|] == all[Min(offset, |all|)..];
    }
  }

  /** Following next_offset from zero always ends, and returns the whole result in order
      exactly when its last needed offset is within the offset cap. */
  lemma PagesConcatenate<T>(all: seq<T>, limit: nat)
    requires 1 <= limit <= MAX_MEMORY_LIMIT && |all| <= MAX_U32
    ensures Follow(all, 0, limit) == if LastOffset(|all|, limit) <= MAX_MEMORY_OFFSET then Some(all) else None
  {
    assert 0 * limit == 0;
    FollowFrom(all, 0, 0, limit);
    assert all[Min(0, |all|)..] == all;
  }

  /** The failing case: of 100,021 results in pages of 20 the last one is out of reach. */
  lemma LastResultOutOfReach<T>(all: seq<T>)
    requires |all| == 100_021
    ensures Follow(all, 0, 20) == None && Follow(all[..100_020], 0, 20) == Some(all[..100_020])
  {
    PagesConcatenate(all, 20);
    PagesConcatenate(all[..100_020], 20);
  }
}
