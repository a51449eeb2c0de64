/** Lists that keep each value once, where it was first seen. */
module FirstSeen {

  function Push<T(==)>(seen: seq<T>, x: T): seq<T> {
    if x in seen then seen else seen + [x]
  }

  function PushAll<T(==)>(seen: seq<T>, more: seq<T>): seq<T> {
    if more == [] then seen else Push(PushAll(seen, more[..|more| - 1]), more[|more| - 1])
  }

  ghost predicate NoRepeats<T>(s: seq<T>) {
    forall i, j :: 0 <= i < j < |s| ==> s[i] != s[j]
  }

  lemma PushKeepsDistinct<T>(seen: seq<T>, x: T)
    requires NoRepeats(seen)
    ensures NoRepeats(Push(seen, x)) && seen <= Push(seen, x)
    ensures forall y :: y in Push(seen, x) <==> y in seen || y == x
  {
    if x !in seen {
      var all := seen + [x];
      assert all[|seen|] == x;
      assert forall i :: 0 <= i < |seen| ==> all[i] == seen[i];
    }
  }

  /** Pushing keeps each value once and loses none, and what a shorter list showed stays
      in front: values appear in the order they were first seen. */
  lemma {:induction false} PushAllIsFirstSeen<T>(seen: seq<T>, more: seq<T>)
    requires NoRepeats(seen)
    ensures NoRepeats(PushAll(seen, more)) && seen <= PushAll(seen, more)
    ensures forall x :: x in PushAll(seen, more) <==> x in seen || x in more
    ensures forall k :: 0 <= k <= |more| ==> PushAll(seen, more[..k]) <= PushAll(seen, more)
  {
    if more == [] {
      assert more[..0] == more;
    } else {
      hide Push, NoRepeats;
      var n := |more| - 1;
      var init := PushAll(seen, more[..n]);
      PushAllIsFirstSeen(seen, more[..n]);
      PushKeepsDistinct(init, more[n]);
      assert more == more[..n] + [more[n]];
      forall k | 0 <= k <= |more|
        ensures PushAll(seen, more[..k]) <= PushAll(seen, more)
      {
        if k <= n { assert more[..n][..k] == more[..k]; } else { assert more[..k] == more; }
      }
    }
  }
}
