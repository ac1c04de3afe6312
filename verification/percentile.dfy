/** The P90 rank of a window of samples, recomputed by sorting a copy. */
module Percentile {
  import opened Prelude

  predicate Ascending(s: seq<nat>) {
    forall i, j :: 0 <= i < j < |s| ==> s[i] <= s[j]
  }

  function Insert(x: nat, s: seq<nat>): seq<nat> {
    if s == [] || x <= s[0] then [x] + s else [s[0]] + Insert(x, s[1..])
  }

  /** Stands for `sort_unstable` on a copy; on numbers any sort gives this result. */
  function Sorted(s: seq<nat>): (r: seq<nat>)
    ensures |r| == |s|
  {
    if s == [] then [] else InsertLength(s[0], Sorted(s[1..])); Insert(s[0], Sorted(s[1..]))
  }

  lemma {:induction false} InsertLength(x: nat, s: seq<nat>)
    ensures |Insert(x, s)| == |s| + 1
  {
    if s != [] && x > s[0] {
      InsertLength(x, s[1..]);
    }
  }

  /** ceil(0.90 * n) */
  function Rank90(n: nat): nat {
    (9 * n + 9) / 10
  }

  function P90(s: seq<nat>): nat
    requires s != []
  {
    Sorted(s)[Min(Rank90(|s|) - 1, |s| - 1)]
  }

  // How many samples are at most v, and how many are below it.
  function CountAtMost(s: seq<nat>, v: nat): nat {
    if s == [] then 0 else (if s[0] <= v then 1 else 0) + CountAtMost(s[1..], v)
  }

  function CountBelow(s: seq<nat>, v: nat): nat {
    if s == [] then 0 else (if s[0] < v then 1 else 0) + CountBelow(s[1..], v)
  }

  lemma {:induction false} InsertCounts(x: nat, s: seq<nat>, v: nat)
    ensures CountAtMost(Insert(x, s), v) == CountAtMost([x] + s, v)
    ensures CountBelow(Insert(x, s), v) == CountBelow([x] + s, v)
  {
    assert ([x] + s)[1..] == s;
    if s != [] && x > s[0] {
      InsertCounts(x, s[1..], v);
      assert ([x] + s[1..])[1..] == s[1..];
      assert ([s[0]] + Insert(x, s[1..]))[1..] == Insert(x, s[1..]);
    }
  }

  lemma {:induction false} SortedCounts(s: seq<nat>, v: nat)
    ensures CountAtMost(Sorted(s), v) == CountAtMost(s, v)
    ensures CountBelow(Sorted(s), v) == CountBelow(s, v)
  {
    if s != [] {
      SortedCounts(s[1..], v);
      InsertCounts(s[0], Sorted(s[1..]), v);
      assert ([s[0]] + Sorted(s[1..]))[1..] == Sorted(s[1..]);
    }
  }

  predicate AllAtLeast(s: seq<nat>, v: nat) {
    forall i :: 0 <= i < |s| ==> s[i] >= v
  }

  lemma {:induction false} InsertAtLeast(x: nat, s: seq<nat>, v: nat)
    requires x >= v && AllAtLeast(s, v)
    ensures AllAtLeast(Insert(x, s), v)
  {
    if s != [] && x > s[0] {
      InsertAtLeast(x, s[1..], v);
    }
  }

  lemma {:induction false} InsertAscending(x: nat, s: seq<nat>)
    requires Ascending(s)
    ensures Ascending(Insert(x, s))
  {
    if s != [] && x > s[0] {
      InsertAscending(x, s[1..]);
      InsertAtLeast(x, s[1..], s[0]);
    }
  }

  lemma {:induction false} SortedAscending(s: seq<nat>)
    ensures Ascending(Sorted(s))
  {
    if s != [] {
      SortedAscending(s[1..]);
      InsertAscending(s[0], Sorted(s[1..]));
    }
  }

  /** In an ascending sequence, position k has more than k samples at most its value and at most k below it. */
  lemma {:induction false} AscendingRank(s: seq<nat>, k: nat)
    requires Ascending(s) && k < |s|
    ensures CountAtMost(s, s[k]) >= k + 1
    ensures CountBelow(s, s[k]) <= k
  {
    var tail := s[1..];
    if k == 0 {
      NoneBelow(s, s[0]);
    } else {
      AscendingRank(tail, k - 1);
    }
  }

  lemma {:induction false} NoneBelow(s: seq<nat>, v: nat)
    requires AllAtLeast(s, v)
    ensures CountBelow(s, v) == 0
  {
    if s != [] {
      NoneBelow(s[1..], v);
    }
  }

  lemma RankWithin(n: nat)
    requires n > 0
    ensures 1 <= Rank90(n) <= n
  {
  }

  /** What P90 means: at least ceil(0.9 n) samples do not exceed it, and fewer than that are strictly below it. */
  lemma {:induction false} P90IsTheRank(s: seq<nat>)
    requires s != []
    ensures CountAtMost(s, P90(s)) >= Rank90(|s|)
    ensures CountBelow(s, P90(s)) < Rank90(|s|)
    ensures 1 <= Rank90(|s|) <= |s|
  {
    var k := Rank90(|s|) - 1;
    RankWithin(|s|);
    SortedAscending(s);
    AscendingRank(Sorted(s), k);
    assert P90(s) == Sorted(s)[k];
    SortedCounts(s, P90(s));
  }

  /** The samples a window of this capacity still holds. */
  function LastOf(samples: seq<nat>, capacity: nat): (window: seq<nat>)
    ensures |window| == Min(|samples|, capacity)
  {
    if |samples| <= capacity then samples else samples[|samples| - capacity..]
  }
}
