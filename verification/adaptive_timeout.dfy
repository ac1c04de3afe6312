/** Request timeouts derived from a sliding window of round-trip times, with a lazily recomputed P90. */
module AdaptiveTimeouts {
  import opened Prelude
  import opened Percentile

  datatype RttSnapshot = RttSnapshot(avg: nat, min: nat, max: nat, jitter: nat, sampleCount: nat)

  const EMPTY_SNAPSHOT := RttSnapshot(0, 0, 0, 0, 0)

  function Sum(s: seq<nat>): nat {
    if s == [] then 0 else s[0] + Sum(s[1..])
  }

  function Distance(a: nat, b: nat): nat {
    if a < b then b - a else a - b
  }

  function Deviations(s: seq<nat>, centre: nat): (d: seq<nat>)
    ensures |d| == |s|
    ensures forall i :: 0 <= i < |s| ==> d[i] == Distance(s[i], centre)
  {
    if s == [] then [] else [Distance(s[0], centre)] + Deviations(s[1..], centre)
  }

  function Mean(s: seq<nat>): nat
    requires s != []
  {
    Sum(s) / |s|
  }

  // ------------------------------------------------------------- what a snapshot says of a window

  /** The window's mean, its extremes, its mean deviation from the mean, and its size. */
  ghost predicate Summarizes(snapshot: RttSnapshot, window: seq<nat>)
    requires window != []
  {
    && snapshot.avg == Mean(window)
    && snapshot.min in window && snapshot.max in window
    && (forall i :: 0 <= i < |window| ==> snapshot.min <= window[i] <= snapshot.max)
    && snapshot.jitter == Mean(Deviations(window, snapshot.avg))
    && snapshot.sampleCount == |window|
  }

  /** What the code computes from the sorted copy of a window. */
  function Summarize(window: seq<nat>): RttSnapshot
    requires window != []
  {
    var sorted := Sorted(window);
    var avg := Mean(sorted);
    RttSnapshot(avg, sorted[0], sorted[|sorted| - 1],
                if |sorted| > 1 then Mean(Deviations(sorted, avg)) else 0, |sorted|)
  }

  /** Sorting changes none of it: the snapshot holds the figures of the window itself, and no other snapshot does. */
  lemma SummaryOfTheWindow(window: seq<nat>, snapshot: RttSnapshot)
    requires window != []
    ensures Summarizes(snapshot, window) <==> snapshot == Summarize(window)
  {
    SortedSum(window);
    SortedDeviations(window, Mean(window));
    SortedExtremes(window);
    if |window| == 1 {
      assert window == [window[0]];
      assert Deviations(window, window[0]) == [0];
    }
  }

  lemma {:induction false} InsertSum(x: nat, s: seq<nat>)
    ensures Sum(Insert(x, s)) == x + Sum(s)
  {
    assert ([x] + s)[1..] == s;
    if s != [] && x > s[0] {
      InsertSum(x, s[1..]);
      assert ([s[0]] + Insert(x, s[1..]))[1..] == Insert(x, s[1..]);
    }
  }

  lemma {:induction false} SortedSum(s: seq<nat>)
    ensures Sum(Sorted(s)) == Sum(s)
  {
    if s != [] {
      SortedSum(s[1..]);
      InsertSum(s[0], Sorted(s[1..]));
    }
  }

  lemma {:induction false} InsertDeviations(x: nat, s: seq<nat>, centre: nat)
    ensures Sum(Deviations(Insert(x, s), centre)) == Distance(x, centre) + Sum(Deviations(s, centre))
  {
    assert ([x] + s)[1..] == s;
    if s != [] && x > s[0] {
      InsertDeviations(x, s[1..], centre);
      assert ([s[0]] + Insert(x, s[1..]))[1..] == Insert(x, s[1..]);
    }
  }

  lemma {:induction false} SortedDeviations(s: seq<nat>, centre: nat)
    ensures Sum(Deviations(Sorted(s), centre)) == Sum(Deviations(s, centre))
  {
    if s != [] {
      SortedDeviations(s[1..], centre);
      InsertDeviations(s[0], Sorted(s[1..]), centre);
    }
  }

  lemma SortedExtremes(window: seq<nat>)
    requires window != []
    ensures var sorted := Sorted(window);
            && sorted[0] in window && sorted[|sorted| - 1] in window
            && (forall i :: 0 <= i < |window| ==> sorted[0] <= window[i] <= sorted[|sorted| - 1])
  {
    SortedAscending(window);
    SortedMembers(window);
    forall i | 0 <= i < |window| ensures Sorted(window)[0] <= window[i] <= Sorted(window)[|window| - 1] {
      assert window[i] in Sorted(window);
    }
  }

  lemma {:induction false} SortedMembers(s: seq<nat>)
    ensures forall x :: x in Sorted(s) <==> x in s
  {
    if s != [] {
      SortedMembers(s[1..]);
      InsertMembers(s[0], Sorted(s[1..]));
      assert s == [s[0]] + s[1..];
    }
  }

  lemma {:induction false} InsertMembers(x: nat, s: seq<nat>)
    ensures forall y :: y in Insert(x, s) <==> y == x || y in s
  {
    if s != [] && x > s[0] {
      InsertMembers(x, s[1..]);
      assert s == [s[0]] + s[1..];
    }
  }

  function Clamp(x: nat, low: nat, high: nat): (r: nat)
    requires low <= high
    ensures low <= r <= high
  {
    if x < low then low else if x > high then high else x
  }

  function Scaled(p90: nat, multiplier: real): u64 {
    RealToU64(p90 as real * multiplier)
  }

  /** What is closed under `Opened`, so that sums and quotients stay out of the class's own proofs. */
  datatype Topic = Summaries

  /** The snapshot describes the window as it is once these samples have been recorded. */
  ghost predicate IsSummary(snapshot: RttSnapshot, recorded: seq<nat>, windowSize: nat) {
    windowSize >= 1 && forall u: bool {:trigger Opened(Summaries, u)} :: Opened(Summaries, u) ==>
      if recorded == [] then snapshot == EMPTY_SNAPSHOT else Summarizes(snapshot, LastOf(recorded, windowSize))
  }

  lemma NothingToSummarize(windowSize: nat)
    requires windowSize >= 1
    ensures IsSummary(EMPTY_SNAPSHOT, [], windowSize)
  {
  }

  /** What a window gives, by way of its sorted copy. */
  method Recomputed(window: seq<nat>, ghost recorded: seq<nat>, ghost windowSize: nat)
    returns (p90: nat, snapshot: RttSnapshot)
    requires window != [] && windowSize >= 1 && window == LastOf(recorded, windowSize)
    ensures p90 == P90(window) && IsSummary(snapshot, recorded, windowSize)
  {
    var sorted := Sorted(window);
    p90 := sorted[Min(Rank90(|sorted|) - 1, |sorted| - 1)];
    snapshot := Summarize(window);
    SummaryOfTheWindow(window, snapshot);
  }

  class AdaptiveTimeout {
    const windowSize: nat
    const minTimeoutMs: u64
    const maxTimeoutMs: u64
    const multiplier: real
    var rttWindow: seq<nat>
    var cachedP90: Option<nat>
    var cachedSnapshot: Option<RttSnapshot>
    var dirty: bool
    ghost var recorded: seq<nat>       // every sample ever recorded
    ghost var summarized: seq<nat>     // those that had been recorded when the snapshot was last made
    ghost var lapsed: bool             // a timeout has been computed since the last sample, and no snapshot in between

    ghost predicate Valid()
      reads this
    {
      && windowSize >= 1 && minTimeoutMs <= maxTimeoutMs
      && rttWindow == LastOf(recorded, windowSize)
      && (rttWindow != [] && !dirty ==> cachedP90 == Some(P90(rttWindow)))
      && summarized <= recorded
      && (cachedSnapshot.None? <==> summarized == [])
      && (cachedSnapshot.Some? ==> IsSummary(cachedSnapshot.value, summarized, windowSize))
      && (|summarized| < |recorded| <==> dirty || lapsed) && !(dirty && lapsed)
    }

    constructor (minTimeoutMs: u64, maxTimeoutMs: u64, multiplier: real, windowSize: nat)
      requires windowSize >= 1 && minTimeoutMs <= maxTimeoutMs
      ensures Valid() && recorded == [] && summarized == [] && !lapsed
      ensures this.windowSize == windowSize && this.multiplier == multiplier
      ensures this.minTimeoutMs == minTimeoutMs && this.maxTimeoutMs == maxTimeoutMs
    {
      this.minTimeoutMs := minTimeoutMs;
      this.maxTimeoutMs := maxTimeoutMs;
      this.multiplier := multiplier;
      this.windowSize := windowSize;
      rttWindow := [];
      cachedP90 := None;
      cachedSnapshot := None;
      dirty := false;
      recorded := [];
      summarized := [];
      lapsed := false;
    }

    method Record(rttMs: nat)
      requires Valid()
      modifies this
      ensures Valid() && recorded == old(recorded) + [rttMs]
      ensures dirty && !lapsed && summarized == old(summarized)
    {
      if |rttWindow| >= windowSize {
        rttWindow := rttWindow[1..];
      }
      rttWindow := rttWindow + [rttMs];
      dirty := true;
      recorded := recorded + [rttMs];
      lapsed := false;
    }

    /** Whatever was called before: the clamped multiple of the P90 of exactly the last samples. */
    method TimeoutMs() returns (timeout: nat)
      requires Valid()
      modifies this
      ensures Valid() && recorded == old(recorded)
      ensures timeout == TimeoutFor(LastOf(recorded, windowSize), minTimeoutMs, maxTimeoutMs, multiplier)
      ensures !dirty && lapsed == old(lapsed || dirty) && summarized == old(summarized)
    {
      if rttWindow == [] {
        return minTimeoutMs;
      }
      if dirty {
        var sorted := Sorted(rttWindow);
        cachedP90 := Some(sorted[Min(Rank90(|rttWindow|) - 1, |rttWindow| - 1)]);
        dirty := false;
        lapsed := true;
      }
      var p90 := if cachedP90.Some? then cachedP90.value else minTimeoutMs;
      timeout := Clamp(Scaled(p90, multiplier), minTimeoutMs, maxTimeoutMs);
    }

    /**
     * The summary of the current window, unless a timeout has been computed since the last sample and before any
     * snapshot: then the one of the samples the last snapshot was made from, none at first.
     */
    method Snapshot() returns (snapshot: RttSnapshot)
      requires Valid()
      modifies this
      ensures Valid() && recorded == old(recorded)
      ensures IsSummary(snapshot, if old(lapsed) then old(summarized) else recorded, windowSize)
      ensures old(lapsed) ==> old(summarized) < recorded
      ensures !dirty && lapsed == old(lapsed) && summarized == if old(lapsed) then old(summarized) else recorded
    {
      NothingToSummarize(windowSize);
      assert !dirty && !lapsed ==> summarized == recorded;
      if rttWindow == [] {
        assert recorded == [];
        return EMPTY_SNAPSHOT;
      }
      if dirty {
        var p90, summary := Recomputed(rttWindow, recorded, windowSize);
        cachedSnapshot := Some(summary);
        cachedP90 := Some(p90);
        dirty := false;
        summarized := recorded;
      }
      snapshot := if cachedSnapshot.Some? then cachedSnapshot.value else EMPTY_SNAPSHOT;
    }
  }

  /** How a snapshot lapses: once a timeout has been computed from the first sample, the snapshot is the empty one. */
  method SnapshotAfterTimeout(rttMs: nat, min: u64, max: u64, multiplier: real, windowSize: nat)
    returns (snapshot: RttSnapshot)
    requires windowSize >= 1 && min <= max
    ensures snapshot == EMPTY_SNAPSHOT
  {
    var timeouts := new AdaptiveTimeout(min, max, multiplier, windowSize);
    timeouts.Record(rttMs);
    var _ := timeouts.TimeoutMs();
    snapshot := timeouts.Snapshot();
    assert Opened(Summaries, true);
  }

  /** The timeout a window calls for, from scratch. */
  function TimeoutFor(window: seq<nat>, min: u64, max: u64, multiplier: real): (timeout: nat)
    requires min <= max
    ensures min <= timeout <= max
  {
    if window == [] then min else Clamp(Scaled(P90(window), multiplier), min, max)
  }

  lemma ScaledAtLeast(p90: u64, multiplier: real)
    requires multiplier >= 1.0
    ensures Scaled(p90, multiplier) >= p90
  {
    assert p90 as real * multiplier == p90 as real + p90 as real * (multiplier - 1.0);
    assert 0.0 <= p90 as real * (multiplier - 1.0);
    RealToU64Monotone(p90 as real, p90 as real * multiplier);
  }

  /** A multiplier of at least one, and a cap that allows it, cover at least ceil(0.9 n) of the window's samples. */
  lemma {:induction false} TimeoutCoversTheRank(window: seq<nat>, min: u64, max: u64, multiplier: real)
    requires min <= max && window != [] && multiplier >= 1.0
    requires P90(window) <= max
    ensures CountAtMost(window, TimeoutFor(window, min, max, multiplier)) >= Rank90(|window|)
  {
    var p90 := P90(window);
    P90IsTheRank(window);
    ScaledAtLeast(p90, multiplier);
    CountAtMostGrows(window, p90, TimeoutFor(window, min, max, multiplier));
  }

  lemma {:induction false} CountAtMostGrows(s: seq<nat>, v: nat, w: nat)
    requires v <= w
    ensures CountAtMost(s, v) <= CountAtMost(s, w)
  {
    if s != [] {
      CountAtMostGrows(s[1..], v, w);
    }
  }
}
