/** Heartbeat bookkeeping of one session: ping ticks, pongs, and when a silent peer is given up. */
module Heartbeat {
  import opened Prelude
  import opened Percentile
  import opened WsTypes

  const MAX_SAMPLES: nat := 20

  // ------------------------------------------------------------- the logic of ticks and pongs, on values

  /**
   * `lastPong` is when the last pong arrived, `missed` the ticks unanswered in a row, `waiting` a ping in flight, and
   * `pingSentAt` when the last ping not yet answered was sent.
   */
  datatype Beat = Beat(lastPong: Option<nat>, missed: nat, waiting: bool, pingSentAt: Option<nat>)

  const FRESH := Beat(None, 0, false, None)

  datatype Signal = Tick(at: nat) | Pong(at: nat)

  predicate TimedOut(config: HeartbeatConfig, b: Beat, now: nat) {
    b.lastPong.Some? && b.lastPong.value <= now && now - b.lastPong.value > config.pongTimeoutMs
  }

  /** None: this tick gives the connection up. */
  function TickStep(config: HeartbeatConfig, b: Beat, now: nat): Option<Beat> {
    if !b.waiting then Some(b.(waiting := true, pingSentAt := Some(now)))
    else if TimedOut(config, b, now) || b.missed + 1 >= config.maxMissedPongs then None
    else Some(b.(missed := b.missed + 1, waiting := true, pingSentAt := Some(now)))
  }

  function PongStep(b: Beat, now: nat): Beat {
    Beat(Some(now), 0, false, None)
  }

  /** Measured from the last ping not yet answered. */
  function RoundTrip(b: Beat, now: nat): nat {
    if b.pingSentAt.Some? && b.pingSentAt.value <= now then now - b.pingSentAt.value else 0
  }

  function OnSignal(config: HeartbeatConfig, b: Beat, s: Signal): Option<Beat> {
    match s
    case Tick(now) => TickStep(config, b, now)
    case Pong(now) => Some(PongStep(b, now))
  }

  /** The state after a run of signals, or None once one of them gave the connection up. */
  function AfterSignals(config: HeartbeatConfig, signals: seq<Signal>): Option<Beat> {
    if signals == [] then Some(FRESH)
    else
      var before := AfterSignals(config, signals[..|signals| - 1]);
      if before.None? then None else OnSignal(config, before.value, signals[|signals| - 1])
  }

  /** Every ping is answered before the next tick. */
  predicate Responsive(signals: seq<Signal>) {
    forall i :: 0 < i < |signals| && signals[i].Tick? ==> signals[i - 1].Pong?
  }

  /** A connection whose every ping is answered before the next tick is never given up, whatever the delays. */
  lemma {:induction false} ResponsivePeerIsKept(config: HeartbeatConfig, signals: seq<Signal>)
    requires Responsive(signals)
    ensures AfterSignals(config, signals).Some?
    ensures signals != [] ==> AfterSignals(config, signals).value.waiting == signals[|signals| - 1].Tick?
  {
    if signals != [] {
      ResponsivePeerIsKept(config, signals[..|signals| - 1]);
    }
  }

  predicate AllTicks(signals: seq<Signal>) {
    forall i :: 0 <= i < |signals| ==> signals[i].Tick?
  }

  /** In silence the count of missed pongs is one behind the ticks; only the quick pong timeout can act sooner. */
  lemma {:induction false} SilenceIsCounted(config: HeartbeatConfig, signals: seq<Signal>, ticks: seq<Signal>)
    requires signals == [] || signals[|signals| - 1].Pong?
    requires AllTicks(ticks) && ticks != []
    requires AfterSignals(config, signals + ticks).Some?
    ensures AfterSignals(config, signals).Some?
    ensures var b := AfterSignals(config, signals + ticks).value;
            b.waiting && b.missed == |ticks| - 1 && (|ticks| > 1 ==> b.missed < config.maxMissedPongs)
  {
    var front := ticks[..|ticks| - 1];
    assert (signals + ticks)[..|signals + ticks| - 1] == signals + front;
    assert (signals + ticks)[|signals + ticks| - 1] == ticks[|ticks| - 1];
    if front == [] {
      assert signals + front == signals;
    } else {
      SilenceIsCounted(config, signals, front);
    }
  }

  /** A peer silent since its last pong, or from the start, is given up by tick max(1, max_missed_pongs) + 1. */
  lemma SilentPeerIsDropped(config: HeartbeatConfig, signals: seq<Signal>, ticks: seq<Signal>)
    requires signals == [] || signals[|signals| - 1].Pong?
    requires AllTicks(ticks) && |ticks| >= Max(1, config.maxMissedPongs) + 1
    ensures AfterSignals(config, signals + ticks).None?
  {
    if AfterSignals(config, signals + ticks).Some? {
      SilenceIsCounted(config, signals, ticks);
    }
  }

  /** No tick is later than the pong timeout after the last pong. */
  predicate WithinTimeout(config: HeartbeatConfig, signals: seq<Signal>, ticks: seq<Signal>) {
    signals != [] ==>
      forall i :: 0 <= i < |ticks| ==> ticks[i].at <= signals[|signals| - 1].at + config.pongTimeoutMs
  }

  /**
   * While the pong timeout has not passed, a peer silent since its last pong, or from the start, is kept for exactly
   * max(1, max_missed_pongs) ticks.
   */
  lemma {:induction false} SilentPeerIsKeptUntil(config: HeartbeatConfig, signals: seq<Signal>, ticks: seq<Signal>)
    requires signals == [] || signals[|signals| - 1].Pong?
    requires AfterSignals(config, signals).Some?
    requires AllTicks(ticks) && WithinTimeout(config, signals, ticks)
    ensures AfterSignals(config, signals + ticks).Some? <==> |ticks| <= Max(1, config.maxMissedPongs)
  {
    if |ticks| > Max(1, config.maxMissedPongs) {
      SilentPeerIsDropped(config, signals, ticks);
    } else {
      SilenceIsBorne(config, signals, ticks);
    }
  }

  lemma {:induction false} SilenceIsBorne(config: HeartbeatConfig, signals: seq<Signal>, ticks: seq<Signal>)
    requires signals == [] || signals[|signals| - 1].Pong?
    requires AfterSignals(config, signals).Some?
    requires AllTicks(ticks) && WithinTimeout(config, signals, ticks) && |ticks| <= Max(1, config.maxMissedPongs)
    ensures var b := AfterSignals(config, signals + ticks);
            && b.Some?
            && b.value.lastPong == (if signals == [] then None else Some(signals[|signals| - 1].at))
            && b.value.waiting == (ticks != []) && b.value.missed == Max(0, |ticks| - 1)
  {
    if ticks == [] {
      assert signals + ticks == signals;
    } else {
      var front := ticks[..|ticks| - 1];
      assert (signals + ticks)[..|signals + ticks| - 1] == signals + front;
      assert (signals + ticks)[|signals + ticks| - 1] == ticks[|ticks| - 1];
      SilenceIsBorne(config, signals, front);
    }
  }

  // ------------------------------------------------------------- the manager and its per-session state

  class HeartbeatManager {
    const config: HeartbeatConfig
    var lastPong: Option<nat>
    var missedPongs: nat
    var rttSamples: seq<nat>
    var cachedP90: Option<nat>
    var dirty: bool
    ghost var received: seq<nat>      // every round-trip time ever reported

    ghost predicate Valid()
      reads this
    {
      && rttSamples == LastOf(received, MAX_SAMPLES)
      && (rttSamples != [] && !dirty ==> cachedP90 == Some(P90(rttSamples)))
    }

    constructor (config: HeartbeatConfig)
      ensures this.config == config && Valid() && received == []
      ensures lastPong == None && missedPongs == 0
    {
      this.config := config;
      lastPong := None;
      missedPongs := 0;
      rttSamples := [];
      cachedP90 := None;
      dirty := false;
      received := [];
    }

    method OnPong(rttMs: nat, now: nat)
      requires Valid()
      modifies this
      ensures Valid() && received == old(received) + [rttMs]
      ensures lastPong == Some(now) && missedPongs == 0
    {
      lastPong := Some(now);
      missedPongs := 0;
      if |rttSamples| >= MAX_SAMPLES {
        rttSamples := rttSamples[1..];
      }
      rttSamples := rttSamples + [rttMs];
      dirty := true;
      received := received + [rttMs];
    }

    method IsTimedOut(now: nat) returns (timedOut: bool)
      requires lastPong.Some? ==> lastPong.value <= now
      ensures forall missed, waiting, sent :: timedOut == TimedOut(config, Beat(lastPong, missed, waiting, sent), now)
    {
      if lastPong.Some? {
        var elapsed := now - lastPong.value;
        timedOut := elapsed > config.pongTimeoutMs;
      } else {
        timedOut := false;
      }
    }

    method OnMissedPong()
      modifies this`missedPongs
      ensures missedPongs == old(missedPongs) + 1
    {
      missedPongs := missedPongs + 1;
    }

    predicate IsMissedPongsExceeded()
      reads this
    {
      missedPongs >= config.maxMissedPongs
    }

    /** The P90 of exactly the last twenty round-trip times, however often it was asked before. */
    method P90Rtt() returns (p90: Option<nat>)
      requires Valid()
      modifies this`cachedP90, this`dirty
      ensures Valid()
      ensures p90 == if received == [] then None else Some(P90(LastOf(received, MAX_SAMPLES)))
    {
      if rttSamples == [] {
        return None;
      }
      if dirty {
        var sorted := Sorted(rttSamples);
        var index := Min(Rank90(|sorted|) - 1, |sorted| - 1);
        cachedP90 := Some(sorted[index]);
        dirty := false;
      }
      p90 := cachedP90;
    }

    /** Adaptive: twice the P90, but never below the configured interval; fixed otherwise. */
    method IntervalMs() returns (interval: nat)
      requires Valid()
      modifies this`cachedP90, this`dirty
      ensures Valid()
      ensures interval == if config.adaptive && received != []
                          then Max(Min(2 * P90(LastOf(received, MAX_SAMPLES)), U64_MODULUS - 1), config.intervalMs)
                          else config.intervalMs
    {
      interval := config.intervalMs;
      if config.adaptive {
        var p90 := P90Rtt();
        if p90.Some? {
          interval := Max(Min(2 * p90.value, U64_MODULUS - 1), config.intervalMs);
        }
      }
    }
  }

  /** What the session loop keeps beside the manager. */
  class HeartbeatState {
    const mgr: HeartbeatManager
    var waitingForPong: bool
    var pingSentAt: Option<nat>
    var clock: nat                    // the time of the last signal; time does not run backwards

    ghost predicate Valid()
      reads this, mgr
    {
      && mgr.Valid()
      && (mgr.lastPong.Some? ==> mgr.lastPong.value <= clock)
      && (pingSentAt.Some? ==> pingSentAt.value <= clock)
    }

    ghost function Value(): Beat
      reads this, mgr
    {
      Beat(mgr.lastPong, mgr.missedPongs, waitingForPong, pingSentAt)
    }

    constructor (config: HeartbeatConfig)
      ensures fresh(mgr) && mgr.config == config
      ensures Valid() && Value() == FRESH && clock == 0
    {
      mgr := new HeartbeatManager(config);
      waitingForPong := false;
      pingSentAt := None;
      clock := 0;
    }

    /** The heartbeat branch of the select loop, up to the point where the ping is sent. */
    method OnTick(now: nat) returns (givenUp: bool)
      requires Valid() && clock <= now
      modifies this, mgr
      ensures Valid() && clock == now
      ensures givenUp <==> TickStep(mgr.config, old(Value()), now).None?
      ensures !givenUp ==> Value() == TickStep(mgr.config, old(Value()), now).value
    {
      clock := now;
      if waitingForPong {
        var late := mgr.IsTimedOut(now);
        if late {
          return true;
        }
        mgr.OnMissedPong();
        if mgr.IsMissedPongsExceeded() {
          return true;
        }
      }
      waitingForPong := true;
      pingSentAt := Some(now);
      givenUp := false;
    }

    /** A pong frame: the round trip is measured from the last ping not yet answered. */
    method OnPong(now: nat) returns (rttMs: nat)
      requires Valid() && clock <= now
      modifies this, mgr
      ensures Valid() && clock == now
      ensures Value() == PongStep(old(Value()), now)
      ensures rttMs == RoundTrip(old(Value()), now) && mgr.received == old(mgr.received) + [rttMs]
    {
      rttMs := if pingSentAt.Some? then now - pingSentAt.value else 0;
      clock := now;
      pingSentAt := None;
      mgr.OnPong(rttMs, now);
      waitingForPong := false;
    }
  }
}
