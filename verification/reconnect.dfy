/** The reconnect manager: attempt counting and exponential backoff. */
module Reconnect {
  import opened Prelude

  datatype ReconnectConfig = ReconnectConfig(
    initialDelayMs: u64,
    maxDelayMs: u64,
    backoffMultiplier: real,
    maxAttempts: nat
  )

  datatype LinkState = Disconnected | Connecting | Connected | Reconnecting

  function Power(base: real, exponent: nat): real {
    if exponent == 0 then 1.0 else base * Power(base, exponent - 1)
  }

  /** The delay announced for the n-th attempt since the last reset. */
  function BackoffDelay(config: ReconnectConfig, n: nat): (delay: u64)
    requires n >= 1
    ensures delay <= config.maxDelayMs
  {
    CappedDelay(config, Power(config.backoffMultiplier, n - 1))
  }

  function CappedDelay(config: ReconnectConfig, factor: real): (delay: u64)
    ensures delay <= config.maxDelayMs
  {
    Min(config.maxDelayMs, RealToU64(config.initialDelayMs as real * factor))
  }

  lemma CappedDelayMonotone(config: ReconnectConfig, a: real, b: real)
    requires a <= b
    ensures CappedDelay(config, a) <= CappedDelay(config, b)
  {
    var k := config.initialDelayMs as real;
    ScaleMonotone(k, a, b);
    RealToU64Monotone(k * a, k * b);
  }

  lemma FirstDelay(config: ReconnectConfig)
    ensures BackoffDelay(config, 1) == Min(config.maxDelayMs, config.initialDelayMs)
  {
    assert config.initialDelayMs as real * 1.0 == config.initialDelayMs as real;
  }

  lemma ScaleMonotone(k: real, a: real, b: real)
    requires 0.0 <= k && a <= b
    ensures k * a <= k * b
  {
    assert 0.0 <= k * (b - a);
  }

  lemma {:induction false} PowerMonotone(base: real, i: nat, j: nat)
    requires base >= 1.0 && i <= j
    ensures 1.0 <= Power(base, i) <= Power(base, j)
  {
    if i == 0 && j > 0 {
      PowerMonotone(base, 0, j - 1);
      ScaleMonotone(base, 1.0, Power(base, j - 1));
    } else if i > 0 {
      PowerMonotone(base, i - 1, j - 1);
      ScaleMonotone(base, 1.0, Power(base, i - 1));
      ScaleMonotone(base, Power(base, i - 1), Power(base, j - 1));
    }
  }

  /** With a multiplier of at least one, later attempts never wait less. */
  lemma BackoffNeverShrinks(config: ReconnectConfig, m: nat, n: nat)
    requires config.backoffMultiplier >= 1.0
    requires 1 <= m <= n
    ensures BackoffDelay(config, m) <= BackoffDelay(config, n)
  {
    PowerMonotone(config.backoffMultiplier, m - 1, n - 1);
    CappedDelayMonotone(config, Power(config.backoffMultiplier, m - 1), Power(config.backoffMultiplier, n - 1));
  }

  class ReconnectManager {
    const config: ReconnectConfig
    var state: LinkState
    var attempt: nat
    var currentDelayMs: u64

    constructor (config: ReconnectConfig)
      ensures this.config == config
      ensures state == Disconnected && attempt == 0 && currentDelayMs == 0
    {
      this.config := config;
      state := Disconnected;
      attempt := 0;
      currentDelayMs := 0;
    }

    method OnConnecting()
      modifies this`state
      ensures state == Connecting
    {
      state := Connecting;
    }

    /** Announces the next attempt, or None once the attempts are used up. */
    method OnDisconnect() returns (delay: Option<u64>)
      modifies this
      ensures attempt == old(attempt) + 1
      ensures delay.Some? <==> attempt <= config.maxAttempts
      ensures delay.Some? ==>
                state == Reconnecting && delay.value == currentDelayMs == BackoffDelay(config, attempt)
      ensures delay.None? ==> state == Disconnected && currentDelayMs == old(currentDelayMs)
    {
      attempt := attempt + 1;
      if attempt > config.maxAttempts {
        state := Disconnected;
        return None;
      }
      state := Reconnecting;
      if attempt == 1 {
        currentDelayMs := config.initialDelayMs;
        FirstDelay(config);
      } else {
        currentDelayMs := RealToU64(config.initialDelayMs as real * Power(config.backoffMultiplier, attempt - 1));
      }
      if currentDelayMs > config.maxDelayMs {
        currentDelayMs := config.maxDelayMs;
      }
      delay := Some(currentDelayMs);
    }

    method OnConnected()
      modifies this
      ensures state == Connected && attempt == 0 && currentDelayMs == 0
    {
      state := Connected;
      attempt := 0;
      currentDelayMs := 0;
    }

    method Reset()
      modifies this`attempt, this`currentDelayMs
      ensures attempt == 0 && currentDelayMs == 0
    {
      attempt := 0;
      currentDelayMs := 0;
    }

    predicate IsExhausted()
      reads this
    {
      state == Disconnected && attempt > 0
    }
  }
}
