/** The waits a worker programs into its timer, as a function of the outcomes of its collections. */
module Backoff {
  import opened Types
  import opened WorkerLog

  const MILLISECOND := 1_000_000
  const SECOND := 1_000_000_000

  function Pow4(n: nat): nat {
    if n == 0 then 1 else 4 * Pow4(n - 1)
  }

  function TrailingFailures(h: seq<bool>): nat {
    if h == [] || h[|h| - 1] then 0 else 1 + TrailingFailures(h[..|h| - 1])
  }

  lemma {:induction false} TrailingFailuresIsSuffix(h: seq<bool>)
    ensures FailingSuffix(h, TrailingFailures(h))
  {
    if h != [] && !h[|h| - 1] {
      TrailingFailuresIsSuffix(h[..|h| - 1]);
    }
  }

  /** The configuration a worker takes its waits from; intervals in the units of the configuration file. */
  datatype Timing = Timing(retryIntervalMs: int, maxRetries: int, collectIntervalSeconds: int)

  /** The wait after the last outcome of `h`, in nanoseconds; none if the worker gives up there. */
  function DelayAfter(t: Timing, h: seq<bool>): seq<int>
    requires h != []
  {
    if h[|h| - 1] then [t.collectIntervalSeconds * SECOND]
    else if TrailingFailures(h) <= t.maxRetries then [Pow4(TrailingFailures(h)) * t.retryIntervalMs * MILLISECOND]
    else []
  }

  /** All waits, in order. */
  function Delays(t: Timing, h: seq<bool>): seq<int> {
    if h == [] then [] else Delays(t, h[..|h| - 1]) + DelayAfter(t, h)
  }

  lemma DelaysSnoc(t: Timing, h: seq<bool>, ok: bool)
    ensures Delays(t, h + [ok]) == Delays(t, h) +
              if ok then [t.collectIntervalSeconds * SECOND]
              else if TrailingFailures(h) + 1 <= t.maxRetries
              then [Pow4(TrailingFailures(h) + 1) * t.retryIntervalMs * MILLISECOND]
              else []
  {
    assert (h + [ok])[..|h|] == h;
  }

  function Sum(xs: seq<int>): int {
    if xs == [] then 0 else Sum(xs[..|xs| - 1]) + xs[|xs| - 1]
  }

  /** In a failing burst of length n the waits are retryInterval * 4^k for k = 1..n. */
  lemma {:induction false} BurstWaits(t: Timing, h: seq<bool>, n: nat)
    requires FailingSuffix(h, n) && n <= t.maxRetries
    ensures n <= |Delays(t, h)|
    ensures forall k :: 1 <= k <= n ==>
              Delays(t, h)[|Delays(t, h)| - n + k - 1] == Pow4(k) * t.retryIntervalMs * 1_000_000
  {
    if n > 0 {
      var init := h[..|h| - 1];
      assert FailingSuffix(init, n - 1);
      BurstWaits(t, init, n - 1);
      TrailingFailuresIsSuffix(h);
      FailingSuffixUnique(h, n, TrailingFailures(h));
    }
  }

  /** After a success the wait is the collect interval in seconds, whatever came before. */
  lemma SuccessWait(t: Timing, h: seq<bool>)
    ensures Delays(t, h + [true]) == Delays(t, h) + [t.collectIntervalSeconds * 1_000_000_000]
  {
    DelaysSnoc(t, h, true);
  }

  /** After a failure that is not the last one allowed the next power of four, after that one nothing. */
  lemma FailureWait(t: Timing, h: seq<bool>, n: nat)
    requires FailingSuffix(h, n)
    ensures Delays(t, h + [false]) == Delays(t, h) +
              if n + 1 <= t.maxRetries then [Pow4(n + 1) * t.retryIntervalMs * 1_000_000] else []
  {
    TrailingFailuresIsSuffix(h);
    FailingSuffixUnique(h, n, TrailingFailures(h));
    DelaysSnoc(t, h, false);
  }

  lemma {:induction false} GeometricSum(xs: seq<int>, unit: int)
    requires forall k :: 1 <= k <= |xs| ==> xs[k - 1] == Pow4(k) * unit
    ensures 3 * Sum(xs) == unit * (Pow4(|xs| + 1) - 4)
  {
    if xs != [] {
      var n := |xs|;
      GeometricSum(xs[..n - 1], unit);
      assert xs[n - 1] == Pow4(n) * unit;
      assert 3 * (Pow4(n) * unit) == unit * (3 * Pow4(n));
      assert unit * (Pow4(n) - 4) + unit * (3 * Pow4(n)) == unit * (4 * Pow4(n) - 4);
    }
  }

  lemma MulAssoc(a: int, b: int)
    ensures a * b * MILLISECOND == a * (b * MILLISECOND)
  {
  }

  /** The waits of a failing burst of length n add up to retryInterval * (4^(n+1) - 4) / 3. */
  lemma BurstTotal(t: Timing, h: seq<bool>, n: nat)
    requires FailingSuffix(h, n) && n <= t.maxRetries
    ensures n <= |Delays(t, h)|
    ensures 3 * Sum(Delays(t, h)[|Delays(t, h)| - n..]) == t.retryIntervalMs * 1_000_000 * (Pow4(n + 1) - 4)
  {
    BurstWaits(t, h, n);
    var waits := Delays(t, h);
    var burst := waits[|waits| - n..];
    var unit := t.retryIntervalMs * MILLISECOND;
    forall k | 1 <= k <= n
      ensures burst[k - 1] == Pow4(k) * unit
    {
      assert burst[k - 1] == waits[|waits| - n + k - 1];
      MulAssoc(Pow4(k), t.retryIntervalMs);
    }
    GeometricSum(burst, unit);
  }

  lemma {:induction false} Pow4Monotone(m: nat, n: nat)
    requires m <= n
    ensures 1 <= Pow4(m) <= Pow4(n)
  {
    if m < n {
      Pow4Monotone(m, n - 1);
    } else if m > 0 {
      Pow4Monotone(m - 1, n - 1);
    }
  }

  /** The ranges that the configuration admits. */
  predicate InConfigRanges(t: Timing) {
    && 0 <= t.retryIntervalMs <= 10_000
    && 0 <= t.maxRetries <= 10
    && 0 <= t.collectIntervalSeconds <= 3600
  }

  /** Within the configured ranges no wait overflows a signed 64-bit count of nanoseconds, after any history. */
  lemma {:induction false} WaitsFitInt64(t: Timing, h: seq<bool>)
    requires InConfigRanges(t)
    ensures forall i :: 0 <= i < |Delays(t, h)| ==> 0 <= Delays(t, h)[i] < INT64_LIMIT
  {
    if h != [] {
      WaitsFitInt64(t, h[..|h| - 1]);
      var k := TrailingFailures(h);
      if !h[|h| - 1] && k <= t.maxRetries {
        Pow4Monotone(k, 10);
        assert Pow4(10) == 1_048_576 by {
          assert Pow4(5) == 1024;
        }
        assert 0 <= Pow4(k) * t.retryIntervalMs <= 1_048_576 * 10_000;
      }
    }
  }
}
