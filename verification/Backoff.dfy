/** The linear backoff between attempts of a post, over exact numbers. */
module Backoff {

  datatype Sleep = ValueError | Seconds(value: real)

  /** `calculate_backoff`; `draw` is the random number in [0, 1). */
  function CalculateBackoff(attempt: int, maxAttempts: int, maxSleep: real, maxJitter: real, draw: real): (r: Sleep)
    ensures r.ValueError? <==> maxSleep < 0.0 || maxJitter < 0.0 || !(0 <= attempt < maxAttempts)
    ensures r.Seconds? && 0.0 <= draw < 1.0 ==>
              && 0.0 <= r.value <= maxSleep + maxJitter
              && (maxSleep > 0.0 || maxJitter > 0.0 ==> r.value < maxSleep + maxJitter)
  {
    if maxSleep < 0.0 || maxJitter < 0.0 || !(0 <= attempt < maxAttempts) then ValueError
    else
      BaselineBelowMax(attempt, maxAttempts, maxSleep);
      ShareBelowMax(maxJitter, draw);
      Seconds(Baseline(attempt, maxAttempts, maxSleep) + Share(maxJitter, draw))
  }

  function Share(max: real, ratio: real): real {
    ratio * max
  }

  lemma ShareBelowMax(max: real, ratio: real)
    requires max >= 0.0
    ensures 0.0 <= ratio < 1.0 ==>
              0.0 <= Share(max, ratio) <= max && (max > 0.0 ==> Share(max, ratio) < max)
  {
    if 0.0 <= ratio < 1.0 && max > 0.0 {
      assert 0.0 * max <= ratio * max < 1.0 * max;
    }
  }

  lemma BaselineBelowMax(attempt: nat, maxAttempts: nat, maxSleep: real)
    requires attempt < maxAttempts && maxSleep >= 0.0
    ensures 0.0 <= Baseline(attempt, maxAttempts, maxSleep) <= maxSleep
    ensures maxSleep > 0.0 ==> Baseline(attempt, maxAttempts, maxSleep) < maxSleep
  {
    var ratio := attempt as real / maxAttempts as real;
    assert 0.0 <= ratio < 1.0;
    ShareBelowMax(maxSleep, ratio);
    assert Baseline(attempt, maxAttempts, maxSleep) == Share(maxSleep, ratio);
  }

  function Baseline(attempt: nat, maxAttempts: nat, maxSleep: real): real
    requires maxAttempts > 0
  {
    attempt as real / maxAttempts as real * maxSleep
  }

  /** The baseline slept before jitter over the first n attempts. */
  function TotalBaseline(n: nat, maxAttempts: nat, maxSleep: real): real
    requires maxAttempts > 0
  {
    if n == 0 then 0.0 else TotalBaseline(n - 1, maxAttempts, maxSleep) + Baseline(n - 1, maxAttempts, maxSleep)
  }

  lemma {:induction false} TotalClosedForm(n: nat, maxAttempts: nat, maxSleep: real)
    requires maxAttempts > 0
    ensures TotalBaseline(n, maxAttempts, maxSleep) * maxAttempts as real * 2.0
            == maxSleep * n as real * (n as real - 1.0)
    decreases n
  {
    if n > 0 {
      TotalClosedForm(n - 1, maxAttempts, maxSleep);
      var a, b := TotalBaseline(n - 1, maxAttempts, maxSleep), Baseline(n - 1, maxAttempts, maxSleep);
      var m := maxAttempts as real;
      BaselineScaled(n - 1, maxAttempts, maxSleep);
      var x := n as real;
      assert (n - 1) as real == x - 1.0;
      calc {
        (a + b) * m * 2.0;
        a * m * 2.0 + b * m * 2.0;
        maxSleep * (x - 1.0) * (x - 2.0) + (x - 1.0) * maxSleep * 2.0;
        { Regroup(maxSleep, x); }
        maxSleep * x * (x - 1.0);
      }
    }
  }

  lemma BaselineScaled(attempt: nat, maxAttempts: nat, maxSleep: real)
    requires maxAttempts > 0
    ensures Baseline(attempt, maxAttempts, maxSleep) * maxAttempts as real == attempt as real * maxSleep
  {
    var q, m := attempt as real / maxAttempts as real, maxAttempts as real;
    assert q * m == attempt as real;
    assert q * maxSleep * m == q * m * maxSleep;
  }

  lemma Regroup(s: real, x: real)
    ensures s * (x - 1.0) * (x - 2.0) + (x - 1.0) * s * 2.0 == s * x * (x - 1.0)
  {
  }

  /**
   If all N attempts fail, the sleeps before jitter add up to exactly
   max_sleep * (N - 1) / 2.
   */
  lemma TotalStall(maxAttempts: nat, maxSleep: real)
    requires maxAttempts > 0
    ensures TotalBaseline(maxAttempts, maxAttempts, maxSleep) == maxSleep * (maxAttempts as real - 1.0) / 2.0
  {
    TotalClosedForm(maxAttempts, maxAttempts, maxSleep);
    var t, m := TotalBaseline(maxAttempts, maxAttempts, maxSleep), maxAttempts as real;
    var u := maxSleep * (m - 1.0);
    assert t * m * 2.0 == maxSleep * m * (m - 1.0);
    assert maxSleep * m * (m - 1.0) == u * m;
    Cancel(t * 2.0, u, m);
  }

  lemma {:induction false} TotalGrows(n: nat, m: nat, maxAttempts: nat, maxSleep: real)
    requires n <= m <= maxAttempts && 0 < maxAttempts && maxSleep >= 0.0
    ensures 0.0 <= TotalBaseline(n, maxAttempts, maxSleep) <= TotalBaseline(m, maxAttempts, maxSleep)
    decreases m
  {
    if m > 0 {
      BaselineBelowMax(m - 1, maxAttempts, maxSleep);
      TotalGrows(if n < m then n else m - 1, m - 1, maxAttempts, maxSleep);
    }
  }

  lemma Cancel(a: real, b: real, m: real)
    requires m > 0.0 && a * m == b * m
    ensures a == b
  {
    assert (a - b) * m == 0.0;
  }

  /** With the default configuration all sleeps together would take 49.95 seconds; the 45
      seconds that a post may last are over well before. */
  lemma DefaultStallTime()
    ensures TotalBaseline(1000, 1000, 0.1) == 49.95
    ensures TotalBaseline(949, 1000, 0.1) < 45.0
    ensures 46.0 < TotalBaseline(960, 1000, 0.1)
  {
    TotalStall(1000, 0.1);
    TotalClosedForm(949, 1000, 0.1);
    TotalClosedForm(960, 1000, 0.1);
  }

  lemma JitterBound(attempt: nat, maxAttempts: nat, maxSleep: real, maxJitter: real, draw: real)
    requires attempt < maxAttempts && maxSleep >= 0.0 && maxJitter >= 0.0 && 0.0 <= draw < 1.0
    ensures var r := CalculateBackoff(attempt, maxAttempts, maxSleep, maxJitter, draw);
            r.Seconds?
            && Baseline(attempt, maxAttempts, maxSleep) <= r.value
            && r.value <= Baseline(attempt, maxAttempts, maxSleep) + maxJitter
  {
    ShareBelowMax(maxJitter, draw);
  }

  /** The sleep at a given draw, without divisions. */
  lemma SleepIs(attempt: nat, maxAttempts: nat, maxSleep: real, maxJitter: real, draw: real)
    requires attempt < maxAttempts && maxSleep >= 0.0 && maxJitter >= 0.0
    ensures var r, m := CalculateBackoff(attempt, maxAttempts, maxSleep, maxJitter, draw), maxAttempts as real;
            r.Seconds? && r.value * m == attempt as real * maxSleep + draw * maxJitter * m
  {
    BaselineScaled(attempt, maxAttempts, maxSleep);
    var b, j, m := Baseline(attempt, maxAttempts, maxSleep), draw * maxJitter, maxAttempts as real;
    assert (b + j) * m == b * m + j * m;
  }

  /** Everything slept over the first n attempts, jitter included. */
  function TotalSleep(n: nat, maxAttempts: nat, maxSleep: real, maxJitter: real, draws: nat -> real): real
    requires n <= maxAttempts && maxSleep >= 0.0 && maxJitter >= 0.0
  {
    if n == 0 then 0.0
    else TotalSleep(n - 1, maxAttempts, maxSleep, maxJitter, draws)
         + CalculateBackoff(n - 1, maxAttempts, maxSleep, maxJitter, draws(n - 1)).value
  }

  /** Jitter lengthens the whole stall by at most max_jitter per attempt, whatever is drawn. */
  lemma {:induction false} TotalSleepBounds(
    n: nat, maxAttempts: nat, maxSleep: real, maxJitter: real, draws: nat -> real)
    requires 0 < maxAttempts && n <= maxAttempts && maxSleep >= 0.0 && maxJitter >= 0.0
    requires forall i :: 0.0 <= draws(i) < 1.0
    ensures TotalBaseline(n, maxAttempts, maxSleep) <= TotalSleep(n, maxAttempts, maxSleep, maxJitter, draws)
    ensures TotalSleep(n, maxAttempts, maxSleep, maxJitter, draws)
            <= TotalBaseline(n, maxAttempts, maxSleep) + n as real * maxJitter
    decreases n
  {
    if n > 0 {
      TotalSleepBounds(n - 1, maxAttempts, maxSleep, maxJitter, draws);
      JitterBound(n - 1, maxAttempts, maxSleep, maxJitter, draws(n - 1));
      assert n as real * maxJitter == (n - 1) as real * maxJitter + maxJitter;
    }
  }
}
