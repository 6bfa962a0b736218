/**
 Which of the two limits of a post ends it: the number of attempts or the 45
 seconds. The sleeps between attempts decide.
 */
module PostTiming {
  import opened Backoff
  import opened FifoPost

  /**
   The elapsed times of successive conflicts, when the clock advances by at least
   every sleep. Readings are whole seconds, so a difference of two may fall short
   of the time that passed by less than one.
   */
  ghost predicate Paced(conflicts: seq<int>, maxAttempts: nat, maxSleep: real)
    requires maxAttempts > 0
  {
    forall i | 0 <= i < |conflicts| :: OnPace(conflicts, i, maxAttempts, maxSleep)
  }

  predicate OnPace(conflicts: seq<int>, i: nat, maxAttempts: nat, maxSleep: real)
    requires i < |conflicts| && maxAttempts > 0
  {
    conflicts[i] as real > TotalBaseline(i, maxAttempts, maxSleep) - 1.0
  }

  /** The shortest elapsed times that pacing allows. */
  function Quickest(n: nat, maxAttempts: nat, maxSleep: real): (conflicts: seq<int>)
    requires maxAttempts > 0
    ensures |conflicts| == n
  {
    seq(n, i requires 0 <= i < n => TotalBaseline(i, maxAttempts, maxSleep).Floor)
  }

  /**
   All attempts of a post can be used up within its time exactly when the sleeps
   before the last attempt take less than 46 seconds.
   */
  lemma AttemptsUsableIff(maxAttempts: nat, maxSleep: real)
    requires maxAttempts > 0 && maxSleep >= 0.0
    ensures (exists conflicts: seq<int> | |conflicts| == maxAttempts ::
               InTime(conflicts) && Paced(conflicts, maxAttempts, maxSleep))
            <==> TotalBaseline(maxAttempts - 1, maxAttempts, maxSleep) < 46.0
  {
    var last := maxAttempts - 1;
    if TotalBaseline(last, maxAttempts, maxSleep) < 46.0 {
      var conflicts := Quickest(maxAttempts, maxAttempts, maxSleep);
      forall i | 0 <= i < |conflicts|
        ensures conflicts[i] <= MAX_RETRY_POST_DURATION && OnPace(conflicts, i, maxAttempts, maxSleep)
      {
        TotalGrows(i, last, maxAttempts, maxSleep);
      }
      assert InTime(conflicts) && Paced(conflicts, maxAttempts, maxSleep);
    } else {
      forall conflicts: seq<int> | |conflicts| == maxAttempts && Paced(conflicts, maxAttempts, maxSleep)
        ensures !InTime(conflicts)
      {
        assert OnPace(conflicts, last, maxAttempts, maxSleep);
        assert conflicts[last] > MAX_RETRY_POST_DURATION;
      }
    }
  }

  /**
   With the default configuration the attempts are never used up: a post that
   raises MessageConflict has run out of time, after at most 961 attempts.
   */
  lemma DefaultsRunOutOfTime(conflicts: seq<int>)
    requires Paced(conflicts, 1000, 0.1) && GaveUp(conflicts, 1000)
    ensures 0 < |conflicts| <= 961 && conflicts[|conflicts| - 1] > MAX_RETRY_POST_DURATION
  {
    DefaultStallTime();
    if |conflicts| > 960 {
      assert OnPace(conflicts, 960, 1000, 0.1);
      assert conflicts[960] > MAX_RETRY_POST_DURATION;
    }
  }
}
