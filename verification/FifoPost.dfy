/**
 `FIFOMessageController.post` as it is written: a retry loop over single
 database calls, with the steps of every other client interleaved between any
 two of them. Every execution is a run of the protocol in `Fifo`, so what is
 proved there about all runs holds of this method in every environment.
 */
module FifoPost {
  import opened Fifo
  import Order = FifoOrder

  const MAX_RETRY_POST_DURATION: int := 45

  datatype PostResult =
    | Posted(base: nat)      // the ids of the messages stored from marker base on
    | MessageConflict        // attempts or time exhausted
    | InvalidOperation       // an empty batch is refused by the database client

  /** All of these conflicts left time for another attempt. */
  predicate InTime(conflicts: seq<int>) {
    forall i | 0 <= i < |conflicts| :: conflicts[i] <= MAX_RETRY_POST_DURATION
  }

  /** The last conflict used up the attempts, or came too late, and no earlier one did. */
  predicate GaveUp(conflicts: seq<int>, maxAttempts: nat) {
    || (|conflicts| == maxAttempts && InTime(conflicts))
    || (0 < |conflicts| <= maxAttempts && InTime(conflicts[..|conflicts| - 1])
        && conflicts[|conflicts| - 1] > MAX_RETRY_POST_DURATION)
  }

  predicate Late(conflicts: seq<int>) {
    |conflicts| > 0 && conflicts[|conflicts| - 1] > 45
  }

  /** A conflict later than 45 seconds ends the call at once, and with attempts left nothing
      else makes it give up. */
  predicate Timed(r: PostResult, conflicts: seq<int>, maxAttempts: nat) {
    && (forall i | 0 <= i < |conflicts| - 1 :: conflicts[i] <= 45)
    && (Late(conflicts) ==> r.MessageConflict?)
    && (r.MessageConflict? && |conflicts| < maxAttempts ==> Late(conflicts))
  }

  lemma InTimeIsTimed(r: PostResult, conflicts: seq<int>, maxAttempts: nat)
    requires InTime(conflicts) && (r.MessageConflict? ==> |conflicts| == maxAttempts)
    ensures Timed(r, conflicts, maxAttempts) && !Late(conflicts)
  {
  }

  lemma Noted(conflicts: seq<int>, elapsed: int, maxAttempts: nat)
    requires InTime(conflicts) && |conflicts| < maxAttempts
    ensures elapsed <= MAX_RETRY_POST_DURATION ==> InTime(conflicts + [elapsed])
    ensures elapsed > MAX_RETRY_POST_DURATION ==>
              GaveUp(conflicts + [elapsed], maxAttempts) && Timed(MessageConflict, conflicts + [elapsed], maxAttempts)
  {
    assert (conflicts + [elapsed])[..|conflicts|] == conflicts;
  }

  /** A step taken by somebody else than post p. */
  predicate Foreign(p: PostId, step: Step) {
    match step
    case Remove(_) => true
    case Watch(_) => true
    case Observe(_, _) => true
    case _ => step.p != p
  }

  /** Nobody else moves p forward or touches its documents other than by removing them. */
  ghost predicate Untouched(s: State, t: State, p: PostId) {
    && (p in s.producers <==> p in t.producers)
    && (p in s.producers ==> t.producers[p] == s.producers[p])
    && (forall k | k in t.docs && t.docs[k].id.post == p :: k in s.docs && s.docs[k] == t.docs[k])
  }

  /** The steps of post p, in order. */
  function Own(history: seq<Step>, p: PostId): seq<Step> {
    if history == [] then []
    else
      var last := history[|history| - 1];
      Own(history[..|history| - 1], p) + (if Foreign(p, last) then [] else [last])
  }

  /** When the conflicts of post p happened. */
  function ConflictTicks(history: seq<Step>, when: seq<nat>, p: PostId): seq<nat>
    requires |when| == |history|
    decreases |history|
  {
    if history == [] then []
    else
      var m := |history| - 1;
      ConflictTicks(history[..m], when[..m], p) + (if history[m] == Duplicate(p) then [when[m]] else [])
  }

  lemma OwnSnoc(history: seq<Step>, when: seq<nat>, step: Step, at: nat, p: PostId)
    requires |when| == |history|
    ensures Own(history + [step], p) == Own(history, p) + (if Foreign(p, step) then [] else [step])
    ensures ConflictTicks(history + [step], when + [at], p)
         == ConflictTicks(history, when, p) + (if step == Duplicate(p) then [at] else [])
  {
    assert (history + [step])[..|history|] == history && (when + [at])[..|when|] == when;
  }

  lemma AbsentIsForeign(s: State, step: Step, p: PostId)
    requires Enabled(s, step) && p !in Next(s, step).producers
    ensures p !in s.producers && Foreign(p, step) && step != Duplicate(p)
  {
  }

  /** A post that has not begun has taken no step. */
  lemma {:induction false} NothingBefore(origin: nat, history: seq<Step>, when: seq<nat>, p: PostId)
    requires |when| == |history| && Possible(Init(origin), history)
    requires p !in After(Init(origin), history).producers
    ensures Own(history, p) == [] && ConflictTicks(history, when, p) == []
    decreases |history|
  {
    if history != [] {
      var m := |history| - 1;
      assert history == history[..m] + [history[m]];
      RunSnoc(Init(origin), history[..m], history[m]);
      AbsentIsForeign(After(Init(origin), history[..m]), history[m], p);
      NothingBefore(origin, history[..m], when[..m], p);
    }
  }

  /** The same step m times. */
  function Times(step: Step, m: nat): (s: seq<Step>)
    ensures |s| == m
  {
    if m == 0 then [] else Times(step, m - 1) + [step]
  }

  lemma OnceMore(before: seq<Step>, step: Step, m: nat)
    ensures before + Times(step, m) + [step] == before + Times(step, m + 1)
  {
  }

  lemma Grouped(before: seq<Step>, a: seq<Step>, b: seq<Step>)
    ensures before + a + b == before + (a + b)
  {
  }

  lemma Joined(before: seq<Step>, a: seq<Step>, b: seq<Step>, c: seq<Step>, d: seq<Step>)
    ensures before + a + b + c + d == before + (a + b + c + d)
  {
  }

  /** What the others make of the state, given what they try. */
  function AfterOthers(s: State, steps: seq<Step>, p: PostId): State
    decreases |steps|
  {
    if steps == [] then s
    else if Foreign(p, steps[0]) && Enabled(s, steps[0]) then AfterOthers(Next(s, steps[0]), steps[1..], p)
    else AfterOthers(s, steps[1..], p)
  }

  /** The time elapsed at each conflict, by the clock of a call that began at tick `start`. */
  ghost predicate Elapsed(conflicts: seq<int>, at: seq<nat>, clock: nat -> int, start: nat, tick: nat) {
    && |at| == |conflicts|
    && (forall i | 0 <= i < |at| :: start < at[i] <= tick && conflicts[i] == clock(at[i]) - clock(start))
    && (forall i, j | 0 <= i < j < |at| :: at[i] < at[j])
  }

  lemma ElapsedGrows(conflicts: seq<int>, at: seq<nat>, clock: nat -> int, start: nat, tick: nat, later: nat)
    requires Elapsed(conflicts, at, clock, start, tick) && start <= tick < later
    ensures Elapsed(conflicts + [clock(later) - clock(start)], at + [later], clock, start, later)
  {
  }

  lemma ElapsedStays(conflicts: seq<int>, at: seq<nat>, clock: nat -> int, start: nat, tick: nat, later: nat)
    requires Elapsed(conflicts, at, clock, start, tick) && tick <= later
    ensures Elapsed(conflicts, at, clock, start, later)
  {
  }

  class FifoMessageController {
    const origin: nat
    const maxAttempts: nat
    /** What the other clients try between the i-th and the next call of this worker. */
    const others: nat -> seq<Step>
    /** The worker's clock at its i-th call. */
    const clock: nat -> int
    /** How many replies in a row the connection loses at its i-th call. */
    const lost: nat -> nat

    var db: State
    var tick: nat
    ghost var history: seq<Step>
    ghost var when: seq<nat>

    ghost predicate Valid()
      reads this
    {
      Possible(Init(origin), history) && db == After(Init(origin), history) && |when| == |history|
    }

    /** The steps of post p so far, and when its conflicts happened. */
    ghost function Mine(p: PostId): seq<Step>
      reads this
    {
      Own(history, p)
    }

    ghost function Conflicts(p: PostId): seq<nat>
      reads this
      requires Valid()
    {
      ConflictTicks(history, when, p)
    }

    constructor (origin: nat, maxAttempts: nat, others: nat -> seq<Step>, clock: nat -> int, lost: nat -> nat)
      ensures Valid() && db == Init(origin) && history == []
      ensures this.origin == origin && this.maxAttempts == maxAttempts
      ensures this.others == others && this.clock == clock && this.lost == lost
    {
      this.origin, this.maxAttempts, this.others := origin, maxAttempts, others;
      this.clock, this.lost := clock, lost;
      db, tick, history, when := Init(origin), 0, [], [];
    }

    /** One atomic database operation. */
    method Do(step: Step, ghost p: PostId)
      requires Valid() && Enabled(db, step)
      modifies this
      ensures Valid() && db == Next(old(db), step) && history == old(history) + [step]
      ensures tick == old(tick)
      ensures Mine(p) == old(Mine(p)) + (if Foreign(p, step) then [] else [step])
      ensures Conflicts(p) == old(Conflicts(p)) + (if step == Duplicate(p) then [tick] else [])
    {
      RunSnoc(Init(origin), history, step);
      OwnSnoc(history, when, step, tick, p);
      db, history, when := Next(db, step), history + [step], when + [tick];
    }

    /** The other clients take whichever of their steps are possible. */
    method Interfere(p: PostId)
      requires Valid()
      modifies this
      ensures Valid() && old(history) <= history && tick == old(tick) + 1
      ensures db == AfterOthers(old(db), others(old(tick)), p) && Untouched(old(db), db, p)
      ensures Mine(p) == old(Mine(p)) && Conflicts(p) == old(Conflicts(p))
    {
      var steps := others(tick);
      tick := tick + 1;
      for i := 0 to |steps|
        invariant Valid() && old(history) <= history && tick == old(tick) + 1
        invariant AfterOthers(old(db), steps, p) == AfterOthers(db, steps[i..], p)
        invariant Untouched(old(db), db, p)
        invariant Mine(p) == old(Mine(p)) && Conflicts(p) == old(Conflicts(p))
      {
        assert steps[i..][0] == steps[i] && steps[i..][1..] == steps[i + 1..];
        if Foreign(p, steps[i]) && Enabled(db, steps[i]) {
          ForeignStepUntouched(db, steps[i], p);
          Do(steps[i], p);
        }
      }
    }

    /** `collection.insert(prepared_messages)`: document by document, stopping at a duplicate. */
    method InsertBatch(p: PostId) returns (ok: bool, ghost done: nat)
      requires Valid() && Alive(db, p) && db.producers[p].n > 0
      requires db.producers[p].phase.Inserting? && db.producers[p].phase.done == 0
      modifies this
      ensures Valid() && old(history) <= history && p in db.producers && tick > old(tick)
      ensures db.producers[p] == old(db.producers[p]).(
                phase := if ok then Inserted(old(db.producers[p].phase.base)) else Conflicted)
      ensures if ok then done == db.producers[p].n else done < db.producers[p].n
      ensures Mine(p) == old(Mine(p)) + Times(InsertDoc(p), done) + (if ok then [] else [Duplicate(p)])
      ensures Conflicts(p) == old(Conflicts(p)) + (if ok then [] else [tick])
    {
      var r := db.producers[p];
      var i := 0;
      while i < r.n
        invariant 0 <= i <= r.n && tick >= old(tick) + i
        invariant Valid() && old(history) <= history && p in db.producers
        invariant db.producers[p] == r.(phase := AfterInsert(r.phase.base, i, r.n))
        invariant Mine(p) == old(Mine(p)) + Times(InsertDoc(p), i) && Conflicts(p) == old(Conflicts(p))
      {
        var accepted := InsertOne(p, r.phase.base, i);
        if !accepted {
          return false, i;
        }
        OnceMore(old(Mine(p)), InsertDoc(p), i);
        i := i + 1;
      }
      ok, done := true, r.n;
    }

    /** The i-th document of the batch. */
    method InsertOne(p: PostId, base: nat, i: nat) returns (accepted: bool)
      requires Valid() && Alive(db, p) && db.producers[p].phase == Inserting(base, i) && i < db.producers[p].n
      modifies this
      ensures Valid() && old(history) <= history && p in db.producers && tick == old(tick) + 1
      ensures var r := old(db.producers[p]);
              db.producers[p] == r.(phase := if accepted then AfterInsert(base, i + 1, r.n) else Conflicted)
      ensures Mine(p) == old(Mine(p)) + [if accepted then InsertDoc(p) else Duplicate(p)]
      ensures Conflicts(p) == old(Conflicts(p)) + (if accepted then [] else [tick])
    {
      Interfere(p);
      accepted := Accepts(db, base + i, MsgId(p, i));
      Do(if accepted then InsertDoc(p) else Duplicate(p), p);
    }

    /** `collection.update({'tx': transaction}, ...)`: every document of the batch in turn. */
    method Finalise(p: PostId) returns (ghost steps: seq<Step>)
      requires Valid() && Alive(db, p) && db.producers[p].phase.Counted?
      modifies this
      ensures Valid() && old(history) <= history && p in db.producers && tick >= old(tick)
      ensures db.producers[p] == old(db.producers[p]) && NonePending(db, p)
      ensures Mine(p) == old(Mine(p)) + steps && (forall step | step in steps :: step.FinaliseDoc?)
      ensures Conflicts(p) == old(Conflicts(p))
    {
      var r := db.producers[p];
      var base := r.phase.base;
      steps := [];
      if r.n != 1 {
        for j := 0 to r.n
          invariant Valid() && old(history) <= history && p in db.producers && db.producers[p] == r
          invariant forall k | k in db.docs && db.docs[k].id.post == p && base <= k < base + j ::
                      !db.docs[k].pending
          invariant tick >= old(tick) && Mine(p) == old(Mine(p)) + steps && Conflicts(p) == old(Conflicts(p))
          invariant forall step | step in steps :: step.FinaliseDoc?
        {
          ghost var more := FinaliseOne(p, base + j);
          Grouped(old(Mine(p)), steps, more);
          steps := steps + more;
        }
      }
      CountedDocsInPlace(origin, history, p);
    }

    /** The document at k, if it is still there. */
    method FinaliseOne(p: PostId, k: nat) returns (ghost steps: seq<Step>)
      requires Valid() && Alive(db, p) && db.producers[p].phase.Counted?
      modifies this
      ensures Valid() && old(history) <= history && p in db.producers && tick == old(tick) + 1
      ensures db.producers[p] == old(db.producers[p])
      ensures k in db.docs && db.docs[k].id.post == p ==> !db.docs[k].pending
      ensures forall j | j in db.docs && db.docs[j].id.post == p && j != k ::
                j in old(db.docs) && old(db.docs)[j] == db.docs[j]
      ensures Mine(p) == old(Mine(p)) + steps && (steps == [] || steps == [FinaliseDoc(p, k)])
      ensures Conflicts(p) == old(Conflicts(p))
    {
      Interfere(p);
      steps := [];
      if k in db.docs && db.docs[k].id.post == p {
        Do(FinaliseDoc(p, k), p);
        steps := [FinaliseDoc(p, k)];
      }
    }

    /** The windowed `_inc_counter` while its replies are lost: a repeat usually misses the window. */
    method StallUnheard(p: PostId, now: int, losses: nat) returns (ghost m: nat)
      requires Valid() && Alive(db, p) && db.producers[p].phase.Conflicted?
      modifies this
      ensures Valid() && old(history) <= history && p in db.producers && tick >= old(tick)
      ensures db.producers[p] == old(db.producers[p])
      ensures Mine(p) == old(Mine(p)) + Times(StallLost(p, now), m) && Conflicts(p) == old(Conflicts(p))
    {
      m := 0;
      for i := 0 to losses
        invariant Valid() && old(history) <= history && p in db.producers && tick >= old(tick)
        invariant db.producers[p] == old(db.producers[p])
        invariant Mine(p) == old(Mine(p)) + Times(StallLost(p, now), m) && Conflicts(p) == old(Conflicts(p))
      {
        Interfere(p);
        if db.stamp < now - COUNTER_STALL_WINDOW {
          OnceMore(old(Mine(p)), StallLost(p, now), m);
          Do(StallLost(p, now), p);
          m := m + 1;
        }
      }
    }

    /** The `_inc_counter` by the batch size while its replies are lost: each repeat counts again. */
    method CountUnheard(p: PostId, now: int, losses: nat)
      requires Valid() && Alive(db, p) && db.producers[p].phase.Inserted?
      modifies this
      ensures Valid() && old(history) <= history && p in db.producers && tick >= old(tick)
      ensures db.producers[p] == old(db.producers[p])
      ensures Mine(p) == old(Mine(p)) + Times(CountLost(p, now), losses) && Conflicts(p) == old(Conflicts(p))
    {
      for i := 0 to losses
        invariant Valid() && old(history) <= history && p in db.producers && tick >= old(tick)
        invariant db.producers[p] == old(db.producers[p])
        invariant Mine(p) == old(Mine(p)) + Times(CountLost(p, now), i) && Conflicts(p) == old(Conflicts(p))
      {
        Interfere(p);
        OnceMore(old(Mine(p)), CountLost(p, now), i);
        Do(CountLost(p, now), p);
      }
    }

    /** `_inc_counter` with the stall window, then `_get_counter` if that returned None. */
    method NextMarkers(p: PostId) returns (ghost m: nat, ghost bumped: bool)
      requires Valid() && Alive(db, p) && db.producers[p].phase.Conflicted?
      modifies this
      ensures Valid() && old(history) <= history && p in db.producers && tick > old(tick)
      ensures db.producers[p].n == old(db.producers[p].n) && db.producers[p].alive
      ensures db.producers[p].phase == Inserting(db.value, 0)
      ensures var now := clock(old(tick));
              Mine(p) == old(Mine(p)) + Times(StallLost(p, now), m)
                         + (if bumped then [StallBump(p, now)] else [StallSkip(p, now), Read(p)])
      ensures Conflicts(p) == old(Conflicts(p))
    {
      var now := clock(tick);
      m := StallUnheard(p, now, lost(tick));
      Interfere(p);
      bumped := db.stamp < now - COUNTER_STALL_WINDOW;
      if db.stamp < now - COUNTER_STALL_WINDOW {
        Do(StallBump(p, now), p);
      } else {
        Reread(p, now);
      }
    }

    /** The window check fails and the counter is read again. */
    method Reread(p: PostId, now: int)
      requires Valid() && Enabled(db, StallSkip(p, now))
      modifies this
      ensures Valid() && old(history) <= history && p in db.producers && tick > old(tick)
      ensures db.producers[p] == old(db.producers[p]).(phase := Inserting(db.value, 0))
      ensures Mine(p) == old(Mine(p)) + [StallSkip(p, now), Read(p)] && Conflicts(p) == old(Conflicts(p))
    {
      Do(StallSkip(p, now), p);
      Interfere(p);
      Do(Read(p), p);
      Grouped(old(Mine(p)), [StallSkip(p, now)], [Read(p)]);
    }

    /** The success path: count the batch, finalise it and return its ids. */
    method Complete(p: PostId) returns (ghost steps: seq<Step>)
      requires Valid() && Alive(db, p) && db.producers[p].phase.Inserted?
      modifies this
      ensures Valid() && old(history) <= history && p in db.producers && tick >= old(tick)
      ensures db.producers[p] == old(db.producers[p]).(phase := Returned(old(db.producers[p].phase.base)))
      ensures Stored(db, p)
      ensures var now := clock(old(tick));
              Mine(p) == old(Mine(p))
                         + (Times(CountLost(p, now), lost(old(tick))) + [Count(p, now)] + steps + [Return(p)])
      ensures forall step | step in steps :: step.FinaliseDoc?
      ensures Conflicts(p) == old(Conflicts(p))
    {
      var now := clock(tick);
      CountUnheard(p, now, lost(tick));
      Interfere(p);
      Do(Count(p, now), p);
      Interfere(p);
      steps := Finalise(p);
      Do(Return(p), p);
      ReturnedIsStored(origin, history, p);
      Joined(old(Mine(p)), Times(CountLost(p, now), lost(old(tick))), [Count(p, now)], steps, [Return(p)]);
    }

    /** Raising an error. */
    method Abandon(p: PostId)
      requires Valid() && Enabled(db, GiveUp(p))
      modifies this
      ensures Valid() && old(history) <= history && p in db.producers && tick == old(tick)
      ensures db.producers[p] == old(db.producers[p]).(phase := Failed)
      ensures Invisible(db, p)
      ensures Mine(p) == old(Mine(p)) + [GiveUp(p)] && Conflicts(p) == old(Conflicts(p))
    {
      Do(GiveUp(p), p);
      FailedLeavesNothing(origin, history, p);
    }

    /**
     The whole call. Whatever the other clients do, a successful post is stored
     and a failed one leaves nothing visible. `conflicts` lists the time elapsed
     since the call read its clock, at each conflict: the batch is tried again after
     every conflict but the one that uses up the attempts or comes too late.
     */
    method Post(p: PostId, n: nat) returns (r: PostResult, conflicts: seq<int>)
      requires Valid() && p !in db.producers
      modifies this
      ensures Valid() && old(history) <= history
      ensures p in db.producers && db.producers[p].n == n && db.producers[p].alive
      ensures r.Posted? ==> db.producers[p].phase == Returned(r.base) && Stored(db, p)
      ensures !r.Posted? ==> db.producers[p].phase.Failed? && Invisible(db, p)
      ensures r.InvalidOperation? <==> n == 0 && maxAttempts > 0
      ensures r.Posted? ==> |conflicts| < maxAttempts && InTime(conflicts)
      ensures r.MessageConflict? ==> GaveUp(conflicts, maxAttempts)
      ensures r.InvalidOperation? ==> conflicts == []
      ensures Elapsed(conflicts, Conflicts(p), clock, old(tick), tick)
      ensures Timed(r, conflicts, maxAttempts)
      ensures Late(conflicts) ==> LastTwo(Mine(p), Duplicate(p), GiveUp(p))
    {
      conflicts := [];
      var started := Open(p, n);
      var attempt := 0;
      while attempt < maxAttempts
        invariant attempt <= maxAttempts && (n > 0 || attempt == 0) && |conflicts| == attempt
        invariant InTime(conflicts)
        invariant Valid() && old(history) <= history && Waiting(db, p, n)
        invariant tick > old(tick) && Elapsed(conflicts, Conflicts(p), clock, old(tick), tick)
      {
        if n == 0 {
          Abandon(p);
          InTimeIsTimed(InvalidOperation, conflicts, maxAttempts);
          return InvalidOperation, conflicts;
        }
        var base := db.producers[p].phase.base;
        var outcome, elapsed := Attempt(p, started, old(tick), conflicts);
        if outcome.Success? {
          InTimeIsTimed(Posted(base), conflicts, maxAttempts);
          return Posted(base), conflicts;
        }
        Noted(conflicts, elapsed, maxAttempts);
        conflicts := conflicts + [elapsed];
        if outcome.TooLate? {
          return MessageConflict, conflicts;
        }
        attempt := attempt + 1;
      }
      Abandon(p);
      InTimeIsTimed(MessageConflict, conflicts, maxAttempts);
      r := MessageConflict;
    }

    /** The start of the call: its clock and the first base marker. */
    method Open(p: PostId, n: nat) returns (started: int)
      requires Valid() && p !in db.producers
      modifies this
      ensures Valid() && old(history) <= history && tick == old(tick) + 1
      ensures started == clock(old(tick)) && Waiting(db, p, n) && db.producers[p].phase.base == db.value
      ensures Mine(p) == [Begin(p, n), Read(p)] && Conflicts(p) == []
    {
      NothingBefore(origin, history, when, p);
      Do(Begin(p, n), p);
      started := clock(tick);
      Interfere(p);
      Do(Read(p), p);
    }

    /** The body of the retry loop. */
    method Attempt(p: PostId, started: int, ghost start: nat, ghost conflicts: seq<int>)
      returns (outcome: Outcome, elapsed: int)
      requires Valid() && p in db.producers && Waiting(db, p, db.producers[p].n) && db.producers[p].n > 0
      requires start <= tick && started == clock(start) && Elapsed(conflicts, Conflicts(p), clock, start, tick)
      modifies this
      ensures Valid() && old(history) <= history && p in db.producers && tick > old(tick)
      ensures db.producers[p].n == old(db.producers[p].n) && db.producers[p].alive
      ensures outcome.Success? ==>
                && db.producers[p].phase == Returned(old(db.producers[p].phase.base)) && Stored(db, p)
                && Elapsed(conflicts, Conflicts(p), clock, start, tick)
      ensures !outcome.Success? ==> Elapsed(conflicts + [elapsed], Conflicts(p), clock, start, tick)
      ensures outcome.TooLate? ==>
                && elapsed > MAX_RETRY_POST_DURATION && db.producers[p].phase.Failed? && Invisible(db, p)
                && LastTwo(Mine(p), Duplicate(p), GiveUp(p))
      ensures outcome.Again? ==> elapsed <= MAX_RETRY_POST_DURATION && Waiting(db, p, db.producers[p].n)
    {
      ghost var at, then_ := Conflicts(p), tick;
      var ok, _ := InsertBatch(p);
      elapsed := clock(tick) - started;
      if ok {
        var _ := Complete(p);
        ElapsedStays(conflicts, at, clock, start, then_, tick);
        return Success, elapsed;
      }
      ElapsedGrows(conflicts, at, clock, start, then_, tick);
      if elapsed > MAX_RETRY_POST_DURATION {
        Abandon(p);
        return TooLate, elapsed;
      }
      Reposition(p, start, conflicts + [elapsed]);
      outcome := Again;
    }

    /** Sleeping and taking new markers. */
    method Reposition(p: PostId, ghost start: nat, ghost conflicts: seq<int>)
      requires Valid() && Alive(db, p) && db.producers[p].phase.Conflicted?
      requires Elapsed(conflicts, Conflicts(p), clock, start, tick)
      modifies this
      ensures Valid() && old(history) <= history && tick > old(tick)
      ensures Waiting(db, p, old(db.producers[p].n))
      ensures Elapsed(conflicts, Conflicts(p), clock, start, tick)
    {
      Interfere(p);
      var _, _ := NextMarkers(p);
      ElapsedStays(conflicts, Conflicts(p), clock, start, old(tick), tick);
    }
  }

  /** How one round of the retry loop ends. */
  datatype Outcome = Success | TooLate | Again

  /** p is alive and about to insert its batch from the start. */
  predicate Waiting(s: State, p: PostId, n: nat) {
    && p in s.producers && s.producers[p].n == n && s.producers[p].alive
    && s.producers[p].phase.Inserting? && s.producers[p].phase.done == 0
  }

  predicate LastTwo(steps: seq<Step>, a: Step, b: Step) {
    |steps| >= 2 && steps[|steps| - 2] == a && steps[|steps| - 1] == b
  }

  /** The messages of a returned post were stored at consecutive markers in message order,
      the counter is past them, and those still stored are visible there. */
  ghost predicate Stored(s: State, p: PostId) {
    && p in s.producers && s.producers[p].phase.Returned?
    && var r := s.producers[p];
    && r.phase.base + r.n <= s.value
    && (forall j: nat | j < r.n :: Entry(r.phase.base + j, MsgId(p, j)) in s.log)
    && (forall k | k in s.docs && s.docs[k].id.post == p ::
          Visible(s, k) && k == r.phase.base + s.docs[k].id.index)
  }

  ghost predicate Invisible(s: State, p: PostId) {
    forall k | k in s.docs && s.docs[k].id.post == p :: !Visible(s, k)
  }

  lemma ForeignStepUntouched(s: State, step: Step, p: PostId)
    requires Enabled(s, step) && Foreign(p, step)
    ensures Untouched(s, Next(s, step), p)
  {
  }

  /** The stored documents of a counted batch are at its markers. */
  lemma CountedDocsInPlace(origin: nat, steps: seq<Step>, p: PostId)
    requires Possible(Init(origin), steps)
    ensures var s := After(Init(origin), steps);
            p in s.producers && s.producers[p].phase.Counted? ==>
              forall k | k in s.docs && s.docs[k].id.post == p ::
                var r := s.producers[p];
                r.phase.base <= k < r.phase.base + r.n && (r.n == 1 ==> !s.docs[k].pending)
  {
    Order.RunKeepsInv(Init(origin), steps);
    var s := After(Init(origin), steps);
    forall k | p in s.producers && s.producers[p].phase.Counted? && k in s.docs && s.docs[k].id.post == p
      ensures var r := s.producers[p];
              r.phase.base <= k < r.phase.base + r.n && (r.n == 1 ==> !s.docs[k].pending)
    {
      assert Order.DocInv(s, k);
      assert Order.EntryInv(s, Entry(k, s.docs[k].id));
    }
  }

  lemma ReturnedIsStored(origin: nat, steps: seq<Step>, p: PostId)
    requires Possible(Init(origin), steps)
    requires var s := After(Init(origin), steps); p in s.producers && s.producers[p].phase.Returned?
    ensures Stored(After(Init(origin), steps), p)
  {
    Order.ReturnedPostIsStored(origin, steps, p);
  }

  lemma FailedLeavesNothing(origin: nat, steps: seq<Step>, p: PostId)
    requires Possible(Init(origin), steps)
    requires var s := After(Init(origin), steps); p in s.producers && s.producers[p].phase.Failed?
    ensures Invisible(After(Init(origin), steps), p)
  {
    var s := After(Init(origin), steps);
    forall k | k in s.docs && s.docs[k].id.post == p ensures !Visible(s, k) {
      Order.FailedPostIsInvisible(origin, steps, p, k);
    }
  }
}
