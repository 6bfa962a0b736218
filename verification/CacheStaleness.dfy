/**
 The `caches` / `purges` decorators under concurrency. A cached getter is a
 cache read and, on a miss, an origin load and a cache store; a purging remover
 is a cache delete and an origin delete. All of these interleave freely, over
 one clock, with each other, with other changes of the origin and with evictions.
 */
module CacheStaleness {
  import opened NatSets

  type Key = nat
  type Value = nat
  type CallId = nat

  /** A cache entry: `stored` is the cache's own timestamp; `loaded` records when the
      value had been read from the origin. */
  datatype Entry = Entry(value: Value, stored: int, loaded: int)

  datatype Stage =
    | Asked                                              // the getter was called
    | Missed                                             // NO_VALUE from the cache
    | Loaded(value: Value, loaded: int)                  // the origin answered
    | Answered(value: Value, loaded: int, stored: int, at: int)
    | Raised                                             // the origin raised; nothing is cached
    | Purging                                            // the remover was called
    | Erasing                                            // the cache entry is deleted
    | Erased                                             // and so is the origin's

  datatype Call = Call(key: Key, stage: Stage)

  datatype State = State(clock: int, origin: map<Key, Value>, cache: map<Key, Entry>, calls: map<CallId, Call>)

  datatype Step =
    | Tick(to: int)
    | Change(k: Key, v: Value)      // someone writes the origin
    | Evict(k: Key)                 // the cache backend drops an entry
    | Get(c: CallId, k: Key)
    | LookUp(c: CallId)
    | Load(c: CallId)
    | Store(c: CallId)              // cond holds: cache the value
    | Skip(c: CallId)               // cond does not hold
    | Remove(c: CallId, k: Key)
    | Purge(c: CallId)
    | Erase(c: CallId)

  function Init(clock: int): State {
    State(clock, map[], map[], map[])
  }

  predicate At(s: State, c: CallId) {
    c in s.calls
  }

  predicate Enabled(s: State, step: Step) {
    match step
    case Tick(to) => s.clock <= to
    case Change(k, v) => true
    case Evict(k) => k in s.cache
    case Get(c, k) => c !in s.calls
    case LookUp(c) => At(s, c) && s.calls[c].stage.Asked?
    case Load(c) => At(s, c) && s.calls[c].stage.Missed?
    case Store(c) => At(s, c) && s.calls[c].stage.Loaded?
    case Skip(c) => At(s, c) && s.calls[c].stage.Loaded?
    case Remove(c, k) => c !in s.calls
    case Purge(c) => At(s, c) && s.calls[c].stage.Purging?
    case Erase(c) => At(s, c) && s.calls[c].stage.Erasing?
  }

  function SetStage(s: State, c: CallId, stage: Stage): State
    requires c in s.calls
  {
    s.(calls := s.calls[c := s.calls[c].(stage := stage)])
  }

  /** `_cache.get(key, expiration_time=ttl)` finds an entry. */
  predicate Fresh(s: State, k: Key, ttl: int) {
    k in s.cache && s.clock - s.cache[k].stored <= ttl
  }

  function Next(s: State, step: Step, ttl: int): State
    requires Enabled(s, step)
  {
    match step
    case Tick(to) => s.(clock := to)
    case Change(k, v) => s.(origin := s.origin[k := v])
    case Evict(k) => s.(cache := s.cache - {k})
    case Get(c, k) => s.(calls := s.calls[c := Call(k, Asked)])
    case LookUp(c) =>
      var k := s.calls[c].key;
      if Fresh(s, k, ttl) then
        var e := s.cache[k];
        SetStage(s, c, Answered(e.value, e.loaded, e.stored, s.clock))
      else SetStage(s, c, Missed)
    case Load(c) =>
      var k := s.calls[c].key;
      if k in s.origin then SetStage(s, c, Loaded(s.origin[k], s.clock)) else SetStage(s, c, Raised)
    case Store(c) =>
      var g := s.calls[c];
      SetStage(s, c, Answered(g.stage.value, g.stage.loaded, s.clock, s.clock))
        .(cache := s.cache[g.key := Entry(g.stage.value, s.clock, g.stage.loaded)])
    case Skip(c) =>
      var g := s.calls[c];
      SetStage(s, c, Answered(g.stage.value, g.stage.loaded, s.clock, s.clock))
    case Remove(c, k) => s.(calls := s.calls[c := Call(k, Purging)])
    case Purge(c) => SetStage(s, c, Erasing).(cache := s.cache - {s.calls[c].key})
    case Erase(c) => SetStage(s, c, Erased).(origin := s.origin - {s.calls[c].key})
  }

  predicate Possible(s: State, steps: seq<Step>, ttl: int)
    decreases |steps|
  {
    steps == [] || (Enabled(s, steps[0]) && Possible(Next(s, steps[0], ttl), steps[1..], ttl))
  }

  function After(s: State, steps: seq<Step>, ttl: int): State
    requires Possible(s, steps, ttl)
    decreases |steps|
  {
    if steps == [] then s else After(Next(s, steps[0], ttl), steps[1..], ttl)
  }

  lemma Cons(s: State, step: Step, rest: seq<Step>, ttl: int)
    requires Enabled(s, step) && Possible(Next(s, step, ttl), rest, ttl)
    ensures Possible(s, [step] + rest, ttl) && After(s, [step] + rest, ttl) == After(Next(s, step, ttl), rest, ttl)
  {
    assert ([step] + rest)[0] == step && ([step] + rest)[1..] == rest;
  }

  lemma {:induction false} Front(s: State, steps: seq<Step>, ttl: int)
    requires Possible(s, steps, ttl) && steps != []
    ensures var m := |steps| - 1;
            && Possible(s, steps[..m], ttl) && Enabled(After(s, steps[..m], ttl), steps[m])
            && After(s, steps, ttl) == Next(After(s, steps[..m], ttl), steps[m], ttl)
    decreases |steps|
  {
    var m := |steps| - 1;
    if m > 0 {
      Front(Next(s, steps[0], ttl), steps[1..], ttl);
      assert steps[..m][1..] == steps[1..][..m - 1];
    }
  }

  // ---- One getter, undisturbed ----

  /** A getter nobody disturbs: an entry no older than the TTL answers and nothing changes;
      otherwise the origin's value answers, and is cached with the present time unless the
      condition for caching fails; if the origin has none, the getter raises. */
  lemma UndisturbedGet(s: State, c: CallId, k: Key, ttl: int)
    requires c !in s.calls
    ensures var t := Next(Next(s, Get(c, k), ttl), LookUp(c), ttl);
            && c in t.calls && t.cache == s.cache && t.origin == s.origin
            && (k in s.cache && s.clock - s.cache[k].stored <= ttl ==>
                  t.calls[c].stage.Answered? && t.calls[c].stage.value == s.cache[k].value)
            && (!(k in s.cache && s.clock - s.cache[k].stored <= ttl) ==>
                  && Enabled(t, Load(c))
                  && var u := Next(t, Load(c), ttl);
                  && u.cache == s.cache && (k !in s.origin <==> u.calls[c].stage.Raised?)
                  && (k in s.origin ==>
                        && Enabled(u, Store(c)) && Enabled(u, Skip(c))
                        && var stored, skipped := Next(u, Store(c), ttl), Next(u, Skip(c), ttl);
                        && stored.calls[c].stage == skipped.calls[c].stage
                        && stored.calls[c].stage == Answered(s.origin[k], s.clock, s.clock, s.clock)
                        && stored.cache == s.cache[k := Entry(s.origin[k], s.clock, s.clock)]
                        && skipped.cache == s.cache && stored.origin == s.origin))
  {
  }

  /** An evicted entry is gone, and only that one. */
  lemma EvictedIsMissed(s: State, k: Key, ttl: int)
    requires Enabled(s, Evict(k))
    ensures var t := Next(s, Evict(k), ttl);
            !Fresh(t, k, ttl) && t.cache == s.cache - {k} && t.origin == s.origin && t.calls == s.calls
  {
  }

  // ---- Bounded staleness ----

  /** At some moment of the run, at time t, the origin held v under k. */
  ghost predicate HeldAt(s: State, steps: seq<Step>, ttl: int, k: Key, v: Value, t: int)
    requires Possible(s, steps, ttl)
  {
    exists i | 0 <= i <= |steps| :: Holds(s, steps[..i], ttl, k, v, t)
  }

  ghost predicate Holds(s: State, steps: seq<Step>, ttl: int, k: Key, v: Value, t: int) {
    Possible(s, steps, ttl)
    && var u := After(s, steps, ttl);
    u.clock == t && k in u.origin && u.origin[k] == v
  }

  lemma HeldLater(s: State, steps: seq<Step>, ttl: int, k: Key, v: Value, t: int)
    requires Possible(s, steps, ttl) && steps != [] && Possible(s, steps[..|steps| - 1], ttl)
    requires HeldAt(s, steps[..|steps| - 1], ttl, k, v, t)
    ensures HeldAt(s, steps, ttl, k, v, t)
  {
    var front := steps[..|steps| - 1];
    var i :| 0 <= i <= |front| && Holds(s, front[..i], ttl, k, v, t);
    assert front[..i] == steps[..i];
  }

  ghost predicate EntryOk(s: State, steps: seq<Step>, ttl: int, k: Key)
    requires Possible(s, steps, ttl) && k in After(s, steps, ttl).cache
  {
    var t := After(s, steps, ttl);
    var e := t.cache[k];
    e.loaded <= e.stored <= t.clock && HeldAt(s, steps, ttl, k, e.value, e.loaded)
  }

  ghost predicate CallOk(s: State, steps: seq<Step>, ttl: int, c: CallId)
    requires Possible(s, steps, ttl) && c in After(s, steps, ttl).calls
  {
    var t := After(s, steps, ttl);
    var Call(k, g) := t.calls[c];
    && (g.Loaded? ==> g.loaded <= t.clock && HeldAt(s, steps, ttl, k, g.value, g.loaded))
    && (g.Answered? ==>
          && g.loaded <= g.stored <= g.at <= t.clock && g.at - g.stored <= ttl
          && HeldAt(s, steps, ttl, k, g.value, g.loaded))
  }

  /** Every cached or loaded value was in the origin at its load time, and no entry is
      stored before it is loaded or after the present. */
  ghost predicate Inv(s: State, steps: seq<Step>, ttl: int)
    requires Possible(s, steps, ttl)
  {
    && (forall k | k in After(s, steps, ttl).cache :: EntryOk(s, steps, ttl, k))
    && (forall c | c in After(s, steps, ttl).calls :: CallOk(s, steps, ttl, c))
  }

  lemma StepKeepsEntry(s: State, steps: seq<Step>, ttl: int, k: Key)
    requires steps != [] && Possible(s, steps, ttl) && k in After(s, steps, ttl).cache
    requires Possible(s, steps[..|steps| - 1], ttl) && Inv(s, steps[..|steps| - 1], ttl)
    ensures EntryOk(s, steps, ttl, k)
  {
    Front(s, steps, ttl);
    var m := |steps| - 1;
    var u, t := After(s, steps[..m], ttl), After(s, steps, ttl);
    if steps[m].Store? && u.calls[steps[m].c].key == k {
      assert CallOk(s, steps[..m], ttl, steps[m].c);
    } else {
      assert EntryOk(s, steps[..m], ttl, k);
    }
    HeldLater(s, steps, ttl, k, t.cache[k].value, t.cache[k].loaded);
  }

  /** A call that the last step did not move. */
  lemma IdleCallOk(s: State, steps: seq<Step>, ttl: int, c: CallId)
    requires steps != [] && Possible(s, steps, ttl) && c in After(s, steps, ttl).calls
    requires Possible(s, steps[..|steps| - 1], ttl) && Inv(s, steps[..|steps| - 1], ttl)
    requires var u := After(s, steps[..|steps| - 1], ttl);
             c in u.calls && u.calls[c] == After(s, steps, ttl).calls[c]
    ensures CallOk(s, steps, ttl, c)
  {
    Front(s, steps, ttl);
    var m := |steps| - 1;
    var Call(k, g) := After(s, steps, ttl).calls[c];
    assert CallOk(s, steps[..m], ttl, c);
    if g.Loaded? || g.Answered? {
      HeldLater(s, steps, ttl, k, g.value, g.loaded);
    }
  }

  /** A call that the last step moved. */
  lemma MovedCallOk(s: State, steps: seq<Step>, ttl: int, c: CallId)
    requires ttl >= 0 && steps != [] && Possible(s, steps, ttl) && c in After(s, steps, ttl).calls
    requires Possible(s, steps[..|steps| - 1], ttl) && Inv(s, steps[..|steps| - 1], ttl)
    requires var step := steps[|steps| - 1];
             step == LookUp(c) || step == Load(c) || step == Store(c) || step == Skip(c)
    ensures CallOk(s, steps, ttl, c)
  {
    Front(s, steps, ttl);
    var m := |steps| - 1;
    var step := steps[m];
    var u := After(s, steps[..m], ttl);
    var Call(k, g) := After(s, steps, ttl).calls[c];
    if step == Load(c) {
      if g.Loaded? { assert Holds(s, steps[..m], ttl, k, g.value, g.loaded); }
    } else if step == LookUp(c) {
      if g.Answered? {
        assert EntryOk(s, steps[..m], ttl, k);
        HeldLater(s, steps, ttl, k, g.value, g.loaded);
      }
    } else {
      assert CallOk(s, steps[..m], ttl, c);
      HeldLater(s, steps, ttl, k, g.value, g.loaded);
    }
  }

  lemma StepKeepsCall(s: State, steps: seq<Step>, ttl: int, c: CallId)
    requires ttl >= 0 && steps != [] && Possible(s, steps, ttl) && c in After(s, steps, ttl).calls
    requires Possible(s, steps[..|steps| - 1], ttl) && Inv(s, steps[..|steps| - 1], ttl)
    ensures CallOk(s, steps, ttl, c)
  {
    Front(s, steps, ttl);
    var step := steps[|steps| - 1];
    var u := After(s, steps[..|steps| - 1], ttl);
    if step == LookUp(c) || step == Load(c) || step == Store(c) || step == Skip(c) {
      MovedCallOk(s, steps, ttl, c);
    } else if c in u.calls && u.calls[c] == After(s, steps, ttl).calls[c] {
      IdleCallOk(s, steps, ttl, c);
    }
  }

  lemma StepKeepsInv(s: State, steps: seq<Step>, ttl: int)
    requires ttl >= 0 && steps != [] && Possible(s, steps, ttl)
    requires Possible(s, steps[..|steps| - 1], ttl) && Inv(s, steps[..|steps| - 1], ttl)
    ensures Inv(s, steps, ttl)
  {
    forall k | k in After(s, steps, ttl).cache ensures EntryOk(s, steps, ttl, k) {
      StepKeepsEntry(s, steps, ttl, k);
    }
    forall c | c in After(s, steps, ttl).calls ensures CallOk(s, steps, ttl, c) {
      StepKeepsCall(s, steps, ttl, c);
    }
  }

  lemma {:induction false} RunKeepsInv(clock: int, steps: seq<Step>, ttl: int)
    requires ttl >= 0 && Possible(Init(clock), steps, ttl)
    ensures Inv(Init(clock), steps, ttl)
    decreases |steps|
  {
    if steps != [] {
      Front(Init(clock), steps, ttl);
      RunKeepsInv(clock, steps[..|steps| - 1], ttl);
      StepKeepsInv(Init(clock), steps, ttl);
    }
  }

  /**
   Whatever a cached getter answers was the origin's value no longer ago than
   the TTL plus the time between that entry's load and its store.
   */
  lemma BoundedStaleness(clock: int, steps: seq<Step>, ttl: int, c: CallId)
    requires ttl >= 0 && Possible(Init(clock), steps, ttl)
    requires var t := After(Init(clock), steps, ttl); c in t.calls && t.calls[c].stage.Answered?
    ensures var g := After(Init(clock), steps, ttl).calls[c];
            && g.stage.at - g.stage.loaded <= ttl + (g.stage.stored - g.stage.loaded)
            && HeldAt(Init(clock), steps, ttl, g.key, g.stage.value, g.stage.loaded)
  {
    RunKeepsInv(clock, steps, ttl);
    assert CallOk(Init(clock), steps, ttl, c);
  }

  // ---- The bound is reached ----

  /** A load is overtaken by a purging remover ... */
  function OvertakenLoad(rest: seq<Step>): seq<Step> {
    [Change(0, 1)] + ([Get(0, 0)] + ([LookUp(0)] + ([Load(0)] + ([Remove(1, 0)] + ([Purge(1)] + ([Erase(1)] + rest))))))
  }

  /** ... is stored `delay` later, and answered from the cache `ttl` after that. */
  function LateAnswer(ttl: nat, delay: nat): seq<Step> {
    [Tick(delay)] + ([Store(0)] + ([Tick(delay + ttl)] + ([Get(2, 0)] + ([LookUp(2)] + []))))
  }

  const OVERTAKEN: State := State(0, map[], map[], map[0 := Call(0, Loaded(1, 0)), 1 := Call(0, Erased)])

  const LOADED: State := State(0, map[0 := 1], map[], map[0 := Call(0, Loaded(1, 0))])

  lemma LoadRuns(ttl: int, rest: seq<Step>)
    requires Possible(LOADED, rest, ttl)
    ensures var run := [Change(0, 1)] + ([Get(0, 0)] + ([LookUp(0)] + ([Load(0)] + rest)));
            Possible(Init(0), run, ttl) && After(Init(0), run, ttl) == After(LOADED, rest, ttl)
  {
    var s1 := Next(Init(0), Change(0, 1), ttl);
    var s2 := Next(s1, Get(0, 0), ttl);
    var s3 := Next(s2, LookUp(0), ttl);
    assert Next(s3, Load(0), ttl) == LOADED;
    Cons(s3, Load(0), rest, ttl);
    var r := [Load(0)] + rest;
    Cons(s2, LookUp(0), r, ttl);
    r := [LookUp(0)] + r;
    Cons(s1, Get(0, 0), r, ttl);
    Cons(Init(0), Change(0, 1), [Get(0, 0)] + r, ttl);
  }

  lemma RemovalRuns(ttl: int, rest: seq<Step>)
    requires Possible(OVERTAKEN, rest, ttl)
    ensures var run := [Remove(1, 0)] + ([Purge(1)] + ([Erase(1)] + rest));
            Possible(LOADED, run, ttl) && After(LOADED, run, ttl) == After(OVERTAKEN, rest, ttl)
  {
    var s5 := Next(LOADED, Remove(1, 0), ttl);
    var s6 := Next(s5, Purge(1), ttl);
    assert Next(s6, Erase(1), ttl) == OVERTAKEN;
    Cons(s6, Erase(1), rest, ttl);
    var r := [Erase(1)] + rest;
    Cons(s5, Purge(1), r, ttl);
    Cons(LOADED, Remove(1, 0), [Purge(1)] + r, ttl);
  }

  lemma OvertakenLoadRuns(ttl: int, rest: seq<Step>)
    requires Possible(OVERTAKEN, rest, ttl)
    ensures Possible(Init(0), OvertakenLoad(rest), ttl)
    ensures After(Init(0), OvertakenLoad(rest), ttl) == After(OVERTAKEN, rest, ttl)
  {
    RemovalRuns(ttl, rest);
    LoadRuns(ttl, [Remove(1, 0)] + ([Purge(1)] + ([Erase(1)] + rest)));
  }

  lemma LateAnswerRuns(ttl: nat, delay: nat)
    ensures Possible(OVERTAKEN, LateAnswer(ttl, delay), ttl)
    ensures var t := After(OVERTAKEN, LateAnswer(ttl, delay), ttl);
            && 0 !in t.origin && 1 in t.calls && t.calls[1].stage.Erased?
            && 2 in t.calls && t.calls[2].stage == Answered(1, 0, delay, delay + ttl)
  {
    var s8 := Next(OVERTAKEN, Tick(delay), ttl);
    var s9 := Next(s8, Store(0), ttl);
    var s10 := Next(s9, Tick(delay + ttl), ttl);
    var s11 := Next(s10, Get(2, 0), ttl);
    Cons(s11, LookUp(2), [], ttl);
    var r := [LookUp(2)] + [];
    Cons(s10, Get(2, 0), r, ttl);
    r := [Get(2, 0)] + r;
    Cons(s9, Tick(delay + ttl), r, ttl);
    r := [Tick(delay + ttl)] + r;
    Cons(s8, Store(0), r, ttl);
    Cons(OVERTAKEN, Tick(delay), [Store(0)] + r, ttl);
  }

  /** For every TTL and every delay, purging notwithstanding, some run answers with a value
      the origin lost exactly that long ago. */
  lemma StalenessBoundIsReached(ttl: nat, delay: nat)
    ensures var run := OvertakenLoad(LateAnswer(ttl, delay));
            && Possible(Init(0), run, ttl)
            && var t := After(Init(0), run, ttl);
            && 0 !in t.origin && 1 in t.calls && t.calls[1].stage.Erased?
            && 2 in t.calls && t.calls[2].stage == Answered(1, 0, delay, delay + ttl)
  {
    LateAnswerRuns(ttl, delay);
    OvertakenLoadRuns(ttl, LateAnswer(ttl, delay));
  }

  // ---- What a purge achieves ----

  /** A getter of k has a value from the origin and has not stored it yet. */
  predicate LoadedAt(s: State, g: CallId, k: Key)
    requires g in s.calls
  {
    s.calls[g].key == k && s.calls[g].stage.Loaded?
  }

  /** Nobody can be answered from the cache about k, now or after a store. */
  ghost predicate Clean(s: State, k: Key, ttl: int) {
    !Fresh(s, k, ttl) && forall g | g in s.calls :: !LoadedAt(s, g, k)
  }

  predicate Changes(step: Step, k: Key) {
    step.Change? && step.k == k
  }

  predicate NeverChanged(steps: seq<Step>, k: Key) {
    forall i | 0 <= i < |steps| :: !Changes(steps[i], k)
  }

  /** A getter of k that is not yet in s has been answered in t. */
  ghost predicate LaterAnswer(s: State, t: State, k: Key) {
    exists g | g in t.calls && g !in s.calls :: AnsweredAt(t, g, k)
  }

  predicate AnsweredAt(t: State, g: CallId, k: Key)
    requires g in t.calls
  {
    t.calls[g].key == k && t.calls[g].stage.Answered?
  }

  /** Until k is written again, no getter of k that begins after s is answered. */
  ghost predicate Forgotten(s: State, k: Key, ttl: int) {
    forall steps | Possible(s, steps, ttl) && NeverChanged(steps, k) :: !LaterAnswer(s, After(s, steps, ttl), k)
  }

  /** k is gone, and the getters of k that began after s have found nothing. */
  ghost predicate Gone(s: State, t: State, k: Key, ttl: int) {
    && k !in t.origin && Clean(t, k, ttl)
    && (forall c | c in s.calls :: c in t.calls)
    && !LaterAnswer(s, t, k)
  }

  lemma StepKeepsGone(s: State, t: State, step: Step, k: Key, ttl: int)
    requires Gone(s, t, k, ttl) && Enabled(t, step) && !Changes(step, k)
    ensures Gone(s, Next(t, step, ttl), k, ttl)
  {
    var u := Next(t, step, ttl);
    forall g | g in u.calls ensures !LoadedAt(u, g, k) {
      if g in t.calls { assert !LoadedAt(t, g, k); }
    }
    forall g | g in u.calls && g !in s.calls ensures !AnsweredAt(u, g, k) {
      if g in t.calls { assert !LoadedAt(t, g, k) && !AnsweredAt(t, g, k); }
    }
    if step.Store? { assert !LoadedAt(t, step.c, k); }
  }

  lemma {:induction false} RunKeepsGone(s: State, t: State, steps: seq<Step>, k: Key, ttl: int)
    requires Gone(s, t, k, ttl) && Possible(t, steps, ttl) && NeverChanged(steps, k)
    ensures Gone(s, After(t, steps, ttl), k, ttl)
    decreases |steps|
  {
    if steps != [] {
      StepKeepsGone(s, t, steps[0], k, ttl);
      RunKeepsGone(s, Next(t, steps[0], ttl), steps[1..], k, ttl);
    }
  }

  /** A fresh entry answers the next getter. */
  lemma FreshEntryAnswers(s: State, t: State, k: Key, ttl: int) returns (rest: seq<Step>)
    requires Fresh(t, k, ttl) && forall c | c in s.calls :: c in t.calls
    ensures Possible(t, rest, ttl) && NeverChanged(rest, k) && LaterAnswer(s, After(t, rest, ttl), k)
  {
    var g := FreshNat(t.calls.Keys);
    var u := Next(t, Get(g, k), ttl);
    Cons(u, LookUp(g), [], ttl);
    Cons(t, Get(g, k), [LookUp(g)] + [], ttl);
    rest := [Get(g, k)] + ([LookUp(g)] + []);
    assert AnsweredAt(Next(u, LookUp(g), ttl), g, k);
  }

  /** A value loaded before the removal is stored after it and answers the next getter. */
  lemma LateStoreAnswers(s: State, k: Key, l: CallId, ttl: nat) returns (rest: seq<Step>)
    requires l in s.calls && LoadedAt(s, l, k)
    ensures Possible(s, rest, ttl) && NeverChanged(rest, k) && LaterAnswer(s, After(s, rest, ttl), k)
  {
    var t := Next(s, Store(l), ttl);
    var tail := FreshEntryAnswers(s, t, k, ttl);
    Cons(s, Store(l), tail, ttl);
    rest := [Store(l)] + tail;
  }

  /**
   A removal is final exactly when nothing was left to answer from: at the moment
   the remover deletes k from the origin, no entry of k is fresh and no getter of
   k is between its load and its store. Then, and only then, is no later getter
   of k answered until k is written again.
   */
  lemma RemovalFinalIffClean(s: State, c: CallId, ttl: nat)
    requires Enabled(s, Erase(c))
    ensures var k := s.calls[c].key;
            Clean(s, k, ttl) <==> Forgotten(Next(s, Erase(c), ttl), k, ttl)
  {
    var k := s.calls[c].key;
    var t := Next(s, Erase(c), ttl);
    if Clean(s, k, ttl) {
      forall g | g in t.calls ensures !LoadedAt(t, g, k) { assert !LoadedAt(s, g, k); }
      forall steps | Possible(t, steps, ttl) && NeverChanged(steps, k)
        ensures !LaterAnswer(t, After(t, steps, ttl), k)
      {
        RunKeepsGone(t, t, steps, k, ttl);
      }
    } else if Fresh(s, k, ttl) {
      var rest := FreshEntryAnswers(t, t, k, ttl);
    } else {
      var l :| l in s.calls && LoadedAt(s, l, k);
      assert LoadedAt(t, l, k);
      var rest := LateStoreAnswers(t, k, l, ttl);
    }
  }

  predicate Loads(s: State, step: Step, k: Key) {
    step.Load? && step.c in s.calls && s.calls[step.c].key == k
  }

  /** No getter of k loads during the run. */
  predicate NothingLoads(s: State, steps: seq<Step>, k: Key, ttl: int)
    requires Possible(s, steps, ttl)
    decreases |steps|
  {
    steps == [] || (!Loads(s, steps[0], k) && NothingLoads(Next(s, steps[0], ttl), steps[1..], k, ttl))
  }

  lemma {:induction false} RunKeepsClean(s: State, steps: seq<Step>, k: Key, ttl: int)
    requires Clean(s, k, ttl) && Possible(s, steps, ttl) && NothingLoads(s, steps, k, ttl)
    ensures Clean(After(s, steps, ttl), k, ttl)
    decreases |steps|
  {
    if steps != [] {
      var t := Next(s, steps[0], ttl);
      forall g | g in t.calls ensures !LoadedAt(t, g, k) {
        if g in s.calls { assert !LoadedAt(s, g, k); }
      }
      if steps[0].Store? { assert !LoadedAt(s, steps[0].c, k); }
      RunKeepsClean(t, steps[1..], k, ttl);
    }
  }

  lemma {:induction false} RunKeepsKey(s: State, steps: seq<Step>, c: CallId, ttl: int)
    requires Possible(s, steps, ttl) && c in s.calls
    ensures c in After(s, steps, ttl).calls && After(s, steps, ttl).calls[c].key == s.calls[c].key
    decreases |steps|
  {
    if steps != [] { RunKeepsKey(Next(s, steps[0], ttl), steps[1..], c, ttl); }
  }

  lemma PurgeCleansIff(s: State, c: CallId, ttl: int)
    requires Enabled(s, Purge(c))
    ensures var k := s.calls[c].key;
            Clean(Next(s, Purge(c), ttl), k, ttl) <==> forall g | g in s.calls :: !LoadedAt(s, g, k)
  {
    var k := s.calls[c].key;
    var t := Next(s, Purge(c), ttl);
    assert forall g | g in s.calls :: LoadedAt(t, g, k) <==> LoadedAt(s, g, k);
  }

  /**
   A whole purging remover, with anything interleaved between its two halves:
   if no getter of k holds a loaded value when the entry is purged and none loads
   before the origin's copy is deleted, the removal is final.
   */
  lemma PurgeWindow(s: State, c: CallId, between: seq<Step>, ttl: nat)
    requires Enabled(s, Purge(c)) && forall g | g in s.calls :: !LoadedAt(s, g, s.calls[c].key)
    requires var t := Next(s, Purge(c), ttl);
             && Possible(t, between, ttl) && NothingLoads(t, between, s.calls[c].key, ttl)
             && Enabled(After(t, between, ttl), Erase(c))
    ensures var u := After(Next(s, Purge(c), ttl), between, ttl);
            Forgotten(Next(u, Erase(c), ttl), s.calls[c].key, ttl)
  {
    PurgeCleansIff(s, c, ttl);
    var t := Next(s, Purge(c), ttl);
    RunKeepsClean(t, between, s.calls[c].key, ttl);
    RunKeepsKey(t, between, c, ttl);
    RemovalFinalIffClean(After(t, between, ttl), c, ttl);
  }

  /** With nothing between them, purge and delete are final exactly when no getter of k
      holds a loaded value, whatever the cache held. */
  lemma PurgeFinalIffNoneLoaded(s: State, c: CallId, ttl: nat)
    requires Enabled(s, Purge(c))
    ensures var k := s.calls[c].key;
            var t := Next(Next(s, Purge(c), ttl), Erase(c), ttl);
            Forgotten(t, k, ttl) <==> forall g | g in s.calls :: !LoadedAt(s, g, k)
  {
    PurgeCleansIff(s, c, ttl);
    RemovalFinalIffClean(Next(s, Purge(c), ttl), c, ttl);
  }
}
