/**
 What increments that fire too early or too often do to observers. In benign runs
 of single-message posts nothing ever becomes visible behind a marker that was
 handed out. These lemmas say exactly which stall increments break that, and that
 every repeated counting increment can.
 */
module FifoMiss {
  import opened Wrappers
  import opened Fifo
  import opened FifoGapFree
  import opened FifoTear
  import opened NatSets
  import Seen = FifoObserver

  /** The visible document at k is behind the observer's marker and was never handed to it. */
  predicate MissedAt(s: State, o: ObserverId, k: nat) {
    && o in s.observers && !Past(s.observers[o].marker, k)
    && Visible(s, k) && s.docs[k].id !in s.observers[o].seen
  }

  ghost predicate Missed(s: State) {
    exists o, k | o in s.observers && k in s.docs :: MissedAt(s, o, k)
  }

  /** Some benign continuation, with posts of one message only, makes an observer miss one. */
  ghost predicate CanMiss(s: State) {
    exists rest | Possible(s, rest) && BenignRun(s, rest) && Seen.PostsCarry(1, rest) :: Missed(After(s, rest))
  }

  /** A missed message stays missed until it is removed, whatever anyone does. */
  lemma {:induction false} MissedForGood(s: State, steps: seq<Step>, o: ObserverId, k: nat)
    requires Seen.IdsDistinct(s) && MissedAt(s, o, k) && Possible(s, steps)
    requires forall i | 0 <= i < |steps| :: steps[i] != Remove(k)
    ensures MissedAt(After(s, steps), o, k)
    decreases |steps|
  {
    if steps != [] {
      Seen.StepKeepsIdsDistinct(s, steps[0]);
      MissedForGood(Next(s, steps[0]), steps[1..], o, k);
    }
  }

  // ---- A concrete run ----

  /** The misfire of `StepsBeforeMisfire`; then post 0 counts, post 2 posts past the marker of
      post 1, an observer reads on, and only now does post 1 insert. */
  function StepsAfterMisfire(origin: nat, now: int): seq<Step> {
    [StallBump(1, now)] + ([Count(0, now)] + ([Begin(2, 1)] + ([Read(2)] + ([InsertDoc(2)] +
    ([Watch(0)] + ([Observe(0, origin)] + ([Observe(0, origin + 2)] + ([InsertDoc(1)] + []))))))))
  }

  /** After the misfire, posts 0 and 2 have stored their messages around a free marker. */
  function AroundTheGap(origin: nat, now: int): State {
    State(origin, origin + 2, now, map[origin := NewDoc(0, 0, 1), origin + 2 := NewDoc(2, 0, 1)],
          [Entry(origin, MsgId(0, 0)), Entry(origin + 2, MsgId(2, 0))],
          map[0 := Producer(1, origin, Counted(origin), true),
              1 := Producer(1, origin, Inserting(origin + 1, 0), true),
              2 := Producer(1, origin + 2, Inserted(origin + 2), true)],
          map[])
  }

  /** One step of single-message traffic and a run of it. */
  lemma Prepend(s: State, step: Step, rest: seq<Step>)
    requires Enabled(s, step) && Possible(Next(s, step), rest)
    requires Seen.PostsCarry(1, rest) && (step.Begin? ==> step.n == 1)
    ensures Possible(s, [step] + rest) && After(s, [step] + rest) == After(Next(s, step), rest)
    ensures Seen.PostsCarry(1, [step] + rest)
  {
    var run := [step] + rest;
    assert run[0] == step && run[1..] == rest;
    forall i | 0 <= i < |run| && run[i].Begin? ensures run[i].n == 1 {
      if i > 0 { assert run[i] == rest[i - 1]; }
    }
  }

  lemma CarryConcat(a: seq<Step>, b: seq<Step>)
    requires Seen.PostsCarry(1, a) && Seen.PostsCarry(1, b)
    ensures Seen.PostsCarry(1, a + b)
  {
  }

  lemma MisfireIsCounted(origin: nat, now: int, rest: seq<Step>)
    requires now > COUNTER_STALL_WINDOW && Possible(GapOpened(origin, now), rest) && Seen.PostsCarry(1, rest)
    ensures var run := [StallBump(1, now)] + ([Count(0, now)] + rest);
            && Possible(BeforeMisfire(origin, 1), run) && Seen.PostsCarry(1, run)
            && After(BeforeMisfire(origin, 1), run) == After(GapOpened(origin, now), rest)
  {
    var s0 := BeforeMisfire(origin, 1);
    var s1 := Next(s0, StallBump(1, now));
    assert Next(s1, Count(0, now)) == GapOpened(origin, now);
    Prepend(s1, Count(0, now), rest);
    Prepend(s0, StallBump(1, now), [Count(0, now)] + rest);
  }

  /** The counter has left out the marker that post 1 holds. */
  function GapOpened(origin: nat, now: int): State {
    State(origin, origin + 2, now, map[origin := NewDoc(0, 0, 1)], [Entry(origin, MsgId(0, 0))],
          map[0 := Producer(1, origin, Counted(origin), true),
              1 := Producer(1, origin, Inserting(origin + 1, 0), true)],
          map[])
  }

  lemma GapIsJumped(origin: nat, now: int, rest: seq<Step>)
    requires Possible(AroundTheGap(origin, now), rest) && Seen.PostsCarry(1, rest)
    ensures var run := [Begin(2, 1)] + ([Read(2)] + ([InsertDoc(2)] + rest));
            && Possible(GapOpened(origin, now), run) && Seen.PostsCarry(1, run)
            && After(GapOpened(origin, now), run) == After(AroundTheGap(origin, now), rest)
  {
    var s2 := GapOpened(origin, now);
    var s3 := Next(s2, Begin(2, 1));
    var s4 := Next(s3, Read(2));
    assert Accepts(s4, origin + 2, MsgId(2, 0));
    assert Next(s4, InsertDoc(2)) == AroundTheGap(origin, now);
    Prepend(s4, InsertDoc(2), rest);
    var r := [InsertDoc(2)] + rest;
    Prepend(s3, Read(2), r);
    Prepend(s2, Begin(2, 1), [Read(2)] + r);
  }

  lemma LateInsertIsMissed(origin: nat, now: int)
    ensures var s := AroundTheGap(origin, now);
            var run := [Watch(0)] + ([Observe(0, origin)] + ([Observe(0, origin + 2)] + ([InsertDoc(1)] + [])));
            Possible(s, run) && Seen.PostsCarry(1, run) && MissedAt(After(s, run), 0, origin + 1)
  {
    var s := AroundTheGap(origin, now);
    var a := Next(s, Watch(0));
    assert IsNext(a, None, origin);
    var b := Next(a, Observe(0, origin));
    assert IsNext(b, Some(origin), origin + 2);
    var c := Next(b, Observe(0, origin + 2));
    assert Accepts(c, origin + 1, MsgId(1, 0));
    var d := Next(c, InsertDoc(1));
    assert d.observers[0].seen == [MsgId(0, 0), MsgId(2, 0)];
    Prepend(c, InsertDoc(1), []);
    var r := [InsertDoc(1)] + [];
    Prepend(b, Observe(0, origin + 2), r);
    r := [Observe(0, origin + 2)] + r;
    Prepend(a, Observe(0, origin), r);
    Prepend(s, Watch(0), [Observe(0, origin)] + r);
  }

  lemma MisfireRuns(origin: nat, now: int)
    requires now > COUNTER_STALL_WINDOW
    ensures var s, run := BeforeMisfire(origin, 1), StepsAfterMisfire(origin, now);
            Possible(s, run) && Seen.PostsCarry(1, run) && MissedAt(After(s, run), 0, origin + 1)
  {
    LateInsertIsMissed(origin, now);
    var r := [Watch(0)] + ([Observe(0, origin)] + ([Observe(0, origin + 2)] + ([InsertDoc(1)] + [])));
    GapIsJumped(origin, now, r);
    r := [Begin(2, 1)] + ([Read(2)] + ([InsertDoc(2)] + r));
    MisfireIsCounted(origin, now, r);
  }

  /** With posts of one message only, a stall increment on an idle queue can make an observer
      miss a message for good: it becomes visible behind a marker already handed out. */
  lemma MisfireIsSeen(origin: nat, now: int)
    requires now > COUNTER_STALL_WINDOW
    ensures var run := StepsBeforeMisfire(1) + StepsAfterMisfire(origin, now);
            && Possible(Init(origin), run) && Seen.PostsCarry(1, run)
            && MissedAt(After(Init(origin), run), 0, origin + 1)
  {
    BeforeMisfireIsReached(origin, 1);
    MisfireRuns(origin, now);
    var before, after := StepsBeforeMisfire(1), StepsAfterMisfire(origin, now);
    RunsCompose(Init(origin), before, after);
    assert Seen.PostsCarry(1, before);
    CarryConcat(before, after);
  }

  // ---- When nothing is missed ----

  /** The marker is stored, and everything stored up to it was handed over. */
  ghost predicate CaughtUp(s: State, ob: Observer) {
    ob.marker.Some? ==>
      && ob.marker.value in s.docs
      && forall k | k in s.docs && k <= ob.marker.value :: s.docs[k].id in ob.seen
  }

  ghost predicate AllCaughtUp(s: State) {
    forall o | o in s.observers :: CaughtUp(s, s.observers[o])
  }

  lemma CaughtUpMissesNothing(s: State)
    requires AllCaughtUp(s)
    ensures !Missed(s)
  {
    forall o, k | o in s.observers && k in s.docs ensures !MissedAt(s, o, k) {
      assert CaughtUp(s, s.observers[o]);
    }
  }

  /** A document that goes in past all others is past every marker. */
  lemma InsertKeepsCaughtUp(s: State, p: PostId)
    requires AllCaughtUp(s) && Enabled(s, InsertDoc(p))
    requires var ph := s.producers[p].phase; forall k | k in s.docs :: k < ph.base + ph.done
    ensures AllCaughtUp(Next(s, InsertDoc(p)))
  {
    var t := Next(s, InsertDoc(p));
    forall o | o in t.observers ensures CaughtUp(t, t.observers[o]) {
      assert CaughtUp(s, s.observers[o]);
    }
  }

  lemma ObserveKeepsCaughtUp(s: State, o: ObserverId, k: nat)
    requires AllCaughtUp(s) && Seen.AllSingle(s) && Enabled(s, Observe(o, k))
    ensures AllCaughtUp(Next(s, Observe(o, k)))
  {
    var t := Next(s, Observe(o, k));
    var ob := s.observers[o];
    forall j | j in s.docs && j <= k ensures s.docs[j].id in t.observers[o].seen {
      assert Visible(s, j);
      if j != k { assert CaughtUp(s, ob) && !Past(ob.marker, j); }
    }
    forall q | q in t.observers ensures CaughtUp(t, t.observers[q]) {
      if q != o { assert CaughtUp(s, s.observers[q]); }
    }
  }

  lemma OtherKeepsCaughtUp(s: State, step: Step)
    requires AllCaughtUp(s) && Enabled(s, step) && !step.InsertDoc? && !step.Observe? && !step.Remove?
    ensures AllCaughtUp(Next(s, step))
  {
    var t := Next(s, step);
    forall o | o in t.observers ensures CaughtUp(t, t.observers[o]) {
      if o in s.observers { assert CaughtUp(s, s.observers[o]); }
    }
  }

  lemma StepKeepsCaughtUp(s: State, step: Step)
    requires AllCaughtUp(s) && Seen.AllSingle(s) && Enabled(s, step) && !step.Remove?
    requires step.InsertDoc? ==>
               var ph := s.producers[step.p].phase; forall k | k in s.docs :: k < ph.base + ph.done
    ensures AllCaughtUp(Next(s, step))
  {
    match step
    case InsertDoc(p) => InsertKeepsCaughtUp(s, p);
    case Observe(o, k) => ObserveKeepsCaughtUp(s, o, k);
    case _ => OtherKeepsCaughtUp(s, step);
  }

  lemma {:induction false} BenignKeepsCaughtUp(s: State, steps: seq<Step>)
    requires Inv(s) && Seen.AllSingle(s) && AllCaughtUp(s)
    requires Possible(s, steps) && BenignRun(s, steps) && Seen.PostsCarry(1, steps)
    ensures var t := After(s, steps); Inv(t) && Seen.AllSingle(t) && AllCaughtUp(t)
    decreases |steps|
  {
    if steps != [] {
      var step := steps[0];
      if step.InsertDoc? { InsertIsAtEnd(s, step.p); }
      StepKeepsCaughtUp(s, step);
      StepKeepsInv(s, step);
      Seen.StaysSingle(s, step);
      BenignKeepsCaughtUp(Next(s, step), steps[1..]);
    }
  }

  lemma {:induction false} CalmKeepsCaughtUp(s: State, steps: seq<Step>)
    requires Calm(s) && Seen.AllSingle(s) && AllCaughtUp(s)
    requires Possible(s, steps) && BenignRun(s, steps) && Seen.PostsCarry(1, steps)
    ensures AllCaughtUp(After(s, steps))
    decreases |steps|
  {
    if steps != [] {
      var step := steps[0];
      if step.InsertDoc? { CalmInsertsAtTop(s, step.p); }
      StepKeepsCaughtUp(s, step);
      StepStaysCalm(s, step);
      Seen.StaysSingle(s, step);
      CalmKeepsCaughtUp(Next(s, step), steps[1..]);
    }
  }

  // ---- When something can be missed ----

  /** The observer reads on until nothing is left; nothing else changes. */
  lemma {:induction false} ReadOn(s: State, o: ObserverId) returns (steps: seq<Step>)
    requires o in s.observers && forall id | id in s.observers[o].seen :: !IdFree(s, id)
    ensures Possible(s, steps) && BenignRun(s, steps) && Seen.PostsCarry(1, steps)
    ensures var t := After(s, steps);
            && o in t.observers && t == s.(observers := t.observers)
            && (forall k | Visible(s, k) :: !Past(t.observers[o].marker, k))
            && (forall id | id in t.observers[o].seen :: !IdFree(s, id))
    decreases Seen.Matches(s, s.observers[o].marker)
  {
    var marker := s.observers[o].marker;
    var left := Seen.Matches(s, marker);
    if left == {} {
      steps := [];
      forall k | Visible(s, k) ensures !Past(marker, k) { assert k !in left; }
    } else {
      var k := Least(left);
      Seen.LeastIsNext(s, marker, k);
      var t := Next(s, Observe(o, k));
      assert Seen.Matches(t, Some(k)) == Seen.Matches(s, Some(k));
      assert !IdFree(s, s.docs[k].id);
      forall id | id in t.observers[o].seen ensures !IdFree(t, id) { assert !IdFree(s, id); }
      var tail := ReadOn(t, o);
      Cons(s, Observe(o, k), tail);
      steps := [Observe(o, k)] + tail;
    }
  }

  /** A post that has stored nothing holds a marker the counter has already left behind. */
  ghost predicate Late(s: State, f: PostId) {
    && Alive(s, f) && s.producers[f].n == 1
    && s.producers[f].phase.Inserting? && s.producers[f].phase.done == 0
    && s.producers[f].phase.base < s.value
    && (forall k | k in s.docs :: k < s.producers[f].phase.base && s.docs[k].id.post != f)
  }

  /** A new observer has read everything, and the late post inserts behind its marker. */
  lemma LateInsertMisses(s: State, f: PostId, o: ObserverId, k: nat) returns (steps: seq<Step>)
    requires Alive(s, f) && s.producers[f].n == 1
    requires s.producers[f].phase.Inserting? && s.producers[f].phase.done == 0
    requires s.producers[f].phase.base < k && Visible(s, k) && o !in s.observers
    requires s.producers[f].phase.base !in s.docs && forall j | j in s.docs :: s.docs[j].id.post != f
    ensures Possible(s, steps) && BenignRun(s, steps) && Seen.PostsCarry(1, steps) && Missed(After(s, steps))
  {
    var a := Next(s, Watch(o));
    var read := ReadOn(a, o);
    var b := After(a, read);
    var base := s.producers[f].phase.base;
    assert IdFree(s, MsgId(f, 0)) && IdFree(a, MsgId(f, 0));
    assert Accepts(b, base, MsgId(f, 0));
    var c := Next(b, InsertDoc(f));
    assert Visible(a, k) && !Past(b.observers[o].marker, base);
    assert MissedAt(c, o, base);
    Cons(b, InsertDoc(f), []);
    BenignRunsCompose(a, read, [InsertDoc(f)] + []);
    Cons(s, Watch(o), read + ([InsertDoc(f)] + []));
    steps := [Watch(o)] + (read + ([InsertDoc(f)] + []));
  }

  lemma LateCanMiss(s: State, f: PostId) returns (rest: seq<Step>)
    requires Late(s, f)
    ensures Possible(s, rest) && BenignRun(s, rest) && Seen.PostsCarry(1, rest) && Missed(After(s, rest))
  {
    var r := FreshPost(s);
    var a := Next(s, Begin(r, 1));
    var b := Next(a, Read(r));
    assert Accepts(b, b.value, MsgId(r, 0));
    var c := Next(b, InsertDoc(r));
    var o := FreshNat(s.observers.Keys);
    var tail := LateInsertMisses(c, f, o, s.value);
    Cons(b, InsertDoc(r), tail);
    rest := [Begin(r, 1)] + ([Read(r)] + ([InsertDoc(r)] + tail));
    PostOpens(s, r, 1, [InsertDoc(r)] + tail);
  }

  /** f begins with one message and reads the counter before h counts. */
  lemma CountLeavesLate(s: State, h: PostId) returns (rest: seq<Step>)
    requires Alive(s, h) && s.producers[h].phase.Inserted? && s.producers[h].n > 0
    requires forall k | k in s.docs :: k < s.value
    ensures Possible(s, rest) && BenignRun(s, rest) && Seen.PostsCarry(1, rest) && Missed(After(s, rest))
  {
    var f := FreshPost(s);
    var b := Next(Next(s, Begin(f, 1)), Read(f));
    var c := Next(b, Count(h, 0));
    assert Late(c, f);
    var tail := LateCanMiss(c, f);
    Cons(b, Count(h, 0), tail);
    rest := [Begin(f, 1)] + ([Read(f)] + ([Count(h, 0)] + tail));
    PostOpens(s, f, 1, [Count(h, 0)] + tail);
  }

  lemma ExposedCanMiss(s: State, step: Step) returns (rest: seq<Step>)
    requires Inv(s) && Seen.AllSingle(s) && Stalls(step) && Enabled(s, step) && Exposed(s)
    ensures var t := Next(s, step);
            Possible(t, rest) && BenignRun(t, rest) && Seen.PostsCarry(1, rest) && Missed(After(t, rest))
  {
    var t := Next(s, step);
    var q :| q in s.producers && AtRisk(s, q);
    assert LiveInv(s, q);
    assert q != step.p && t.producers[q] == s.producers[q];
    if s.value == End(s) {
      assert Late(t, q);
      rest := LateCanMiss(t, q);
    } else {
      rest := CountLeavesLate(t, q);
    }
  }

  /**
   Among posts of one message, after any benign run: a stall increment can make
   an observer miss a message exactly when at most one document is uncounted and
   a live post owns it, or is about to store one there.
   */
  lemma CanMissIffExposed(origin: nat, steps: seq<Step>, step: Step)
    requires Possible(Init(origin), steps) && BenignRun(Init(origin), steps) && Seen.PostsCarry(1, steps)
    requires Stalls(step) && Enabled(After(Init(origin), steps), step)
    ensures var s := After(Init(origin), steps);
            CanMiss(Next(s, step)) <==> Exposed(s)
  {
    BenignKeepsCaughtUp(Init(origin), steps);
    var s := After(Init(origin), steps);
    var t := Next(s, step);
    if Exposed(s) {
      var rest := ExposedCanMiss(s, step);
    } else {
      UnexposedIsCalm(s, step);
      StepKeepsCaughtUp(s, step);
      Seen.StaysSingle(s, step);
      forall rest | Possible(t, rest) && BenignRun(t, rest) && Seen.PostsCarry(1, rest)
        ensures !Missed(After(t, rest))
      {
        CalmKeepsCaughtUp(t, rest);
        CaughtUpMissesNothing(After(t, rest));
      }
    }
  }

  // ---- Counting twice ----

  /** Counting a batch again after a lost reply can always make an observer miss a message. */
  lemma LostReplyCanMiss(s: State, p: PostId, now: int) returns (rest: seq<Step>)
    requires Inv(s) && Enabled(s, CountLost(p, now))
    ensures var t := Next(s, CountLost(p, now));
            Possible(t, rest) && BenignRun(t, rest) && Seen.PostsCarry(1, rest) && Missed(After(t, rest))
  {
    assert LiveInv(s, p);
    rest := CountLeavesLate(Next(s, CountLost(p, now)), p);
  }
}
