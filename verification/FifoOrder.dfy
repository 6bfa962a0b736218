/**
 What holds in every run of the FIFO posting protocol, with no assumption:
 stall increments may misfire, increments may be repeated after lost replies,
 workers may crash anywhere and messages may be removed at any time.
 */
module FifoOrder {
  import opened Fifo

  // ---- The invariant ----

  predicate HasBase(phase: Phase) {
    phase.Inserting? || phase.Inserted? || phase.Counted? || phase.Returned?
  }

  /** The number of leading documents of the batch accepted at the current base. */
  function Accepted(r: Producer): nat {
    match r.phase
    case Inserting(_, done) => done
    case Inserted(_) => r.n
    case Counted(_) => r.n
    case Returned(_) => r.n
    case _ => 0
  }

  predicate ProducerInv(s: State, p: PostId)
    requires p in s.producers
  {
    var r := s.producers[p];
    && r.floor <= s.value
    && (HasBase(r.phase) ==> r.floor <= r.phase.base <= s.value)
    && (r.phase.Inserting? ==> r.phase.done <= r.n && (r.phase.done == 0 || r.phase.done < r.n))
    && (r.phase.Counted? || r.phase.Returned? ==> r.phase.base + r.n <= s.value)
  }

  /** Every insert ever accepted used a marker at or above the counter at the call's start,
      and no higher than the batch's current place. */
  predicate EntryInv(s: State, e: Entry) {
    e.id.post in s.producers
    && var r := s.producers[e.id.post];
    && e.id.index < r.n
    && r.floor <= e.k <= s.value + e.id.index
    && (HasBase(r.phase) ==> e.k <= r.phase.base + e.id.index)
    && (r.n == 1 ==> r.phase.Inserted? || r.phase.Counted? || r.phase.Returned?)
  }

  /** The leading documents of the current attempt are logged at consecutive markers. */
  predicate BatchLogged(s: State, p: PostId)
    requires p in s.producers
  {
    var r := s.producers[p];
    HasBase(r.phase) ==>
      forall j: nat | j < Accepted(r) :: Entry(r.phase.base + j, MsgId(p, j)) in s.log
  }

  predicate DocInv(s: State, k: nat)
    requires k in s.docs
  {
    var d := s.docs[k];
    && Entry(k, d.id) in s.log
    && d.id.post in s.producers
    && var r := s.producers[d.id.post];
    && (HasBase(r.phase) && d.id.index < Accepted(r) ==> k == r.phase.base + d.id.index)
    && (!d.pending && r.n != 1 ==> r.phase.Counted? || r.phase.Returned?)
    && (r.phase.Returned? || r.n == 1 ==> !d.pending)
  }

  ghost predicate Inv(s: State) {
    && (forall p | p in s.producers :: ProducerInv(s, p) && BatchLogged(s, p))
    && (forall e | e in s.log :: EntryInv(s, e))
    && (forall k | k in s.docs :: DocInv(s, k))
  }

  // ---- Every step keeps it ----

  /** A document that goes in is logged at its place. */
  lemma InsertKeepsProducers(s: State, p: PostId, q: PostId)
    requires Inv(s) && Enabled(s, InsertDoc(p)) && q in s.producers
    ensures ProducerInv(Next(s, InsertDoc(p)), q) && BatchLogged(Next(s, InsertDoc(p)), q)
  {
    var t := Next(s, InsertDoc(p));
    var r := s.producers[p];
    var e := Entry(r.phase.base + r.phase.done, MsgId(p, r.phase.done));
    assert t.log == s.log + [e];
    assert ProducerInv(s, q) && BatchLogged(s, q);
    if q == p {
      forall j: nat | j < Accepted(t.producers[p])
        ensures Entry(r.phase.base + j, MsgId(p, j)) in t.log
      {
        if j < Accepted(r) { assert Entry(r.phase.base + j, MsgId(p, j)) in s.log; }
      }
    }
  }

  lemma InsertKeepsEntries(s: State, p: PostId, f: Entry)
    requires Inv(s) && Enabled(s, InsertDoc(p)) && f in Next(s, InsertDoc(p)).log
    ensures EntryInv(Next(s, InsertDoc(p)), f)
  {
    assert ProducerInv(s, p);
    if f in s.log { assert EntryInv(s, f); }
  }

  lemma InsertKeepsDocs(s: State, p: PostId, k: nat)
    requires Inv(s) && Enabled(s, InsertDoc(p)) && k in Next(s, InsertDoc(p)).docs
    ensures DocInv(Next(s, InsertDoc(p)), k)
  {
    assert ProducerInv(s, p);
    if k in s.docs {
      assert DocInv(s, k);
      assert s.docs[k].id != MsgId(p, s.producers[p].phase.done);
    }
  }

  lemma InsertKeepsInv(s: State, p: PostId)
    requires Inv(s) && Enabled(s, InsertDoc(p))
    ensures Inv(Next(s, InsertDoc(p)))
  {
    var t := Next(s, InsertDoc(p));
    forall q | q in t.producers ensures ProducerInv(t, q) && BatchLogged(t, q) {
      InsertKeepsProducers(s, p, q);
    }
    forall f | f in t.log ensures EntryInv(t, f) {
      InsertKeepsEntries(s, p, f);
    }
    forall k | k in t.docs ensures DocInv(t, k) {
      InsertKeepsDocs(s, p, k);
    }
  }

  /** The counter grows and nothing else changes. */
  lemma BumpKeepsInv(s: State, value: nat, stamp: int)
    requires Inv(s) && s.value <= value
    ensures Inv(s.(value := value, stamp := stamp))
  {
    var t := s.(value := value, stamp := stamp);
    forall q | q in t.producers ensures ProducerInv(t, q) && BatchLogged(t, q) {
      assert ProducerInv(s, q) && BatchLogged(s, q);
    }
    forall e | e in t.log ensures EntryInv(t, e) {
      assert EntryInv(s, e);
    }
    forall k | k in t.docs ensures DocInv(t, k) {
      assert DocInv(s, k);
    }
  }

  lemma BeginKeepsInv(s: State, p: PostId, n: nat)
    requires Inv(s) && Enabled(s, Begin(p, n))
    ensures Inv(Next(s, Begin(p, n)))
  {
    var t := Next(s, Begin(p, n));
    forall q | q in t.producers ensures ProducerInv(t, q) && BatchLogged(t, q) {
      if q in s.producers { assert ProducerInv(s, q) && BatchLogged(s, q); }
    }
    forall e | e in t.log ensures EntryInv(t, e) {
      assert EntryInv(s, e);
    }
    forall k | k in t.docs ensures DocInv(t, k) {
      assert DocInv(s, k);
    }
  }

  /** A producer may drop its place, take one at the counter, or move on in the one it has. */
  ghost predicate Moves(s: State, p: PostId, r': Producer)
    requires p in s.producers
  {
    var r := s.producers[p];
    && r'.n == r.n && r'.floor == r.floor
    && (r'.phase == r.phase
        || (!HasBase(r'.phase) && (!HasBase(r.phase) || r.phase.Inserting?))
        || (!HasBase(r.phase) && r'.phase == Inserting(s.value, 0))
        || (r.phase.Inserted? && r'.phase == Counted(r.phase.base) && r.phase.base + r.n <= s.value)
        || (r.phase.Counted? && r'.phase == Returned(r.phase.base) && NonePending(s, p)))
  }

  lemma MoveKeepsProducer(s: State, p: PostId, r': Producer, q: PostId)
    requires Inv(s) && p in s.producers && Moves(s, p, r') && q in s.producers
    ensures var t := s.(producers := s.producers[p := r']); ProducerInv(t, q) && BatchLogged(t, q)
  {
    assert ProducerInv(s, q) && BatchLogged(s, q);
  }

  lemma MoveKeepsEntry(s: State, p: PostId, r': Producer, e: Entry)
    requires Inv(s) && p in s.producers && Moves(s, p, r') && e in s.log
    ensures EntryInv(s.(producers := s.producers[p := r']), e)
  {
    assert EntryInv(s, e);
  }

  lemma MoveKeepsDoc(s: State, p: PostId, r': Producer, k: nat)
    requires Inv(s) && p in s.producers && Moves(s, p, r') && k in s.docs
    ensures DocInv(s.(producers := s.producers[p := r']), k)
  {
    assert DocInv(s, k);
  }

  lemma PhaseChangeKeepsInv(s: State, p: PostId, r': Producer)
    requires Inv(s) && p in s.producers && Moves(s, p, r')
    ensures Inv(s.(producers := s.producers[p := r']))
  {
    var t := s.(producers := s.producers[p := r']);
    forall q | q in t.producers ensures ProducerInv(t, q) && BatchLogged(t, q) {
      MoveKeepsProducer(s, p, r', q);
    }
    forall e | e in t.log ensures EntryInv(t, e) {
      MoveKeepsEntry(s, p, r', e);
    }
    forall k | k in t.docs ensures DocInv(t, k) {
      MoveKeepsDoc(s, p, r', k);
    }
  }

  lemma DocsKeepInv(s: State, step: Step)
    requires Inv(s) && Enabled(s, step)
    requires step.FinaliseDoc? || step.Remove? || step.Watch? || step.Observe?
    ensures Inv(Next(s, step))
  {
    var t := Next(s, step);
    forall q | q in t.producers ensures ProducerInv(t, q) && BatchLogged(t, q) {
      assert ProducerInv(s, q) && BatchLogged(s, q);
    }
    forall e | e in t.log ensures EntryInv(t, e) {
      assert EntryInv(s, e);
    }
    forall k | k in t.docs ensures DocInv(t, k) {
      assert DocInv(s, k);
    }
  }

  lemma CountKeepsInv(s: State, p: PostId, now: int)
    requires Inv(s) && Enabled(s, Count(p, now))
    ensures Inv(Next(s, Count(p, now)))
  {
    assert ProducerInv(s, p);
    var u := s.(value := s.value + s.producers[p].n, stamp := now);
    BumpKeepsInv(s, u.value, now);
    var r' := s.producers[p].(phase := Counted(s.producers[p].phase.base));
    assert Next(s, Count(p, now)) == u.(producers := u.producers[p := r']);
    PhaseChangeKeepsInv(u, p, r');
  }

  /** An increment whose reply is lost. */
  lemma LostKeepsInv(s: State, step: Step)
    requires Inv(s) && Enabled(s, step) && (step.CountLost? || step.StallLost?)
    ensures Inv(Next(s, step))
  {
    var t := Next(s, step);
    assert t == s.(value := t.value, stamp := t.stamp);
    BumpKeepsInv(s, t.value, t.stamp);
  }

  lemma StallKeepsInv(s: State, p: PostId, now: int)
    requires Inv(s) && Enabled(s, StallBump(p, now))
    ensures Inv(Next(s, StallBump(p, now)))
  {
    var u := s.(value := s.value + 1, stamp := now);
    BumpKeepsInv(s, u.value, now);
    var r' := s.producers[p].(phase := Inserting(u.value, 0));
    assert Next(s, StallBump(p, now)) == u.(producers := u.producers[p := r']);
    PhaseChangeKeepsInv(u, p, r');
  }

  lemma PhaseStepKeepsInv(s: State, step: Step)
    requires Inv(s) && Enabled(s, step)
    requires step.Read? || step.Duplicate? || step.GiveUp? || step.StallSkip? || step.Return? || step.Crash?
    ensures Inv(Next(s, step))
  {
    var r' := Next(s, step).producers[step.p];
    assert Next(s, step) == s.(producers := s.producers[step.p := r']);
    PhaseChangeKeepsInv(s, step.p, r');
  }

  lemma StepKeepsInv(s: State, step: Step)
    requires Inv(s) && Enabled(s, step)
    ensures Inv(Next(s, step))
  {
    match step
    case InsertDoc(p) => InsertKeepsInv(s, p);
    case Begin(p, n) => BeginKeepsInv(s, p, n);
    case Count(p, now) => CountKeepsInv(s, p, now);
    case CountLost(_, _) => LostKeepsInv(s, step);
    case StallLost(_, _) => LostKeepsInv(s, step);
    case StallBump(p, now) => StallKeepsInv(s, p, now);
    case FinaliseDoc(_, _) => DocsKeepInv(s, step);
    case Remove(_) => DocsKeepInv(s, step);
    case Watch(_) => DocsKeepInv(s, step);
    case Observe(_, _) => DocsKeepInv(s, step);
    case _ => PhaseStepKeepsInv(s, step);
  }

  lemma {:induction false} RunKeepsInv(s: State, steps: seq<Step>)
    requires Inv(s) && Possible(s, steps)
    ensures Inv(After(s, steps))
    decreases |steps|
  {
    if steps != [] {
      StepKeepsInv(s, steps[0]);
      RunKeepsInv(Next(s, steps[0]), steps[1..]);
    }
  }

  // ---- Two-state facts ----

  /** What a state keeps from any state it can be reached from. */
  ghost predicate Extends(s: State, t: State) {
    && s.value <= t.value
    && s.log <= t.log
    && (forall p | p in s.producers :: p in t.producers
          && s.producers[p].n == t.producers[p].n && s.producers[p].floor == t.producers[p].floor
          && (s.producers[p].phase.Returned? ==> t.producers[p] == s.producers[p]))
    && (forall p | p in t.producers && p !in s.producers :: s.value <= t.producers[p].floor)
  }

  lemma {:induction false} RunExtends(s: State, steps: seq<Step>)
    requires Possible(s, steps)
    ensures Extends(s, After(s, steps))
    decreases |steps|
  {
    if steps != [] {
      var u := Next(s, steps[0]);
      assert Extends(s, u);
      RunExtends(u, steps[1..]);
    }
  }

  // ---- Main results ----

  /**
   Real-time order. If post a returned before post b began, every marker a ever
   used is below every marker b ever uses, in every continuation, whatever
   stalls, misfires, crashes and removals happen before, between and after.
   */
  lemma RealTimeOrder(origin: nat, before: seq<Step>, rest: seq<Step>, a: PostId, b: PostId)
    requires Possible(Init(origin), before)
    requires var s := After(Init(origin), before);
             && a in s.producers && s.producers[a].phase.Returned? && b !in s.producers
             && Possible(s, rest)
    ensures var t := After(After(Init(origin), before), rest);
            forall x, y | x in t.log && y in t.log && x.id.post == a && y.id.post == b :: x.k < y.k
  {
    RunKeepsInv(Init(origin), before);
    var s := After(Init(origin), before);
    RunKeepsInv(s, rest);
    RunExtends(s, rest);
    var t := After(s, rest);
    forall x, y | x in t.log && y in t.log && x.id.post == a && y.id.post == b
      ensures x.k < y.k
    {
      assert EntryInv(t, x) && EntryInv(t, y);
      assert ProducerInv(s, a);
    }
  }

  /** The counter only grows and no accepted insert is ever forgotten or reordered. */
  lemma CounterOnlyGrows(origin: nat, before: seq<Step>, rest: seq<Step>)
    requires Possible(Init(origin), before) && Possible(After(Init(origin), before), rest)
    ensures var s := After(Init(origin), before);
            var t := After(s, rest);
            origin <= s.value <= t.value && s.log <= t.log
  {
    RunExtends(Init(origin), before);
    RunExtends(After(Init(origin), before), rest);
  }

  /** Every base marker a batch uses was the counter's value at some moment since the call began. */
  lemma {:induction false} BaseIsPastCounterValue(origin: nat, steps: seq<Step>, p: PostId)
    returns (i: nat)
    requires Possible(Init(origin), steps)
    requires var s := After(Init(origin), steps); p in s.producers && HasBase(s.producers[p].phase)
    ensures i <= |steps| && Possible(Init(origin), steps[..i])
    ensures var s := After(Init(origin), steps);
            var u := After(Init(origin), steps[..i]);
            u.value == s.producers[p].phase.base && p in u.producers
    decreases |steps|
  {
    var last := |steps| - 1;
    var step := steps[last];
    assert steps == steps[..last] + [step];
    RunSnoc(Init(origin), steps[..last], step);
    var s := After(Init(origin), steps[..last]);
    if (step.Read? || step.StallBump?) && step.p == p {
      i := |steps|;
      assert steps[..i] == steps;
    } else {
      i := BaseIsPastCounterValue(origin, steps[..last], p);
      assert steps[..last][..i] == steps[..i];
    }
  }

  /**
   Batches become visible only as a whole. If a stored message of a post of two
   or more messages is finalised, then every message of the batch was stored,
   at consecutive markers in message order, the visible document is at its own
   place among them, and the counter has passed them all.
   */
  lemma VisibleBatchIsComplete(origin: nat, steps: seq<Step>, k: nat)
    requires Possible(Init(origin), steps)
    requires Visible(After(Init(origin), steps), k)
    ensures var s := After(Init(origin), steps);
            var id := s.docs[k].id;
            && id.post in s.producers
            && var r := s.producers[id.post];
            r.n >= 2 ==>
              && HasBase(r.phase) && id.index < r.n && k == r.phase.base + id.index
              && r.phase.base + r.n <= s.value
              && (forall j: nat | j < r.n :: Entry(r.phase.base + j, MsgId(id.post, j)) in s.log)
  {
    RunKeepsInv(Init(origin), steps);
    var s := After(Init(origin), steps);
    assert DocInv(s, k);
    var id := s.docs[k].id;
    assert EntryInv(s, Entry(k, id));
    assert ProducerInv(s, id.post) && BatchLogged(s, id.post);
  }

  /**
   A post that returned has all its messages logged at consecutive markers in
   message order, the counter is past them, and whichever of them are still
   stored are visible there.
   */
  lemma ReturnedPostIsStored(origin: nat, steps: seq<Step>, p: PostId)
    requires Possible(Init(origin), steps)
    requires var s := After(Init(origin), steps); p in s.producers && s.producers[p].phase.Returned?
    ensures var s := After(Init(origin), steps);
            var r := s.producers[p];
            && r.phase.base + r.n <= s.value
            && (forall j: nat | j < r.n :: Entry(r.phase.base + j, MsgId(p, j)) in s.log)
            && (forall k | k in s.docs && s.docs[k].id.post == p ::
                  !s.docs[k].pending && k == r.phase.base + s.docs[k].id.index)
  {
    RunKeepsInv(Init(origin), steps);
    var s := After(Init(origin), steps);
    assert ProducerInv(s, p) && BatchLogged(s, p);
    forall k | k in s.docs && s.docs[k].id.post == p
      ensures !s.docs[k].pending && k == s.producers[p].phase.base + s.docs[k].id.index
    {
      assert DocInv(s, k);
      assert EntryInv(s, Entry(k, s.docs[k].id));
    }
  }

  /** A post that raised an error has no message any listing, count or claim can see. */
  lemma FailedPostIsInvisible(origin: nat, steps: seq<Step>, p: PostId, k: nat)
    requires Possible(Init(origin), steps)
    requires var s := After(Init(origin), steps);
             p in s.producers && s.producers[p].phase.Failed? && k in s.docs && s.docs[k].id.post == p
    ensures !Visible(After(Init(origin), steps), k)
  {
    RunKeepsInv(Init(origin), steps);
    var s := After(Init(origin), steps);
    assert DocInv(s, k);
    assert EntryInv(s, Entry(k, s.docs[k].id));
  }

  /**
   What an error other than a conflict leaves behind. It ends the call where it
   stands, as a crash does: while the batch is not counted, its stored documents
   are visible exactly when the batch is a single message.
   */
  lemma UncountedVisibleIffSingle(origin: nat, steps: seq<Step>, k: nat)
    requires Possible(Init(origin), steps) && k in After(Init(origin), steps).docs
    requires var s := After(Init(origin), steps);
             var p := s.docs[k].id.post;
             p in s.producers && !s.producers[p].phase.Counted? && !s.producers[p].phase.Returned?
    ensures var s := After(Init(origin), steps);
            Visible(s, k) <==> s.producers[s.docs[k].id.post].n == 1
  {
    RunKeepsInv(Init(origin), steps);
    assert DocInv(After(Init(origin), steps), k);
  }

  // ---- The counter's timestamp ----

  /** The clock reading carried by the last increment of the counter, or the initial timestamp. */
  function LastReading(steps: seq<Step>, initial: int): int {
    if steps == [] then initial
    else
      match steps[|steps| - 1]
      case Count(_, now) => now
      case CountLost(_, now) => now
      case StallBump(_, now) => now
      case StallLost(_, now) => now
      case _ => LastReading(steps[..|steps| - 1], initial)
  }

  /** In every run the counter's timestamp is the reading of its last increment, of either kind. */
  lemma {:induction false} StampIsLastReading(s: State, steps: seq<Step>)
    requires Possible(s, steps)
    ensures After(s, steps).stamp == LastReading(steps, s.stamp)
    decreases |steps|
  {
    if steps != [] {
      var m := |steps| - 1;
      assert steps == steps[..m] + [steps[m]];
      RunSnoc(s, steps[..m], steps[m]);
      StampIsLastReading(s, steps[..m]);
    }
  }

  /** A stall increment is attempted by a post in conflict; it takes effect exactly when the
      last increment's reading is more than five seconds behind this worker's. */
  lemma StallsIffFiveSecondsOld(origin: nat, steps: seq<Step>, p: PostId, now: int)
    requires Possible(Init(origin), steps)
    requires var s := After(Init(origin), steps); Alive(s, p) && s.producers[p].phase.Conflicted?
    ensures var s := After(Init(origin), steps);
            && (Enabled(s, StallBump(p, now)) <==> LastReading(steps, 0) < now - 5)
            && (Enabled(s, StallLost(p, now)) <==> LastReading(steps, 0) < now - 5)
            && (Enabled(s, StallSkip(p, now)) <==> LastReading(steps, 0) >= now - 5)
  {
    StampIsLastReading(Init(origin), steps);
  }

  // ---- Why removals are kept out of gap freedom ----

  lemma Prepend(s: State, step: Step, rest: seq<Step>)
    requires Enabled(s, step) && Possible(Next(s, step), rest)
    ensures Possible(s, [step] + rest) && After(s, [step] + rest) == After(Next(s, step), rest)
  {
    assert ([step] + rest)[0] == step && ([step] + rest)[1..] == rest;
  }

  /** A post has stored its message, has crashed, and the message is gone. */
  function Orphaned(origin: nat): State {
    State(origin, origin, 0, map[], [Entry(origin, MsgId(0, 0))],
          map[0 := Producer(1, origin, Inserted(origin), false)], map[])
  }

  /** The same before the crash and the removal. */
  function Uncounted(origin: nat): State {
    State(origin, origin, 0, map[origin := Doc(MsgId(0, 0), false)], [Entry(origin, MsgId(0, 0))],
          map[0 := Producer(1, origin, Inserted(origin), true)], map[])
  }

  lemma UncountedIsReached(origin: nat, rest: seq<Step>)
    requires Possible(Uncounted(origin), rest)
    ensures var run := [Begin(0, 1)] + ([Read(0)] + ([InsertDoc(0)] + rest));
            Possible(Init(origin), run) && After(Init(origin), run) == After(Uncounted(origin), rest)
  {
    var s1 := Next(Init(origin), Begin(0, 1));
    var s2 := Next(s1, Read(0));
    assert Accepts(s2, origin, MsgId(0, 0));
    assert Next(s2, InsertDoc(0)) == Uncounted(origin);
    Prepend(s2, InsertDoc(0), rest);
    var r := [InsertDoc(0)] + rest;
    Prepend(s1, Read(0), r);
    Prepend(Init(origin), Begin(0, 1), [Read(0)] + r);
  }

  lemma OrphanIsReached(origin: nat, rest: seq<Step>)
    requires Possible(Orphaned(origin), rest)
    ensures var run := [Begin(0, 1)] + ([Read(0)] + ([InsertDoc(0)] + ([Crash(0)] + ([Remove(origin)] + rest))));
            Possible(Init(origin), run) && After(Init(origin), run) == After(Orphaned(origin), rest)
  {
    var s3 := Uncounted(origin);
    var s4 := Next(s3, Crash(0));
    assert Next(s4, Remove(origin)) == Orphaned(origin);
    Prepend(s4, Remove(origin), rest);
    Prepend(s3, Crash(0), [Remove(origin)] + rest);
    UncountedIsReached(origin, [Crash(0)] + ([Remove(origin)] + rest));
  }

  function ReusingSteps(origin: nat): seq<Step> {
    [Begin(0, 1)] + ([Read(0)] + ([InsertDoc(0)] + ([Crash(0)] + ([Remove(origin)] +
    ([Begin(1, 1)] + ([Read(1)] + ([InsertDoc(1)] + [])))))))
  }

  /** A marker that a crashed post left uncounted is used again once its message is removed. */
  lemma RemovedMarkerIsReused(origin: nat)
    ensures Possible(Init(origin), ReusingSteps(origin))
    ensures var t := After(Init(origin), ReusingSteps(origin));
            && t.log == [Entry(origin, MsgId(0, 0)), Entry(origin, MsgId(1, 0))]
            && t.docs == map[origin := Doc(MsgId(1, 0), false)]
  {
    var s5 := Orphaned(origin);
    var s6 := Next(s5, Begin(1, 1));
    var s7 := Next(s6, Read(1));
    assert Accepts(s7, origin, MsgId(1, 0));
    Prepend(s7, InsertDoc(1), []);
    var r := [InsertDoc(1)] + [];
    Prepend(s6, Read(1), r);
    r := [Read(1)] + r;
    Prepend(s5, Begin(1, 1), r);
    OrphanIsReached(origin, [Begin(1, 1)] + r);
  }
}
