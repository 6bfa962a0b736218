/**
 The posting protocol of the FIFO message controller, as a transition system.

 Any number of producers, observers and other clients share one queue of one
 project through single-document database operations. Every database
 operation of `FIFOMessageController.post` is one step; a batch insert is one
 step per document, and finalising a batch is one step per document. A step
 that reads a worker's clock carries the reading, so no assumption is made
 about how the clocks of different workers relate.
 */
module Fifo {
  import opened Wrappers

  type PostId = nat
  type ObserverId = nat

  /** The `_id` of a message document: the index-th message of one post. */
  datatype MsgId = MsgId(post: PostId, index: nat)

  /** A stored document; `pending` says that its `tx` field is not None. */
  datatype Doc = Doc(id: MsgId, pending: bool)

  /** One accepted document insert. */
  datatype Entry = Entry(k: nat, id: MsgId)

  /** Where a call of `post` stands. */
  datatype Phase =
    | Reading                            // about to read the counter
    | Inserting(base: nat, done: nat)    // markers start at base, `done` documents accepted
    | Inserted(base: nat)                // the batch insert returned
    | Counted(base: nat)                 // the counter was incremented
    | Returned(base: nat)                // the ids were returned to the client
    | Conflicted                         // DuplicateKeyError was caught
    | Failed                             // an error was raised

  /** `floor` records the counter value at the moment the call began. */
  datatype Producer = Producer(n: nat, floor: nat, phase: Phase, alive: bool)

  /** A client paging by marker, with the messages it was given so far. */
  datatype Observer = Observer(marker: Option<nat>, seen: seq<MsgId>)

  /**
   The message collection of one queue, keyed by marker (the unique index makes
   it a map), its counter document (`c.v`, `c.t`), the clients, and the history
   of all accepted inserts.
   */
  datatype State = State(
    origin: nat,
    value: nat,
    stamp: int,
    docs: map<nat, Doc>,
    log: seq<Entry>,
    producers: map<PostId, Producer>,
    observers: map<ObserverId, Observer>)

  datatype Step =
    | Begin(p: PostId, n: nat)          // a client calls post with n messages
    | Read(p: PostId)                   // _get_counter
    | InsertDoc(p: PostId)              // one document of the batch is accepted
    | Duplicate(p: PostId)              // one document of the batch violates a unique index
    | GiveUp(p: PostId)                 // post raises
    | StallBump(p: PostId, now: int)    // _inc_counter with a window increments
    | StallLost(p: PostId, now: int)    // the same, but the reply is lost and the call is repeated
    | StallSkip(p: PostId, now: int)    // _inc_counter with a window returns None
    | Count(p: PostId, now: int)        // _inc_counter by the batch size
    | CountLost(p: PostId, now: int)    // the same, but the reply is lost and the call is repeated
    | FinaliseDoc(p: PostId, k: nat)    // tx of one document is set to None
    | Return(p: PostId)                 // post returns the ids
    | Crash(p: PostId)                  // the worker dies or loses its connection
    | Remove(k: nat)                    // a message is deleted, popped or expires
    | Watch(o: ObserverId)              // an observer starts without a marker
    | Observe(o: ObserverId, k: nat)    // the observer's listing yields the document at k

  const COUNTER_STALL_WINDOW: int := 5

  function Init(origin: nat): State {
    State(origin, origin, 0, map[], [], map[], map[])
  }

  predicate Alive(s: State, p: PostId) {
    p in s.producers && s.producers[p].alive
  }

  /** No stored document has this `_id`. */
  predicate IdFree(s: State, id: MsgId) {
    forall k | k in s.docs :: s.docs[k].id != id
  }

  predicate Accepts(s: State, k: nat, id: MsgId) {
    k !in s.docs && IdFree(s, id)
  }

  predicate Past(marker: Option<nat>, k: nat) {
    marker.None? || marker.value < k
  }

  predicate Visible(s: State, k: nat) {
    k in s.docs && !s.docs[k].pending
  }

  /** k is what a listing from `marker` yields next: the first finalised document after it. */
  predicate IsNext(s: State, marker: Option<nat>, k: nat) {
    Visible(s, k) && Past(marker, k)
    && forall j | j in s.docs :: Visible(s, j) && Past(marker, j) ==> k <= j
  }

  predicate NonePending(s: State, p: PostId) {
    forall k | k in s.docs :: s.docs[k].id.post == p ==> !s.docs[k].pending
  }

  predicate Enabled(s: State, step: Step) {
    match step
    case Begin(p, n) => p !in s.producers
    case Read(p) => Alive(s, p) && s.producers[p].phase.Reading?
    case InsertDoc(p) =>
      Alive(s, p) && var r := s.producers[p];
      r.phase.Inserting? && r.phase.done < r.n
      && Accepts(s, r.phase.base + r.phase.done, MsgId(p, r.phase.done))
    case Duplicate(p) =>
      Alive(s, p) && var r := s.producers[p];
      r.phase.Inserting? && r.phase.done < r.n
      && !Accepts(s, r.phase.base + r.phase.done, MsgId(p, r.phase.done))
    case GiveUp(p) =>
      Alive(s, p) && var r := s.producers[p];
      r.phase.Conflicted? || (r.phase.Inserting? && r.phase.done == 0)
    case StallBump(p, now) =>
      Alive(s, p) && s.producers[p].phase.Conflicted? && s.stamp < now - COUNTER_STALL_WINDOW
    case StallLost(p, now) =>
      Alive(s, p) && s.producers[p].phase.Conflicted? && s.stamp < now - COUNTER_STALL_WINDOW
    case StallSkip(p, now) =>
      Alive(s, p) && s.producers[p].phase.Conflicted? && !(s.stamp < now - COUNTER_STALL_WINDOW)
    case Count(p, now) => Alive(s, p) && s.producers[p].phase.Inserted?
    case CountLost(p, now) => Alive(s, p) && s.producers[p].phase.Inserted?
    case FinaliseDoc(p, k) =>
      Alive(s, p) && s.producers[p].phase.Counted? && k in s.docs && s.docs[k].id.post == p
    case Return(p) => Alive(s, p) && s.producers[p].phase.Counted? && NonePending(s, p)
    case Crash(p) =>
      Alive(s, p) && !s.producers[p].phase.Returned? && !s.producers[p].phase.Failed?
    case Remove(k) => k in s.docs
    case Watch(o) => o !in s.observers
    case Observe(o, k) => o in s.observers && IsNext(s, s.observers[o].marker, k)
  }

  function SetPhase(s: State, p: PostId, phase: Phase): State
    requires p in s.producers
  {
    s.(producers := s.producers[p := s.producers[p].(phase := phase)])
  }

  function AfterInsert(base: nat, done: nat, n: nat): Phase {
    if done < n then Inserting(base, done) else Inserted(base)
  }

  /** A batch of one message is stored with `tx` already None. */
  function NewDoc(p: PostId, index: nat, n: nat): Doc {
    Doc(MsgId(p, index), n != 1)
  }

  function Next(s: State, step: Step): State
    requires Enabled(s, step)
  {
    match step
    case Begin(p, n) =>
      s.(producers := s.producers[p := Producer(n, s.value, Reading, true)])
    case Read(p) => SetPhase(s, p, Inserting(s.value, 0))
    case InsertDoc(p) =>
      var r := s.producers[p];
      var k, i := r.phase.base + r.phase.done, r.phase.done;
      SetPhase(s, p, AfterInsert(r.phase.base, i + 1, r.n))
        .(docs := s.docs[k := NewDoc(p, i, r.n)], log := s.log + [Entry(k, MsgId(p, i))])
    case Duplicate(p) => SetPhase(s, p, Conflicted)
    case GiveUp(p) => SetPhase(s, p, Failed)
    case StallBump(p, now) =>
      SetPhase(s, p, Inserting(s.value + 1, 0)).(value := s.value + 1, stamp := now)
    case StallLost(p, now) => s.(value := s.value + 1, stamp := now)
    case StallSkip(p, now) => SetPhase(s, p, Reading)
    case Count(p, now) =>
      var r := s.producers[p];
      SetPhase(s, p, Counted(r.phase.base)).(value := s.value + r.n, stamp := now)
    case CountLost(p, now) => s.(value := s.value + s.producers[p].n, stamp := now)
    case FinaliseDoc(p, k) => s.(docs := s.docs[k := s.docs[k].(pending := false)])
    case Return(p) => SetPhase(s, p, Returned(s.producers[p].phase.base))
    case Crash(p) => s.(producers := s.producers[p := s.producers[p].(alive := false)])
    case Remove(k) => s.(docs := s.docs - {k})
    case Watch(o) => s.(observers := s.observers[o := Observer(None, [])])
    case Observe(o, k) =>
      s.(observers := s.observers[o := Observer(Some(k), s.observers[o].seen + [s.docs[k].id])])
  }

  // ---- Runs ----

  predicate Possible(s: State, steps: seq<Step>)
    decreases |steps|
  {
    steps == [] || (Enabled(s, steps[0]) && Possible(Next(s, steps[0]), steps[1..]))
  }

  function After(s: State, steps: seq<Step>): State
    requires Possible(s, steps)
    decreases |steps|
  {
    if steps == [] then s else After(Next(s, steps[0]), steps[1..])
  }

  lemma {:induction false} RunsCompose(s: State, a: seq<Step>, b: seq<Step>)
    ensures Possible(s, a + b) <==> Possible(s, a) && Possible(After(s, a), b)
    ensures Possible(s, a + b) ==> After(s, a + b) == After(After(s, a), b)
    decreases |a|
  {
    if a == [] {
      assert a + b == b;
    } else {
      assert (a + b)[0] == a[0] && (a + b)[1..] == a[1..] + b;
      if Enabled(s, a[0]) {
        RunsCompose(Next(s, a[0]), a[1..], b);
      }
    }
  }

  lemma RunSnoc(s: State, steps: seq<Step>, step: Step)
    ensures Possible(s, steps + [step]) <==> Possible(s, steps) && Enabled(After(s, steps), step)
    ensures Possible(s, steps + [step]) ==> After(s, steps + [step]) == Next(After(s, steps), step)
  {
    RunsCompose(s, steps, [step]);
    if Possible(s, steps) {
      var t := After(s, steps);
      assert [step][1..] == [];
      if Enabled(t, step) {
        assert Possible(Next(t, step), []);
        assert After(Next(t, step), []) == Next(t, step);
      }
    }
  }
}
