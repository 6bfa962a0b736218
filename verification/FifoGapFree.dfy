/**
 Gap freedom of the FIFO posting protocol. In runs without message removal and
 without repeated increments, where a stall increment fires only when the owner
 of the uncounted batch has crashed, the stored markers are always one gap-free
 interval in insertion order. The condition on stall increments is exact.
 */
module FifoGapFree {
  import opened Fifo
  import opened NatSets

  /** One past the last stored marker when the markers are gap-free. */
  function End(s: State): nat {
    s.origin + |s.log|
  }

  /** The document the counter points at belongs to a crashed post. */
  predicate OwnerCrashed(s: State) {
    s.value in s.docs
    && var h := s.docs[s.value].id.post;
    h in s.producers && !s.producers[h].alive
  }

  /** A stall increment, whether or not its reply arrives. */
  predicate Stalls(step: Step) {
    step.StallBump? || step.StallLost?
  }

  predicate Benign(s: State, step: Step) {
    && !step.Remove? && !step.CountLost?
    && (Stalls(step) ==> OwnerCrashed(s))
  }

  predicate BenignRun(s: State, steps: seq<Step>)
    requires Possible(s, steps)
    decreases |steps|
  {
    steps == [] || (Benign(s, steps[0]) && BenignRun(Next(s, steps[0]), steps[1..]))
  }

  // ---- The invariant ----

  /** The markers are an interval and the marker order is the insertion order. */
  ghost predicate Contiguous(s: State) {
    && (forall k: nat :: k in s.docs <==> s.origin <= k < End(s))
    && (forall k: nat | s.origin <= k < End(s) :: s.log[k - s.origin] == Entry(k, s.docs[k].id))
    && s.origin <= s.value <= End(s)
  }

  /** The stored documents of p are its first m messages, in order, from base. */
  ghost predicate Holds(s: State, p: PostId, base: nat, m: nat) {
    && s.origin <= base && base + m <= End(s)
    && (forall k: nat | k in s.docs :: s.docs[k].id.post == p <==> base <= k < base + m)
    && (forall k: nat | k in s.docs && base <= k < base + m :: s.docs[k].id.index == k - base)
  }

  /** What is known about a post that has not crashed. */
  ghost predicate LiveInv(s: State, p: PostId)
    requires p in s.producers
  {
    var r := s.producers[p];
    match r.phase
    case Reading => Holds(s, p, s.origin, 0)
    case Conflicted => Holds(s, p, s.origin, 0)
    case Failed => Holds(s, p, s.origin, 0)
    case Inserting(base, done) =>
      && s.origin <= base <= s.value && Holds(s, p, base, done)
      && done <= r.n && (done > 0 ==> done < r.n && base == s.value && base + done == End(s))
    case Inserted(base) => r.n > 0 && base == s.value && base + r.n == End(s) && Holds(s, p, base, r.n)
    case Counted(base) => base + r.n <= s.value && Holds(s, p, base, r.n)
    case Returned(base) => base + r.n <= s.value && Holds(s, p, base, r.n)
  }

  /** At most one batch is uncounted, and it is the last one. */
  ghost predicate OneUncounted(s: State) {
    forall k: nat | s.value <= k < End(s) && s.value in s.docs && k in s.docs ::
      s.docs[k].id.post == s.docs[s.value].id.post
  }

  /** Whoever owns uncounted documents is still going to count them, or has crashed. */
  ghost predicate OwnersKnown(s: State) {
    forall k: nat | k in s.docs ::
      var h := s.docs[k].id.post;
      && h in s.producers
      && (k >= s.value && s.producers[h].alive ==>
            s.producers[h].phase.Inserting? || s.producers[h].phase.Inserted?)
  }

  ghost predicate Inv(s: State) {
    && Contiguous(s)
    && OneUncounted(s)
    && OwnersKnown(s)
    && (forall p | p in s.producers && s.producers[p].alive :: LiveInv(s, p))
  }

  // ---- Facts inside one state ----

  /** The first document of a batch is accepted only at the very end of the queue. */
  lemma FirstInsertAtEnd(s: State, p: PostId)
    requires Inv(s) && Enabled(s, InsertDoc(p)) && s.producers[p].phase.done == 0
    ensures s.producers[p].phase.base == s.value == End(s)
  {
    assert LiveInv(s, p);
    assert s.producers[p].phase.base !in s.docs;
  }

  /** A live post with uncounted documents owns the document the counter points at. */
  lemma HolderOwnsCounter(s: State, q: PostId)
    requires Inv(s) && q in s.producers && s.producers[q].alive
    requires var ph := s.producers[q].phase; ph.Inserted? || (ph.Inserting? && ph.done > 0)
    ensures s.value in s.docs && s.docs[s.value].id.post == q
  {
    assert LiveInv(s, q);
  }

  /** A batch insert fails on its first document or not at all. */
  lemma DuplicateOnlyOnFirst(s: State, p: PostId)
    requires Inv(s) && Enabled(s, Duplicate(p))
    ensures s.producers[p].phase.done == 0
    ensures s.producers[p].phase.base in s.docs
  {
    assert LiveInv(s, p);
    var base, done := s.producers[p].phase.base, s.producers[p].phase.done;
    if done > 0 {
      assert base + done !in s.docs;
      forall k | k in s.docs ensures s.docs[k].id != MsgId(p, done) {
        if s.docs[k].id.post == p { assert s.docs[k].id.index == k - base; }
      }
      assert Accepts(s, base + done, MsgId(p, done));
    } else {
      assert IdFree(s, MsgId(p, 0));
    }
  }

  // ---- Every benign step keeps the invariant ----

  /** Every document that is accepted goes to the end of the queue. */
  lemma InsertIsAtEnd(s: State, p: PostId)
    requires Inv(s) && Enabled(s, InsertDoc(p))
    ensures var ph := s.producers[p].phase; ph.base + ph.done == End(s) && ph.base == s.value
  {
    assert LiveInv(s, p);
    if s.producers[p].phase.done == 0 { FirstInsertAtEnd(s, p); }
  }

  lemma InsertKeepsContiguous(s: State, p: PostId)
    requires Inv(s) && Enabled(s, InsertDoc(p))
    ensures var r := s.producers[p];
            var t := Next(s, InsertDoc(p));
            && r.phase.base + r.phase.done == End(s)
            && r.phase.base == s.value
            && t.docs == s.docs[End(s) := NewDoc(p, r.phase.done, r.n)]
            && End(t) == End(s) + 1
            && Contiguous(t)
  {
    InsertIsAtEnd(s, p);
    var r := s.producers[p];
    AppendKeepsContiguous(s, Next(s, InsertDoc(p)), NewDoc(p, r.phase.done, r.n));
  }

  lemma AppendKeepsContiguous(s: State, t: State, d: Doc)
    requires Contiguous(s) && t.origin == s.origin && t.value == s.value
    requires t.docs == s.docs[End(s) := d] && t.log == s.log + [Entry(End(s), d.id)]
    ensures Contiguous(t)
  {
    forall k: nat | t.origin <= k < End(t)
      ensures t.log[k - t.origin] == Entry(k, t.docs[k].id)
    {
      if k < End(s) { assert s.log[k - s.origin] == Entry(k, s.docs[k].id); }
    }
  }

  lemma InsertLiveSelf(s: State, p: PostId)
    requires Inv(s) && Enabled(s, InsertDoc(p))
    ensures LiveInv(Next(s, InsertDoc(p)), p)
  {
    InsertKeepsContiguous(s, p);
    assert LiveInv(s, p);
    var t := Next(s, InsertDoc(p));
    var r := s.producers[p];
    assert Holds(t, p, r.phase.base, r.phase.done + 1);
  }

  lemma NoOtherHolder(s: State, p: PostId, q: PostId)
    requires Inv(s) && Enabled(s, InsertDoc(p))
    requires q in s.producers && s.producers[q].alive && q != p
    ensures var ph := s.producers[q].phase; !ph.Inserted? && (ph.Inserting? ==> ph.done == 0)
  {
    var ph := s.producers[q].phase;
    if ph.Inserted? || (ph.Inserting? && ph.done > 0) {
      HolderOwnsCounter(s, q);
      if s.producers[p].phase.done > 0 { HolderOwnsCounter(s, p); } else { FirstInsertAtEnd(s, p); }
      assert false;
    }
  }

  lemma AppendKeepsHolds(s: State, t: State, d: Doc, q: PostId, base: nat, m: nat)
    requires t.origin == s.origin && End(t) == End(s) + 1
    requires t.docs == s.docs[End(s) := d] && d.id.post != q
    requires Holds(s, q, base, m)
    ensures Holds(t, q, base, m)
  {
  }

  /** A post without uncounted documents is not affected by what others append. */
  lemma AppendKeepsLive(s: State, t: State, d: Doc, q: PostId)
    requires t.origin == s.origin && t.value == s.value && End(t) == End(s) + 1
    requires t.docs == s.docs[End(s) := d] && d.id.post != q
    requires q in s.producers && q in t.producers && t.producers[q] == s.producers[q]
    requires var ph := s.producers[q].phase; !ph.Inserted? && (ph.Inserting? ==> ph.done == 0)
    requires LiveInv(s, q)
    ensures LiveInv(t, q)
  {
    var r := s.producers[q];
    match r.phase
    case Inserting(base, done) => AppendKeepsHolds(s, t, d, q, base, done);
    case Counted(base) => AppendKeepsHolds(s, t, d, q, base, r.n);
    case Returned(base) => AppendKeepsHolds(s, t, d, q, base, r.n);
    case Reading => AppendKeepsHolds(s, t, d, q, s.origin, 0);
    case Conflicted => AppendKeepsHolds(s, t, d, q, s.origin, 0);
    case Failed => AppendKeepsHolds(s, t, d, q, s.origin, 0);
  }

  lemma InsertLiveOther(s: State, p: PostId, q: PostId)
    requires Inv(s) && Enabled(s, InsertDoc(p))
    requires q in s.producers && s.producers[q].alive && q != p
    ensures LiveInv(Next(s, InsertDoc(p)), q)
  {
    InsertKeepsContiguous(s, p);
    NoOtherHolder(s, p, q);
    var r := s.producers[p];
    AppendKeepsLive(s, Next(s, InsertDoc(p)), NewDoc(p, r.phase.done, r.n), q);
  }

  lemma InsertKeepsOwners(s: State, p: PostId)
    requires Inv(s) && Enabled(s, InsertDoc(p))
    ensures var t := Next(s, InsertDoc(p)); OneUncounted(t) && OwnersKnown(t)
  {
    InsertKeepsContiguous(s, p);
    assert LiveInv(s, p);
    var t := Next(s, InsertDoc(p));
    forall k: nat | t.value <= k < End(t) && t.value in t.docs && k in t.docs
      ensures t.docs[k].id.post == t.docs[t.value].id.post
    {
      assert t.docs[k].id.post == p;
    }
  }

  lemma InsertKeepsInv(s: State, p: PostId)
    requires Inv(s) && Enabled(s, InsertDoc(p))
    ensures Inv(Next(s, InsertDoc(p)))
  {
    InsertKeepsContiguous(s, p);
    InsertKeepsOwners(s, p);
    var t := Next(s, InsertDoc(p));
    forall q | q in t.producers && t.producers[q].alive ensures LiveInv(t, q) {
      if q == p { InsertLiveSelf(s, p); } else { InsertLiveOther(s, p, q); }
    }
  }

  lemma CountKeepsLive(s: State, p: PostId, now: int, q: PostId)
    requires Inv(s) && Enabled(s, Count(p, now)) && q in s.producers && s.producers[q].alive
    ensures LiveInv(Next(s, Count(p, now)), q)
  {
    assert LiveInv(s, p) && LiveInv(s, q);
    var t := Next(s, Count(p, now));
    if q == p {
      assert Holds(t, p, s.producers[p].phase.base, s.producers[p].n);
    } else {
      NoTwoHolders(s, p, q);
      BumpKeepsLive(s, t, q);
    }
  }

  lemma NoTwoHolders(s: State, p: PostId, q: PostId)
    requires Inv(s) && Alive(s, p) && s.producers[p].phase.Inserted? && Alive(s, q) && q != p
    ensures var ph := s.producers[q].phase; !ph.Inserted? && (ph.Inserting? ==> ph.done == 0)
  {
    HolderOwnsCounter(s, p);
    var ph := s.producers[q].phase;
    if ph.Inserted? || (ph.Inserting? && ph.done > 0) {
      HolderOwnsCounter(s, q);
      assert false;
    }
  }

  lemma CountKeepsInv(s: State, p: PostId, now: int)
    requires Inv(s) && Enabled(s, Count(p, now))
    ensures Inv(Next(s, Count(p, now)))
    ensures Next(s, Count(p, now)).value == End(s)
  {
    assert LiveInv(s, p);
    var t := Next(s, Count(p, now));
    assert t.value == End(s) && End(t) == End(s) && t.docs == s.docs && t.log == s.log;
    forall q | q in t.producers && t.producers[q].alive ensures LiveInv(t, q) {
      CountKeepsLive(s, p, now, q);
    }
  }

  /** A post without uncounted documents is not affected when the counter grows. */
  lemma BumpKeepsLive(s: State, t: State, q: PostId)
    requires t.origin == s.origin && s.value <= t.value && t.docs == s.docs && t.log == s.log
    requires q in s.producers && q in t.producers && t.producers[q] == s.producers[q]
    requires var ph := s.producers[q].phase; !ph.Inserted? && (ph.Inserting? ==> ph.done == 0)
    requires LiveInv(s, q)
    ensures LiveInv(t, q)
  {
    forall base: nat, m: nat | Holds(s, q, base, m) ensures Holds(t, q, base, m) {
      assert End(t) == End(s);
    }
  }

  lemma StallKeepsLive(s: State, step: Step, q: PostId)
    requires Inv(s) && Stalls(step) && Enabled(s, step) && OwnerCrashed(s)
    requires q in s.producers && s.producers[q].alive
    ensures LiveInv(Next(s, step), q)
  {
    assert LiveInv(s, q);
    var ph := s.producers[q].phase;
    if ph.Inserted? || (ph.Inserting? && ph.done > 0) {
      HolderOwnsCounter(s, q);
      assert false;
    }
    var t := Next(s, step);
    if t.producers[q] == s.producers[q] {
      BumpKeepsLive(s, t, q);
    } else {
      assert Holds(t, q, t.value, 0);
    }
  }

  lemma StallKeepsOwners(s: State, step: Step)
    requires Inv(s) && Stalls(step) && Enabled(s, step) && OwnerCrashed(s)
    ensures var t := Next(s, step); Contiguous(t) && OneUncounted(t) && OwnersKnown(t)
  {
    var t := Next(s, step);
    var h := s.docs[s.value].id.post;
    assert LiveInv(s, step.p);
    forall k: nat | s.value <= k < End(s) ensures k in s.docs && s.docs[k].id.post == h {
    }
  }

  lemma StallKeepsInv(s: State, step: Step)
    requires Inv(s) && Stalls(step) && Enabled(s, step) && OwnerCrashed(s)
    ensures Inv(Next(s, step))
  {
    StallKeepsOwners(s, step);
    var t := Next(s, step);
    forall q | q in t.producers && t.producers[q].alive ensures LiveInv(t, q) {
      StallKeepsLive(s, step, q);
    }
  }

  /** Steps that leave documents and counter alone. */
  lemma PhaseKeepsInv(s: State, p: PostId, r': Producer)
    requires Inv(s) && p in s.producers && s.producers[p].alive
    requires r'.alive ==> LiveInv(s.(producers := s.producers[p := r']), p)
    requires r'.alive && (exists k | k in s.docs && k >= s.value :: s.docs[k].id.post == p) ==>
               r'.phase.Inserting? || r'.phase.Inserted?
    ensures Inv(s.(producers := s.producers[p := r']))
  {
    var t := s.(producers := s.producers[p := r']);
    forall q | q in t.producers && t.producers[q].alive ensures LiveInv(t, q) {
      if q != p { assert LiveInv(s, q); }
    }
  }

  lemma BeginKeepsLive(s: State, p: PostId, n: nat, q: PostId)
    requires Inv(s) && Enabled(s, Begin(p, n)) && (q == p || (q in s.producers && s.producers[q].alive))
    ensures LiveInv(Next(s, Begin(p, n)), q)
  {
    if q == p {
      assert forall k | k in s.docs :: s.docs[k].id.post != p;
    } else {
      assert LiveInv(s, q);
    }
  }

  lemma BeginKeepsInv(s: State, p: PostId, n: nat)
    requires Inv(s) && Enabled(s, Begin(p, n))
    ensures Inv(Next(s, Begin(p, n)))
  {
    var t := Next(s, Begin(p, n));
    forall q | q in t.producers && t.producers[q].alive ensures LiveInv(t, q) {
      BeginKeepsLive(s, p, n, q);
    }
  }

  /** t differs from s at most in `pending` flags and observers. */
  ghost predicate SameSkeleton(s: State, t: State) {
    && t.origin == s.origin && t.value == s.value && t.log == s.log && t.producers == s.producers
    && (forall k :: k in t.docs <==> k in s.docs)
    && (forall k | k in s.docs && k in t.docs :: t.docs[k].id == s.docs[k].id)
  }

  lemma SkeletonKeepsHolds(s: State, t: State, p: PostId, base: nat, m: nat)
    requires SameSkeleton(s, t) && Holds(s, p, base, m)
    ensures Holds(t, p, base, m)
  {
  }

  lemma SkeletonKeepsLive(s: State, t: State, p: PostId)
    requires SameSkeleton(s, t) && p in s.producers && LiveInv(s, p)
    ensures LiveInv(t, p)
  {
    var r := s.producers[p];
    match r.phase
    case Inserting(base, done) => SkeletonKeepsHolds(s, t, p, base, done);
    case Inserted(base) => SkeletonKeepsHolds(s, t, p, base, r.n);
    case Counted(base) => SkeletonKeepsHolds(s, t, p, base, r.n);
    case Returned(base) => SkeletonKeepsHolds(s, t, p, base, r.n);
    case _ => SkeletonKeepsHolds(s, t, p, s.origin, 0);
  }

  lemma SkeletonKeepsInv(s: State, t: State)
    requires Inv(s) && SameSkeleton(s, t)
    ensures Inv(t)
  {
    assert Contiguous(t) && OneUncounted(t) && OwnersKnown(t);
    forall q | q in t.producers && t.producers[q].alive ensures LiveInv(t, q) {
      SkeletonKeepsLive(s, t, q);
    }
  }

  /** A live post without documents may move between phases that need none. */
  lemma EmptyHandedKeepsInv(s: State, p: PostId, phase: Phase)
    requires Inv(s) && p in s.producers && s.producers[p].alive
    requires var ph := s.producers[p].phase;
             ph.Reading? || ph.Conflicted? || (ph.Inserting? && ph.done == 0)
    requires phase.Reading? || phase.Conflicted? || phase.Failed? || phase == Inserting(s.value, 0)
    ensures Inv(SetPhase(s, p, phase))
  {
    assert LiveInv(s, p);
    assert forall k | k in s.docs :: s.docs[k].id.post != p;
    PhaseKeepsInv(s, p, s.producers[p].(phase := phase));
  }

  lemma ReturnKeepsInv(s: State, p: PostId)
    requires Inv(s) && Enabled(s, Return(p))
    ensures Inv(Next(s, Return(p)))
  {
    assert LiveInv(s, p);
    PhaseKeepsInv(s, p, s.producers[p].(phase := Returned(s.producers[p].phase.base)));
  }

  lemma StepKeepsInv(s: State, step: Step)
    requires Inv(s) && Enabled(s, step) && Benign(s, step)
    ensures Inv(Next(s, step))
  {
    match step
    case Begin(p, n) => BeginKeepsInv(s, p, n);
    case InsertDoc(p) => InsertKeepsInv(s, p);
    case Count(p, now) => CountKeepsInv(s, p, now);
    case StallBump(_, _) => StallKeepsInv(s, step);
    case StallLost(_, _) => StallKeepsInv(s, step);
    case FinaliseDoc(p, k) => SkeletonKeepsInv(s, Next(s, step));
    case Watch(_) => SkeletonKeepsInv(s, Next(s, step));
    case Observe(_, _) => SkeletonKeepsInv(s, Next(s, step));
    case Read(p) => EmptyHandedKeepsInv(s, p, Inserting(s.value, 0));
    case Duplicate(p) => DuplicateOnlyOnFirst(s, p); EmptyHandedKeepsInv(s, p, Conflicted);
    case GiveUp(p) => EmptyHandedKeepsInv(s, p, Failed);
    case StallSkip(p, _) => EmptyHandedKeepsInv(s, p, Reading);
    case Return(p) => ReturnKeepsInv(s, p);
    case Crash(p) => PhaseKeepsInv(s, p, s.producers[p].(alive := false));
  }

  lemma {:induction false} RunKeepsInv(s: State, steps: seq<Step>)
    requires Inv(s) && Possible(s, steps) && BenignRun(s, steps)
    ensures Inv(After(s, steps))
    decreases |steps|
  {
    if steps != [] {
      StepKeepsInv(s, steps[0]);
      RunKeepsInv(Next(s, steps[0]), steps[1..]);
    }
  }

  lemma {:induction false} BenignRunsCompose(s: State, a: seq<Step>, b: seq<Step>)
    requires Possible(s, a) && Possible(After(s, a), b)
    requires BenignRun(s, a) && BenignRun(After(s, a), b)
    ensures Possible(s, a + b) && After(s, a + b) == After(After(s, a), b) && BenignRun(s, a + b)
    decreases |a|
  {
    RunsCompose(s, a, b);
    if a == [] {
      assert a + b == b;
    } else {
      assert (a + b)[0] == a[0] && (a + b)[1..] == a[1..] + b;
      BenignRunsCompose(Next(s, a[0]), a[1..], b);
    }
  }

  lemma Cons(s: State, step: Step, rest: seq<Step>)
    requires Enabled(s, step) && Benign(s, step)
    requires Possible(Next(s, step), rest) && BenignRun(Next(s, step), rest)
    ensures Possible(s, [step] + rest) && BenignRun(s, [step] + rest)
    ensures After(s, [step] + rest) == After(Next(s, step), rest)
  {
    assert ([step] + rest)[0] == step && ([step] + rest)[1..] == rest;
  }

  // ---- Main results over whole runs ----

  /** The stored markers are one gap-free interval from the origin. */
  ghost predicate Interval(s: State) {
    forall k: nat :: k in s.docs <==> s.origin <= k < End(s)
  }

  /**
   In every benign run the stored markers are one gap-free interval, the marker
   order is the insertion order, the counter never passes the end, and all
   documents the counter has not passed belong to one batch.
   */
  lemma GapFree(origin: nat, steps: seq<Step>)
    requires Possible(Init(origin), steps) && BenignRun(Init(origin), steps)
    ensures var s := After(Init(origin), steps);
            && Interval(s)
            && s.origin == origin
            && (forall k: nat | origin <= k < End(s) :: s.log[k - origin] == Entry(k, s.docs[k].id))
            && origin <= s.value <= End(s)
            && (forall j: nat, k: nat | s.value <= j < End(s) && s.value <= k < End(s) ::
                  s.docs[j].id.post == s.docs[k].id.post)
  {
    RunKeepsInv(Init(origin), steps);
    RunKeepsOrigin(Init(origin), steps);
    var s := After(Init(origin), steps);
    forall j: nat, k: nat | s.value <= j < End(s) && s.value <= k < End(s)
      ensures s.docs[j].id.post == s.docs[k].id.post
    {
      assert s.value in s.docs;
    }
  }

  lemma {:induction false} RunKeepsOrigin(s: State, steps: seq<Step>)
    requires Possible(s, steps)
    ensures After(s, steps).origin == s.origin
    decreases |steps|
  {
    if steps != [] { RunKeepsOrigin(Next(s, steps[0]), steps[1..]); }
  }

  /** In every benign run, a document that is accepted goes exactly to the end of the
      queue, and a batch insert that meets a duplicate does so on its first document. */
  lemma InsertsAppendOrFailAtOnce(origin: nat, steps: seq<Step>, p: PostId)
    requires Possible(Init(origin), steps) && BenignRun(Init(origin), steps)
    ensures var s := After(Init(origin), steps);
            && (Enabled(s, InsertDoc(p)) ==>
                  Next(s, InsertDoc(p)).log == s.log + [Entry(End(s), MsgId(p, s.producers[p].phase.done))])
            && (Enabled(s, Duplicate(p)) ==> s.producers[p].phase.done == 0)
  {
    RunKeepsInv(Init(origin), steps);
    var s := After(Init(origin), steps);
    if Enabled(s, InsertDoc(p)) { InsertAppends(s, p); }
    if Enabled(s, Duplicate(p)) { DuplicateOnlyOnFirst(s, p); }
  }

  lemma InsertAppends(s: State, p: PostId)
    requires Inv(s) && Enabled(s, InsertDoc(p))
    ensures Next(s, InsertDoc(p)).log == s.log + [Entry(End(s), MsgId(p, s.producers[p].phase.done))]
  {
    InsertIsAtEnd(s, p);
  }

  // ---- An undisturbed post ----

  function Repeat(step: Step, m: nat): seq<Step> {
    seq(m, i => step)
  }

  /** p is part way through its batch and nothing is stored where the rest of it goes. */
  ghost predicate RoadClear(s: State, p: PostId) {
    && Alive(s, p)
    && var r := s.producers[p];
    && r.phase.Inserting? && r.phase.done < r.n
    && (forall k | k in s.docs :: k < r.phase.base + r.phase.done)
    && (forall k | k in s.docs && s.docs[k].id.post == p :: s.docs[k].id.index < r.phase.done)
  }

  /** Between s and t, the m remaining documents of p's batch were stored and nothing else changed. */
  ghost predicate Stocked(s: State, t: State, p: PostId, r: Producer, base: nat, m: nat) {
    && t.producers == s.producers[p := r.(phase := Inserted(base))]
    && t.observers == s.observers && t.value == s.value && t.origin == s.origin
    && |t.log| == |s.log| + m
    && (forall k | k in s.docs :: k in t.docs && t.docs[k] == s.docs[k])
    && (forall k | k in t.docs && k !in s.docs :: t.docs[k].pending == (r.n != 1) && k < base + r.n)
  }

  /** The next document is accepted. */
  lemma DocumentGoesIn(s: State, p: PostId)
    requires RoadClear(s, p)
    ensures Enabled(s, InsertDoc(p))
    ensures var ph, u := s.producers[p].phase, Next(s, InsertDoc(p));
            if ph.done + 1 < s.producers[p].n
            then RoadClear(u, p) && u.producers[p] == s.producers[p].(phase := Inserting(ph.base, ph.done + 1))
            else Stocked(s, u, p, s.producers[p], ph.base, 1)
  {
    var r := s.producers[p];
    assert Accepts(s, r.phase.base + r.phase.done, MsgId(p, r.phase.done));
  }

  lemma StockedAfterOne(s: State, p: PostId, t: State)
    requires RoadClear(s, p) && Enabled(s, InsertDoc(p))
    requires var r := s.producers[p];
             && r.phase.done + 1 < r.n
             && Stocked(Next(s, InsertDoc(p)), t, p, r, r.phase.base, r.n - r.phase.done - 1)
    ensures var r := s.producers[p]; Stocked(s, t, p, r, r.phase.base, r.n - r.phase.done)
  {
    var r := s.producers[p];
    var u := Next(s, InsertDoc(p));
    assert u.docs == s.docs[r.phase.base + r.phase.done := NewDoc(p, r.phase.done, r.n)];
  }

  /** The rest of the batch is accepted, document by document, and nothing else changes. */
  lemma {:induction false} BatchGoesThrough(s: State, p: PostId)
    requires RoadClear(s, p)
    ensures var r := s.producers[p];
            var rest := Repeat(InsertDoc(p), r.n - r.phase.done);
            && Possible(s, rest) && BenignRun(s, rest)
            && Stocked(s, After(s, rest), p, r, r.phase.base, r.n - r.phase.done)
    decreases s.producers[p].n - s.producers[p].phase.done
  {
    var r := s.producers[p];
    var m := r.n - r.phase.done;
    var rest := Repeat(InsertDoc(p), m);
    DocumentGoesIn(s, p);
    var u := Next(s, InsertDoc(p));
    assert rest[0] == InsertDoc(p) && rest[1..] == Repeat(InsertDoc(p), m - 1);
    if m > 1 {
      BatchGoesThrough(u, p);
      StockedAfterOne(s, p, After(u, rest[1..]));
    } else {
      assert rest[1..] == [];
    }
  }

  function FinishSteps(p: PostId, m: nat): seq<Step> {
    Repeat(InsertDoc(p), m) + ([Count(p, 0)] + [])
  }

  lemma BatchIsCounted(s: State, p: PostId)
    requires RoadClear(s, p)
    ensures var r := s.producers[p];
            var rest := FinishSteps(p, r.n - r.phase.done);
            && Possible(s, rest) && BenignRun(s, rest)
            && var t := After(s, rest);
            && t.origin == s.origin && t.observers == s.observers
            && t.value == s.value + r.n && |t.log| == |s.log| + (r.n - r.phase.done)
            && t.producers == s.producers[p := r.(phase := Counted(r.phase.base))]
            && (forall k | k in s.docs :: k in t.docs && t.docs[k] == s.docs[k])
            && (forall k | k in t.docs && k !in s.docs ::
                  t.docs[k].pending == (r.n != 1) && k < r.phase.base + r.n)
  {
    BatchGoesThrough(s, p);
    var r := s.producers[p];
    var ins := Repeat(InsertDoc(p), r.n - r.phase.done);
    Cons(After(s, ins), Count(p, 0), []);
    BenignRunsCompose(s, ins, [Count(p, 0)] + []);
  }

  function PostSteps(p: PostId, n: nat): seq<Step> {
    [Begin(p, n)] + ([Read(p)] + FinishSteps(p, n))
  }

  lemma PostOpens(s: State, p: PostId, n: nat, rest: seq<Step>)
    requires Enabled(s, Begin(p, n)) && Enabled(Next(s, Begin(p, n)), Read(p))
    requires var b := Next(Next(s, Begin(p, n)), Read(p)); Possible(b, rest) && BenignRun(b, rest)
    ensures var steps := [Begin(p, n)] + ([Read(p)] + rest);
            && Possible(s, steps) && BenignRun(s, steps)
            && After(s, steps) == After(Next(Next(s, Begin(p, n)), Read(p)), rest)
  {
    Cons(Next(s, Begin(p, n)), Read(p), rest);
    Cons(s, Begin(p, n), [Read(p)] + rest);
  }

  /** What a post of n messages by p that was stored and counted leaves in t, starting from s. */
  ghost predicate Appended(s: State, t: State, p: PostId, n: nat) {
    && t.origin == s.origin && t.observers == s.observers
    && t.value == s.value + n && |t.log| == |s.log| + n
    && t.producers == s.producers[p := Producer(n, s.value, Counted(s.value), true)]
    && (forall k | k in s.docs :: k in t.docs && t.docs[k] == s.docs[k])
    && (forall k | k in t.docs && k !in s.docs :: t.docs[k].pending == (n != 1))
  }

  lemma CountedIsAppended(s: State, p: PostId, n: nat)
    requires p !in s.producers && n > 0 && RoadClear(Next(Next(s, Begin(p, n)), Read(p)), p)
    ensures var b, finish := Next(Next(s, Begin(p, n)), Read(p)), FinishSteps(p, n);
            Possible(b, finish) && BenignRun(b, finish) && Appended(s, After(b, finish), p, n)
  {
    var b := Next(Next(s, Begin(p, n)), Read(p));
    assert b.producers[p] == Producer(n, s.value, Inserting(s.value, 0), true);
    BatchIsCounted(b, p);
    var t := After(b, FinishSteps(p, n));
    assert t.producers == s.producers[p := Producer(n, s.value, Counted(s.value), true)];
  }

  lemma UndisturbedPostRuns(s: State, p: PostId, n: nat)
    requires p !in s.producers && n > 0 && RoadClear(Next(Next(s, Begin(p, n)), Read(p)), p)
    ensures var steps := PostSteps(p, n);
            Possible(s, steps) && BenignRun(s, steps) && Appended(s, After(s, steps), p, n)
  {
    CountedIsAppended(s, p, n);
    PostOpens(s, p, n, FinishSteps(p, n));
  }

  lemma FreshPostIsClear(s: State, p: PostId, n: nat)
    requires Inv(s) && s.value == End(s) && p !in s.producers && n > 0
    ensures RoadClear(Next(Next(s, Begin(p, n)), Read(p)), p)
  {
    assert forall k | k in s.docs :: k < s.value && s.docs[k].id.post != p;
  }

  /**
   A post nobody disturbs, started when every stored batch is counted, gets all
   its messages stored at the end of the queue and counted on the first attempt.
   */
  lemma UndisturbedPost(s: State, p: PostId, n: nat)
    requires Inv(s) && s.value == End(s) && p !in s.producers && n > 0
    ensures var steps := PostSteps(p, n);
            && Possible(s, steps) && BenignRun(s, steps)
            && var t := After(s, steps);
            && Inv(t) && Appended(s, t, p, n) && t.value == End(t)
            && (forall k: nat | End(s) <= k < End(t) ::
                  k in t.docs && t.docs[k] == NewDoc(p, k - End(s), n))
  {
    PostRuns(s, p, n);
    AppendedInPlace(s, PostSteps(p, n), p, n);
  }

  lemma PostRuns(s: State, p: PostId, n: nat)
    requires Inv(s) && s.value == End(s) && p !in s.producers && n > 0
    ensures var steps := PostSteps(p, n);
            Possible(s, steps) && BenignRun(s, steps) && Appended(s, After(s, steps), p, n)
  {
    FreshPostIsClear(s, p, n);
    UndisturbedPostRuns(s, p, n);
  }

  lemma AppendedInPlace(s: State, steps: seq<Step>, p: PostId, n: nat)
    requires Inv(s) && s.value == End(s) && Possible(s, steps) && BenignRun(s, steps)
    requires Appended(s, After(s, steps), p, n)
    ensures var t := After(s, steps);
            && Inv(t) && t.value == End(t)
            && (forall k: nat | End(s) <= k < End(t) :: k in t.docs && t.docs[k] == NewDoc(p, k - End(s), n))
  {
    RunKeepsInv(s, steps);
    NewDocsInPlace(s, After(s, steps), p, n);
  }

  lemma NewDocsInPlace(s: State, t: State, p: PostId, n: nat)
    requires Inv(t) && Contiguous(s) && s.value == End(s) && Appended(s, t, p, n)
    ensures forall k: nat | End(s) <= k < End(t) :: k in t.docs && t.docs[k] == NewDoc(p, k - End(s), n)
  {
    assert LiveInv(t, p);
    forall k: nat | End(s) <= k < End(t) ensures k in t.docs && t.docs[k] == NewDoc(p, k - End(s), n) {
      assert k !in s.docs;
      assert t.docs[k].id.index == k - End(s);
    }
  }

  // ---- The stall condition is exact ----

  /** With the counter past the end, the next post leaves a gap. */
  lemma OvershootLeavesGap(s: State) returns (rest: seq<Step>)
    requires s.value > End(s) && forall k | k in s.docs :: k < s.value
    ensures Possible(s, rest) && BenignRun(s, rest) && !Interval(After(s, rest))
  {
    var ids := set k | k in s.docs :: s.docs[k].id.post;
    var q := FreshNat(s.producers.Keys + ids);
    var a := Next(s, Begin(q, 1));
    var b := Next(a, Read(q));
    assert forall k | k in b.docs :: b.docs[k].id.post in ids;
    assert Accepts(b, b.value, MsgId(q, 0));
    var c := Next(b, InsertDoc(q));
    Cons(b, InsertDoc(q), []);
    Cons(a, Read(q), [InsertDoc(q)] + []);
    rest := [Begin(q, 1)] + ([Read(q)] + ([InsertDoc(q)] + []));
    Cons(s, Begin(q, 1), [Read(q)] + ([InsertDoc(q)] + []));
    assert b.value in c.docs && End(c) == End(s) + 1;
  }

  /** A live owner of uncounted documents completes its batch and counts it. */
  lemma OwnerFinishes(s: State, h: PostId) returns (rest: seq<Step>)
    requires RoadClear(s, h) || (Alive(s, h) && s.producers[h].phase.Inserted?)
    ensures Possible(s, rest) && BenignRun(s, rest)
    ensures var r := s.producers[h];
            var missing := if r.phase.Inserting? then r.n - r.phase.done else 0;
            var t := After(s, rest);
            && t.value == s.value + r.n && End(t) == End(s) + missing
            && (forall k | k in t.docs :: k in s.docs || k < r.phase.base + r.n)
  {
    var r := s.producers[h];
    if r.phase.Inserted? {
      Cons(s, Count(h, 0), []);
      rest := [Count(h, 0)] + [];
    } else {
      BatchIsCounted(s, h);
      rest := FinishSteps(h, r.n - r.phase.done);
    }
  }

  /** A stall increment that fires while the owner lives, or when nothing is uncounted,
      lets some benign continuation end in a gap. */
  lemma MisfireLeadsToGap(s: State, step: Step) returns (rest: seq<Step>)
    requires Inv(s) && Stalls(step) && Enabled(s, step) && !OwnerCrashed(s)
    ensures var t := Next(s, step);
            Possible(t, rest) && BenignRun(t, rest) && !Interval(After(t, rest))
  {
    var t := Next(s, step);
    if s.value == End(s) {
      rest := OvershootLeavesGap(t);
    } else {
      var h := s.docs[s.value].id.post;
      assert LiveInv(s, h);
      assert h != step.p;
      assert t.producers[h] == s.producers[h];
      assert s.producers[h].phase.Inserting? ==> RoadClear(t, h);
      var head := OwnerFinishes(t, h);
      var tail := OvershootLeavesGap(After(t, head));
      BenignRunsCompose(t, head, tail);
      rest := head + tail;
    }
  }

  /**
   After any benign run, a stall increment is safe exactly when the document the
   counter points at belongs to a crashed post: then, and only then, does every
   benign continuation keep the markers gap-free.
   */
  lemma StallSafeIffOwnerCrashed(origin: nat, steps: seq<Step>, step: Step)
    requires Possible(Init(origin), steps) && BenignRun(Init(origin), steps)
    requires Stalls(step) && Enabled(After(Init(origin), steps), step)
    ensures var s := After(Init(origin), steps);
            var t := Next(s, step);
            OwnerCrashed(s) <==>
              forall rest | Possible(t, rest) && BenignRun(t, rest) :: Interval(After(t, rest))
  {
    RunKeepsInv(Init(origin), steps);
    var s := After(Init(origin), steps);
    var t := Next(s, step);
    if OwnerCrashed(s) {
      StallKeepsInv(s, step);
      forall rest | Possible(t, rest) && BenignRun(t, rest) ensures Interval(After(t, rest)) {
        RunKeepsInv(t, rest);
      }
    } else {
      var bad := MisfireLeadsToGap(s, step);
    }
  }

  /** An increment repeated after a lost reply also leaves a gap, in any state it can happen. */
  lemma LostReplyLeadsToGap(s: State, p: PostId, now: int) returns (rest: seq<Step>)
    requires Inv(s) && Enabled(s, CountLost(p, now))
    ensures var t := Next(s, CountLost(p, now));
            Possible(t, rest) && BenignRun(t, rest) && !Interval(After(t, rest))
  {
    var t := Next(s, CountLost(p, now));
    assert LiveInv(s, p);
    var u := Next(t, Count(p, now));
    var tail := OvershootLeavesGap(u);
    Cons(t, Count(p, now), tail);
    rest := [Count(p, now)] + tail;
  }

  // ---- Recovery from a crashed producer ----

  /**
   A crashed batch blocks the queue for exactly as many stall increments as it
   left uncounted documents: after that many, the waiting producer's next insert
   is accepted at the end of the queue. No document is touched meanwhile.
   */
  lemma {:induction false} LogjamBreaks(s: State, p: PostId) returns (steps: seq<Step>)
    requires Inv(s) && OwnerCrashed(s)
    requires Alive(s, p) && s.producers[p].phase.Conflicted? && s.producers[p].n > 0
    ensures |steps| == 2 * (End(s) - s.value) - 1
    ensures Possible(s, steps) && BenignRun(s, steps)
    ensures var t := After(s, steps);
            && t.docs == s.docs && t.log == s.log && t.value == End(t)
            && Alive(t, p) && t.producers[p].phase == Inserting(t.value, 0)
            && Enabled(t, InsertDoc(p))
    decreases End(s) - s.value
  {
    var bump := StallBump(p, s.stamp + COUNTER_STALL_WINDOW + 1);
    StallKeepsInv(s, bump);
    var t := Next(s, bump);
    assert LiveInv(t, p);
    if t.value == End(s) {
      Cons(s, bump, []);
      steps := [bump] + [];
      assert IdFree(t, MsgId(p, 0));
    } else {
      assert t.value in t.docs;
      var u := Next(t, Duplicate(p));
      StepKeepsInv(t, Duplicate(p));
      assert OwnerCrashed(u) by {
        assert s.docs[t.value].id.post == s.docs[s.value].id.post;
      }
      var tail := LogjamBreaks(u, p);
      Cons(t, Duplicate(p), tail);
      Cons(s, bump, [Duplicate(p)] + tail);
      steps := [bump] + ([Duplicate(p)] + tail);
    }
  }
}
