/**
 What a stall increment that fires too early can do to batches. In benign runs a
 batch insert fails on its first document or not at all; after a misfire a batch
 may stop part way. These lemmas show that misfires happen, and say exactly which
 of them can tear a batch.
 */
module FifoTear {
  import opened Fifo
  import opened FifoGapFree
  import opened NatSets

  // ---- Misfires and torn batches happen ----

  function StepsBeforeMisfire(n: nat): seq<Step> {
    [Begin(0, n)] + ([Read(0)] + ([Begin(1, 1)] + ([Read(1)] + ([InsertDoc(0)] + ([Duplicate(1)] + [])))))
  }

  /** Post 0 has stored the first of n messages; post 1 wanted the same marker. */
  function BeforeMisfire(origin: nat, n: nat): State {
    State(origin, origin, 0, map[origin := NewDoc(0, 0, n)], [Entry(origin, MsgId(0, 0))],
          map[0 := Producer(n, origin, AfterInsert(origin, 1, n), true), 1 := Producer(1, origin, Conflicted, true)],
          map[])
  }

  /** Both posts have read the counter. */
  function BothRead(origin: nat, n: nat): State {
    State(origin, origin, 0, map[], [],
          map[0 := Producer(n, origin, Inserting(origin, 0), true),
              1 := Producer(1, origin, Inserting(origin, 0), true)],
          map[])
  }

  lemma BothReadRuns(origin: nat, n: nat, rest: seq<Step>)
    requires Possible(BothRead(origin, n), rest) && BenignRun(BothRead(origin, n), rest)
    ensures var run := [Begin(0, n)] + ([Read(0)] + ([Begin(1, 1)] + ([Read(1)] + rest)));
            && Possible(Init(origin), run) && BenignRun(Init(origin), run)
            && After(Init(origin), run) == After(BothRead(origin, n), rest)
  {
    var s1 := Next(Init(origin), Begin(0, n));
    var s2 := Next(s1, Read(0));
    var s3 := Next(s2, Begin(1, 1));
    assert Next(s3, Read(1)) == BothRead(origin, n);
    Cons(s3, Read(1), rest);
    var r := [Read(1)] + rest;
    Cons(s2, Begin(1, 1), r);
    r := [Begin(1, 1)] + r;
    Cons(s1, Read(0), r);
    Cons(Init(origin), Begin(0, n), [Read(0)] + r);
  }

  lemma BeforeMisfireIsReached(origin: nat, n: nat)
    requires n > 0
    ensures Possible(Init(origin), StepsBeforeMisfire(n)) && BenignRun(Init(origin), StepsBeforeMisfire(n))
    ensures After(Init(origin), StepsBeforeMisfire(n)) == BeforeMisfire(origin, n)
  {
    var s4 := BothRead(origin, n);
    assert Accepts(s4, origin, MsgId(0, 0));
    var s5 := Next(s4, InsertDoc(0));
    assert !Accepts(s5, origin, MsgId(1, 0));
    assert Next(s5, Duplicate(1)) == BeforeMisfire(origin, n);
    Cons(s5, Duplicate(1), []);
    Cons(s4, InsertDoc(0), [Duplicate(1)] + []);
    BothReadRuns(origin, n, [InsertDoc(0)] + ([Duplicate(1)] + []));
  }

  /** On a queue that has been idle for longer than the window, a stall increment can fire
      although the owner of the uncounted batch, of any size, is alive. */
  lemma MisfireHappens(origin: nat, n: nat, now: int)
    requires n > 0 && now > COUNTER_STALL_WINDOW
    ensures Possible(Init(origin), StepsBeforeMisfire(n)) && BenignRun(Init(origin), StepsBeforeMisfire(n))
    ensures var s := After(Init(origin), StepsBeforeMisfire(n));
            && Enabled(s, StallBump(1, now)) && Enabled(s, StallLost(1, now))
            && !OwnerCrashed(s) && s.value in s.docs && Alive(s, s.docs[s.value].id.post)
  {
    BeforeMisfireIsReached(origin, n);
  }

  /** The misfire lets post 1 store its message where the second one of post 0 belongs. */
  function TearingSteps(n: nat, now: int): seq<Step> {
    StepsBeforeMisfire(n) + ([StallBump(1, now)] + ([InsertDoc(1)] + ([Duplicate(0)] + [])))
  }

  /** A batch of any size can stop after its first document, which then stays in the queue,
      not visible to anyone, while its post has yet to try again. */
  lemma BatchIsTorn(origin: nat, n: nat, now: int)
    requires n >= 2 && now > COUNTER_STALL_WINDOW
    ensures Possible(Init(origin), TearingSteps(n, now))
    ensures var t := After(Init(origin), TearingSteps(n, now));
            && t.docs == map[origin := Doc(MsgId(0, 0), true), origin + 1 := Doc(MsgId(1, 0), false)]
            && Alive(t, 0) && t.producers[0].n == n && t.producers[0].phase == Conflicted
  {
    BeforeMisfireIsReached(origin, n);
    var s := BeforeMisfire(origin, n);
    var a := Next(s, StallBump(1, now));
    assert Accepts(a, origin + 1, MsgId(1, 0));
    var b := Next(a, InsertDoc(1));
    assert !Accepts(b, origin + 1, MsgId(0, 1));
    var tail := [StallBump(1, now)] + ([InsertDoc(1)] + ([Duplicate(0)] + []));
    assert tail[0] == StallBump(1, now) && tail[1..] == [InsertDoc(1), Duplicate(0)];
    assert tail[1..][1..] == [Duplicate(0)] && tail[1..][1..][1..] == [];
    var c := Next(b, Duplicate(0));
    assert Possible(c, []) && After(c, []) == c;
    assert Possible(b, tail[1..][1..]) && After(b, tail[1..][1..]) == c;
    assert Possible(a, tail[1..]) && After(a, tail[1..]) == c;
    assert Possible(s, tail) && After(s, tail) == c;
    RunsCompose(Init(origin), StepsBeforeMisfire(n), tail);
  }

  // ---- Which misfires can tear a batch ----

  /** The insert of q meets a duplicate after some of its documents were accepted. */
  predicate TornAt(s: State, q: PostId) {
    Enabled(s, Duplicate(q)) && s.producers[q].phase.done > 0
  }

  ghost predicate Torn(s: State) {
    exists q | q in s.producers :: TornAt(s, q)
  }

  /** Some benign continuation tears a batch. */
  ghost predicate CanTear(s: State) {
    exists rest | Possible(s, rest) && BenignRun(s, rest) :: Torn(After(s, rest))
  }

  /** The post is alive and has stored, or may yet store, exactly one document from the
      counter on. */
  predicate OneAtCounter(s: State, r: Producer) {
    && r.alive && r.n > 0
    && match r.phase
       case Inserting(base, done) => base == s.value && done <= 1
       case Inserted(base) => base == s.value && r.n == 1
       case _ => false
  }

  /** At most one document is uncounted, and the post it belongs to, or that is about to
      insert there, is alive. */
  ghost predicate Exposed(s: State) {
    && End(s) <= s.value + 1
    && exists q | q in s.producers :: AtRisk(s, q)
  }

  predicate AtRisk(s: State, q: PostId)
    requires q in s.producers
  {
    OneAtCounter(s, s.producers[q])
    && (s.value in s.docs ==> s.docs[s.value].id.post == q)
  }

  // ---- When it cannot: an invariant of the runs after a misfire ----

  /** The post has stored documents and may still count them. */
  predicate Holder(r: Producer) {
    r.alive && (r.phase.Inserted? || (r.phase.Inserting? && r.phase.done > 0))
  }

  /** How many documents of its present batch a post has stored. */
  function Stored(r: Producer): nat {
    match r.phase
    case Inserting(_, done) => done
    case Reading => 0
    case Conflicted => 0
    case Failed => 0
    case _ => r.n
  }

  /** A holder owns the document at the counter and stores at the very end. */
  ghost predicate HolderOk(s: State, q: PostId)
    requires q in s.producers && Holder(s.producers[q])
  {
    var r := s.producers[q];
    var top := r.phase.base + Stored(r);
    && r.n > 0 && Stored(r) <= r.n && (r.phase.Inserting? ==> Stored(r) < r.n)
    && s.value in s.docs && s.docs[s.value].id.post == q
    && r.phase.base <= s.value < top && top - 1 in s.docs
    && (forall k | k in s.docs :: k < top)
  }

  /** What a live post that has stored nothing may want is taken, or is the counter's marker. */
  predicate WaiterOk(s: State, q: PostId)
    requires q in s.producers
  {
    var r := s.producers[q];
    r.alive && r.phase.Inserting? && r.phase.done == 0 && r.n > 0 ==>
      r.phase.base in s.docs || r.phase.base == s.value
  }

  predicate OwnDocsOk(s: State, k: nat)
    requires k in s.docs
  {
    var id := s.docs[k].id;
    && id.post in s.producers
    && (s.producers[id.post].alive ==> id.index < Stored(s.producers[id.post]))
  }

  ghost predicate Calm(s: State) {
    && (forall q | q in s.producers && Holder(s.producers[q]) :: HolderOk(s, q))
    && (forall q | q in s.producers :: WaiterOk(s, q))
    && (forall k | k in s.docs :: OwnDocsOk(s, k))
    && (s.value !in s.docs ==> forall k | k in s.docs :: k < s.value)
    && (forall j: nat, k | k in s.docs && s.value <= j <= k :: j in s.docs)
  }

  /** In a calm state the next document of a batch under way is always accepted. */
  lemma CalmAccepts(s: State, q: PostId)
    requires Calm(s) && Alive(s, q)
    requires s.producers[q].phase.Inserting? && 0 < s.producers[q].phase.done < s.producers[q].n
    ensures var ph := s.producers[q].phase; Accepts(s, ph.base + ph.done, MsgId(q, ph.done))
  {
    var r := s.producers[q];
    assert Holder(r) && HolderOk(s, q);
    forall k | k in s.docs ensures s.docs[k].id != MsgId(q, r.phase.done) {
      assert OwnDocsOk(s, k);
    }
  }

  lemma CalmIsWhole(s: State, q: PostId)
    requires Calm(s)
    ensures !TornAt(s, q)
  {
    if Alive(s, q) {
      var r := s.producers[q];
      if r.phase.Inserting? && 0 < r.phase.done < r.n { CalmAccepts(s, q); }
    }
  }

  /** At most one live post holds uncounted documents. */
  lemma OneHolder(s: State, p: PostId, q: PostId)
    requires Calm(s) && p in s.producers && Holder(s.producers[p]) && q in s.producers && q != p
    ensures !Holder(s.producers[q])
  {
    assert HolderOk(s, p);
    assert Holder(s.producers[q]) ==> HolderOk(s, q);
  }

  /** An accepted document goes past all others; if it is a first one, to the counter's marker. */
  lemma CalmInsertsAtTop(s: State, p: PostId)
    requires Calm(s) && Enabled(s, InsertDoc(p))
    ensures var ph := s.producers[p].phase;
            && (forall j | j in s.docs :: j < ph.base + ph.done)
            && (ph.done == 0 ==> ph.base == s.value)
            && (ph.done > 0 ==> HolderOk(s, p))
    ensures forall q | q in s.producers && q != p :: !Holder(s.producers[q])
  {
    var r := s.producers[p];
    if r.phase.done == 0 {
      assert WaiterOk(s, p);
      forall q | q in s.producers ensures !Holder(s.producers[q]) {
        assert Holder(s.producers[q]) ==> HolderOk(s, q);
      }
    } else {
      forall q | q in s.producers && q != p ensures !Holder(s.producers[q]) {
        OneHolder(s, p, q);
      }
    }
  }

  lemma CalmInsertHolder(s: State, p: PostId)
    requires Calm(s) && Enabled(s, InsertDoc(p))
    ensures var t := Next(s, InsertDoc(p)); Holder(t.producers[p]) ==> HolderOk(t, p)
  {
    CalmInsertsAtTop(s, p);
  }

  lemma CalmInsertDocs(s: State, p: PostId, j: nat)
    requires Calm(s) && Enabled(s, InsertDoc(p)) && j in Next(s, InsertDoc(p)).docs
    ensures OwnDocsOk(Next(s, InsertDoc(p)), j)
  {
    if j in s.docs { assert OwnDocsOk(s, j); }
  }

  /** No marker between the counter and the new document is free. */
  lemma CalmInsertFills(s: State, p: PostId, j: nat)
    requires Calm(s) && Enabled(s, InsertDoc(p))
    requires var ph := s.producers[p].phase; s.value <= j <= ph.base + ph.done
    ensures j in Next(s, InsertDoc(p)).docs
  {
    CalmInsertsAtTop(s, p);
    var ph := s.producers[p].phase;
    if j < ph.base + ph.done {
      assert ph.base + ph.done - 1 in s.docs;
    }
  }

  lemma CalmInsert(s: State, p: PostId)
    requires Calm(s) && Enabled(s, InsertDoc(p))
    ensures Calm(Next(s, InsertDoc(p)))
  {
    var t := Next(s, InsertDoc(p));
    CalmInsertsAtTop(s, p);
    forall q | q in t.producers && Holder(t.producers[q]) ensures HolderOk(t, q) {
      assert q == p;
      CalmInsertHolder(s, p);
    }
    forall q | q in t.producers ensures WaiterOk(t, q) {
      assert WaiterOk(s, q);
    }
    forall j | j in t.docs ensures OwnDocsOk(t, j) {
      CalmInsertDocs(s, p, j);
    }
    assert s.value in t.docs;
    forall j: nat, k | k in t.docs && t.value <= j <= k ensures j in t.docs {
      CalmInsertFills(s, p, j);
    }
  }

  lemma CalmCount(s: State, p: PostId, now: int)
    requires Calm(s) && Enabled(s, Count(p, now))
    ensures Calm(Next(s, Count(p, now)))
  {
    var t := Next(s, Count(p, now));
    assert HolderOk(s, p);
    forall q | q in t.producers ensures !Holder(t.producers[q]) {
      if q != p { OneHolder(s, p, q); }
    }
    forall q | q in t.producers ensures WaiterOk(t, q) {
      assert WaiterOk(s, q);
    }
    forall j | j in t.docs ensures OwnDocsOk(t, j) {
      assert OwnDocsOk(s, j);
    }
  }

  lemma CalmStall(s: State, step: Step)
    requires Calm(s) && Stalls(step) && Enabled(s, step) && OwnerCrashed(s)
    ensures Calm(Next(s, step))
  {
    var t := Next(s, step);
    forall q | q in t.producers ensures !Holder(t.producers[q]) {
      assert Holder(s.producers[q]) ==> HolderOk(s, q);
    }
    forall q | q in t.producers ensures WaiterOk(t, q) {
      assert WaiterOk(s, q);
    }
    forall j | j in t.docs ensures OwnDocsOk(t, j) {
      assert OwnDocsOk(s, j);
    }
  }

  /** Steps that add or remove no document and leave the counter alone. */
  predicate Still(step: Step) {
    !step.InsertDoc? && !step.Count? && !step.CountLost? && !Stalls(step) && !step.Remove?
  }

  /** What such a step may do to a post: start it, or move it without a change in what it holds. */
  predicate Drifts(s: State, t: State, q: PostId)
    requires q in t.producers
  {
    var r' := t.producers[q];
    if q in s.producers then
      var r := s.producers[q];
      && (r'.alive ==> r.alive) && r'.n == r.n
      && (Stored(r') == Stored(r) || (r.phase.Inserting? && r.phase.done > 0))
      && (Holder(r') ==> r'.phase == r.phase)
      && (r'.phase.Inserting? ==> r'.phase == r.phase || r'.phase == Inserting(s.value, 0))
    else r'.phase == Reading
  }

  lemma StillDrifts(s: State, step: Step, q: PostId)
    requires Enabled(s, step) && Still(step) && q in Next(s, step).producers
    ensures Drifts(s, Next(s, step), q)
  {
  }

  lemma StillKeepsDocs(s: State, step: Step)
    requires Enabled(s, step) && Still(step)
    ensures var t := Next(s, step);
            && t.value == s.value && t.docs.Keys == s.docs.Keys
            && forall k | k in s.docs :: t.docs[k].id == s.docs[k].id
    ensures forall q | q in s.producers :: q in Next(s, step).producers
  {
  }

  /** A step that is no duplicate drops no stored documents. */
  lemma StillKeepsStored(s: State, step: Step, q: PostId)
    requires Calm(s) && Enabled(s, step) && Still(step)
    requires q in s.producers && s.producers[q].alive
    ensures Stored(Next(s, step).producers[q]) == Stored(s.producers[q])
  {
    if step.Duplicate? { CalmIsWhole(s, step.p); }
  }

  lemma CalmOther(s: State, step: Step)
    requires Calm(s) && Enabled(s, step) && Still(step)
    ensures Calm(Next(s, step))
  {
    var t := Next(s, step);
    StillKeepsDocs(s, step);
    forall q | q in t.producers && Holder(t.producers[q]) ensures HolderOk(t, q) {
      StillDrifts(s, step, q);
      assert HolderOk(s, q);
    }
    forall q | q in t.producers ensures WaiterOk(t, q) {
      StillDrifts(s, step, q);
      if q in s.producers { assert WaiterOk(s, q); }
    }
    forall k | k in t.docs ensures OwnDocsOk(t, k) {
      assert OwnDocsOk(s, k);
      var q := s.docs[k].id.post;
      StillDrifts(s, step, q);
      if s.producers[q].alive { StillKeepsStored(s, step, q); }
    }
  }

  lemma StepStaysCalm(s: State, step: Step)
    requires Calm(s) && Enabled(s, step) && Benign(s, step)
    ensures Calm(Next(s, step))
  {
    match step
    case InsertDoc(p) => CalmInsert(s, p);
    case Count(p, now) => CalmCount(s, p, now);
    case StallBump(_, _) => CalmStall(s, step);
    case StallLost(_, _) => CalmStall(s, step);
    case _ => CalmOther(s, step);
  }

  lemma {:induction false} RunStaysCalm(s: State, steps: seq<Step>)
    requires Calm(s) && Possible(s, steps) && BenignRun(s, steps)
    ensures Calm(After(s, steps))
    decreases |steps|
  {
    if steps != [] {
      StepStaysCalm(s, steps[0]);
      RunStaysCalm(Next(s, steps[0]), steps[1..]);
    }
  }

  /** A misfire that exposes no post leaves a calm state. */
  lemma UnexposedIsCalm(s: State, step: Step)
    requires Inv(s) && Stalls(step) && Enabled(s, step) && !Exposed(s)
    ensures Calm(Next(s, step))
  {
    var t := Next(s, step);
    forall q | q in t.producers && Holder(t.producers[q]) ensures HolderOk(t, q) {
      UnexposedHolder(s, step, q);
    }
    forall q | q in t.producers ensures WaiterOk(t, q) {
      UnexposedWaiter(s, step, q);
    }
    forall k | k in t.docs ensures OwnDocsOk(t, k) {
      var q := s.docs[k].id.post;
      if s.producers[q].alive { assert LiveInv(s, q); }
    }
  }

  lemma UnexposedHolder(s: State, step: Step, q: PostId)
    requires Inv(s) && Stalls(step) && Enabled(s, step) && !Exposed(s)
    requires q in s.producers && Holder(Next(s, step).producers[q])
    ensures HolderOk(Next(s, step), q)
  {
    assert q != step.p;
    assert LiveInv(s, q);
    HolderOwnsCounter(s, q);
    if End(s) == s.value + 1 {
      assert AtRisk(s, q);
      assert false;
    }
    assert s.value + 1 in s.docs;
  }

  lemma UnexposedWaiter(s: State, step: Step, q: PostId)
    requires Inv(s) && Stalls(step) && Enabled(s, step) && !Exposed(s) && q in s.producers
    ensures WaiterOk(Next(s, step), q)
  {
    var r := s.producers[q];
    if q != step.p && r.alive && r.phase.Inserting? && r.phase.done == 0 && r.n > 0 {
      assert LiveInv(s, q);
      assert !AtRisk(s, q) || End(s) > s.value + 1;
    }
  }

  // ---- When it can: the tearing runs ----

  lemma FreshPost(s: State) returns (q: PostId)
    ensures q !in s.producers && forall k | k in s.docs :: s.docs[k].id.post != q
  {
    var ids := set k | k in s.docs :: s.docs[k].id.post;
    q := FreshNat(s.producers.Keys + ids);
    forall k | k in s.docs ensures s.docs[k].id.post != q {
      assert s.docs[k].id.post in ids;
    }
  }

  /** A new post of one message takes the marker that f needs next. */
  lemma Intrude(s: State, f: PostId) returns (rest: seq<Step>)
    requires Alive(s, f) && s.producers[f].phase.Inserting? && 0 < s.producers[f].phase.done < s.producers[f].n
    requires var ph := s.producers[f].phase; s.value == ph.base + ph.done
    requires forall k | k in s.docs :: k < s.value
    ensures Possible(s, rest) && BenignRun(s, rest) && Torn(After(s, rest))
  {
    var q := FreshPost(s);
    var a := Next(s, Begin(q, 1));
    var b := Next(a, Read(q));
    assert Accepts(b, b.value, MsgId(q, 0));
    var c := Next(b, InsertDoc(q));
    Cons(b, InsertDoc(q), []);
    Cons(a, Read(q), [InsertDoc(q)] + []);
    rest := [Begin(q, 1)] + ([Read(q)] + ([InsertDoc(q)] + []));
    Cons(s, Begin(q, 1), [Read(q)] + ([InsertDoc(q)] + []));
    assert TornAt(c, f);
  }

  /** The counter is one past the place where f is about to begin. */
  ghost predicate Loose(s: State, f: PostId) {
    && Alive(s, f) && s.producers[f].n >= 2
    && s.producers[f].phase.Inserting? && s.producers[f].phase.done == 0
    && s.value == s.producers[f].phase.base + 1
    && (forall k | k in s.docs :: k + 1 < s.value && s.docs[k].id.post != f)
  }

  lemma LooseCanTear(s: State, f: PostId) returns (rest: seq<Step>)
    requires Loose(s, f)
    ensures Possible(s, rest) && BenignRun(s, rest) && Torn(After(s, rest))
  {
    assert Accepts(s, s.producers[f].phase.base, MsgId(f, 0));
    var t := Next(s, InsertDoc(f));
    var tail := Intrude(t, f);
    Cons(s, InsertDoc(f), tail);
    rest := [InsertDoc(f)] + tail;
  }

  /** The misfire left the counter at the end, and h, with one document stored, needs the
      end next or will count one too many. */
  lemma StoredOneCanTear(s: State, h: PostId) returns (rest: seq<Step>)
    requires Alive(s, h) && s.producers[h].n > 0 && forall k | k in s.docs :: k < s.value
    requires var r := s.producers[h];
             || (r.phase.Inserting? && r.phase.done == 1 && r.phase.base + 1 == s.value && r.n >= 2)
             || (r.phase.Inserted? && r.n == 1)
    ensures Possible(s, rest) && BenignRun(s, rest) && Torn(After(s, rest))
  {
    if s.producers[h].phase.Inserting? {
      rest := Intrude(s, h);
    } else {
      var f := FreshPost(s);
      var a := Next(s, Begin(f, 2));
      var b := Next(a, Read(f));
      var c := Next(b, Count(h, 0));
      assert Loose(c, f);
      var tail := LooseCanTear(c, f);
      rest := OpenAnd(s, f, Count(h, 0), tail);
    }
  }

  /** f begins with two messages and reads the counter before `step` and the rest. */
  lemma OpenAnd(s: State, f: PostId, step: Step, tail: seq<Step>) returns (rest: seq<Step>)
    requires f !in s.producers
    requires var b := Next(Next(s, Begin(f, 2)), Read(f));
             && Enabled(b, step) && Benign(b, step)
             && Possible(Next(b, step), tail) && BenignRun(Next(b, step), tail)
    ensures Possible(s, rest) && BenignRun(s, rest)
    ensures After(s, rest) == After(Next(Next(Next(s, Begin(f, 2)), Read(f)), step), tail)
  {
    var b := Next(Next(s, Begin(f, 2)), Read(f));
    Cons(b, step, tail);
    rest := [Begin(f, 2)] + ([Read(f)] + ([step] + tail));
    PostOpens(s, f, 2, [step] + tail);
  }

  /** The misfire left the counter one past the end, and r may still insert at the end. */
  lemma AboutToStoreCanTear(s: State, r: PostId) returns (rest: seq<Step>)
    requires Alive(s, r) && s.producers[r].n > 0
    requires s.producers[r].phase.Inserting? && s.producers[r].phase.done == 0
    requires s.value == s.producers[r].phase.base + 1
    requires forall k | k in s.docs :: k + 1 < s.value && s.docs[k].id.post != r
    ensures Possible(s, rest) && BenignRun(s, rest) && Torn(After(s, rest))
  {
    if s.producers[r].n >= 2 {
      rest := LooseCanTear(s, r);
    } else {
      var f := FreshPost(s);
      var a := Next(s, Begin(f, 2));
      var b := Next(a, Read(f));
      assert Accepts(b, s.value - 1, MsgId(r, 0));
      var c := Next(b, InsertDoc(r));
      var d := Next(c, Count(r, 0));
      assert Loose(d, f);
      var tail := LooseCanTear(d, f);
      Cons(c, Count(r, 0), tail);
      rest := OpenAnd(s, f, InsertDoc(r), [Count(r, 0)] + tail);
    }
  }

  lemma ExposedCanTear(s: State, step: Step) returns (rest: seq<Step>)
    requires Inv(s) && Stalls(step) && Enabled(s, step) && Exposed(s)
    ensures var t := Next(s, step); Possible(t, rest) && BenignRun(t, rest) && Torn(After(t, rest))
  {
    var t := Next(s, step);
    var q :| q in s.producers && AtRisk(s, q);
    assert LiveInv(s, q);
    assert q != step.p && t.producers[q] == s.producers[q];
    if s.value == End(s) {
      rest := AboutToStoreCanTear(t, q);
    } else {
      rest := StoredOneCanTear(t, q);
    }
  }

  /**
   After any benign run, a stall increment can lead to a torn batch exactly when
   at most one document is uncounted and a live post owns it, or is about to
   store one there. With two or more uncounted documents, with a crashed owner,
   or with nobody at the counter, every benign continuation keeps batches whole.
   */
  lemma CanTearIffExposed(origin: nat, steps: seq<Step>, step: Step)
    requires Possible(Init(origin), steps) && BenignRun(Init(origin), steps)
    requires Stalls(step) && Enabled(After(Init(origin), steps), step)
    ensures var s := After(Init(origin), steps);
            CanTear(Next(s, step)) <==> Exposed(s)
  {
    RunKeepsInv(Init(origin), steps);
    var s := After(Init(origin), steps);
    var t := Next(s, step);
    if Exposed(s) {
      var rest := ExposedCanTear(s, step);
      assert Torn(After(t, rest));
    } else {
      UnexposedIsCalm(s, step);
      forall rest | Possible(t, rest) && BenignRun(t, rest) ensures !Torn(After(t, rest)) {
        RunStaysCalm(t, rest);
        forall q | q in After(t, rest).producers ensures !TornAt(After(t, rest), q) {
          CalmIsWhole(After(t, rest), q);
        }
      }
    }
  }

  // ---- Counting twice ----

  /** m more documents of f go in, with at least one still to come. */
  lemma {:induction false} SomeGoIn(s: State, f: PostId, m: nat) returns (steps: seq<Step>)
    requires RoadClear(s, f) && s.producers[f].phase.done + m < s.producers[f].n
    ensures Possible(s, steps) && BenignRun(s, steps)
    ensures var t, ph := After(s, steps), s.producers[f].phase;
            && RoadClear(t, f) && t.value == s.value
            && t.producers[f] == s.producers[f].(phase := Inserting(ph.base, ph.done + m))
    decreases m
  {
    if m == 0 {
      steps := [];
    } else {
      DocumentGoesIn(s, f);
      var t := Next(s, InsertDoc(f));
      var tail := SomeGoIn(t, f, m - 1);
      Cons(s, InsertDoc(f), tail);
      steps := [InsertDoc(f)] + tail;
    }
  }

  /** The counter has been moved m past the place where f is about to begin. */
  lemma FarAheadCanTear(s: State, f: PostId, m: nat) returns (rest: seq<Step>)
    requires RoadClear(s, f) && s.producers[f].phase.done == 0
    requires 0 < m < s.producers[f].n && s.value == s.producers[f].phase.base + m
    ensures Possible(s, rest) && BenignRun(s, rest) && Torn(After(s, rest))
  {
    var head := SomeGoIn(s, f, m);
    var tail := Intrude(After(s, head), f);
    BenignRunsCompose(s, head, tail);
    rest := head + tail;
  }

  /** f begins with more messages than p has, and reads the counter before p counts. */
  lemma CountCanTear(s: State, p: PostId) returns (rest: seq<Step>)
    requires Alive(s, p) && s.producers[p].phase.Inserted? && s.producers[p].n > 0
    requires forall k | k in s.docs :: k < s.value
    ensures Possible(s, rest) && BenignRun(s, rest) && Torn(After(s, rest))
  {
    var n := s.producers[p].n;
    var f := FreshPost(s);
    var b := Next(Next(s, Begin(f, n + 1)), Read(f));
    var c := Next(b, Count(p, 0));
    assert RoadClear(c, f);
    var tail := FarAheadCanTear(c, f, n);
    Cons(b, Count(p, 0), tail);
    rest := [Begin(f, n + 1)] + ([Read(f)] + ([Count(p, 0)] + tail));
    PostOpens(s, f, n + 1, [Count(p, 0)] + tail);
  }

  /** Counting a batch again after a lost reply can always tear a later batch. */
  lemma LostReplyCanTear(s: State, p: PostId, now: int) returns (rest: seq<Step>)
    requires Inv(s) && Enabled(s, CountLost(p, now))
    ensures var t := Next(s, CountLost(p, now));
            Possible(t, rest) && BenignRun(t, rest) && Torn(After(t, rest))
  {
    assert LiveInv(s, p);
    rest := CountCanTear(Next(s, CountLost(p, now)), p);
  }
}
