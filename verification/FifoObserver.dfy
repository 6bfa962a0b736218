/**
 What an observer that pages through a FIFO queue by marker (echo on, claimed
 messages included) sees while producers post concurrently.
 */
module FifoObserver {
  import opened Wrappers
  import opened Fifo
  import opened FifoGapFree
  import opened NatSets

  /** Every post of the run carries n messages. */
  predicate PostsCarry(n: nat, steps: seq<Step>) {
    forall i | 0 <= i < |steps| && steps[i].Begin? :: steps[i].n == n
  }

  /** The observer holds a prefix of the insertion order, and its marker is the marker of
      the last message it holds. */
  ghost predicate HoldsPrefix(s: State, o: Observer) {
    && |o.seen| <= |s.log|
    && (forall i | 0 <= i < |o.seen| :: o.seen[i] == s.log[i].id)
    && o.marker == if o.seen == [] then None else Some(s.origin + |o.seen| - 1)
  }

  /** No message was handed to the observer twice. */
  ghost predicate SeenOnce(o: Observer) {
    forall i, j | 0 <= i < j < |o.seen| :: o.seen[i] != o.seen[j]
  }

  /** Stored documents have different ids. */
  ghost predicate IdsDistinct(s: State) {
    forall j, k | j in s.docs && k in s.docs && j != k :: s.docs[j].id != s.docs[k].id
  }

  lemma StepKeepsIdsDistinct(s: State, step: Step)
    requires IdsDistinct(s) && Enabled(s, step)
    ensures IdsDistinct(Next(s, step))
  {
    if step.InsertDoc? {
      var r := s.producers[step.p];
      assert Accepts(s, r.phase.base + r.phase.done, MsgId(step.p, r.phase.done));
    }
  }

  /** In every run, with removals and misfires too, no id is stored twice. */
  lemma {:induction false} RunKeepsIdsDistinct(s: State, steps: seq<Step>)
    requires IdsDistinct(s) && Possible(s, steps)
    ensures IdsDistinct(After(s, steps))
    decreases |steps|
  {
    if steps != [] {
      StepKeepsIdsDistinct(s, steps[0]);
      RunKeepsIdsDistinct(Next(s, steps[0]), steps[1..]);
    }
  }

  /** In a gap-free queue the insertion order repeats no message, so neither does a prefix of it. */
  lemma PrefixSeenOnce(s: State, o: Observer)
    requires Contiguous(s) && IdsDistinct(s) && HoldsPrefix(s, o)
    ensures SeenOnce(o)
  {
    forall i, j | 0 <= i < j < |o.seen| ensures o.seen[i] != o.seen[j] {
      var a, b := s.origin + i, s.origin + j;
      assert a in s.docs && b in s.docs;
      assert s.log[a - s.origin] == Entry(a, s.docs[a].id) && s.log[b - s.origin] == Entry(b, s.docs[b].id);
    }
  }

  ghost predicate ObserversHoldPrefixes(s: State) {
    forall o | o in s.observers :: HoldsPrefix(s, s.observers[o])
  }

  ghost predicate AllSingle(s: State) {
    && (forall p | p in s.producers :: s.producers[p].n == 1)
    && (forall k | k in s.docs :: !s.docs[k].pending)
  }

  /** With nothing pending, the next document of a listing is the next one in insertion order. */
  lemma NextIsNextLogged(s: State, ob: Observer, k: nat)
    requires Inv(s) && AllSingle(s) && HoldsPrefix(s, ob) && IsNext(s, ob.marker, k)
    ensures k == s.origin + |ob.seen| && |ob.seen| < |s.log| && s.docs[k].id == s.log[|ob.seen|].id
  {
    var j := s.origin + |ob.seen|;
    assert j <= k;
    assert Visible(s, j) && Past(ob.marker, j);
    assert s.log[k - s.origin] == Entry(k, s.docs[k].id);
  }

  lemma ObserveKeepsPrefix(s: State, o: ObserverId, k: nat)
    requires Inv(s) && AllSingle(s) && ObserversHoldPrefixes(s) && Enabled(s, Observe(o, k))
    ensures ObserversHoldPrefixes(Next(s, Observe(o, k)))
  {
    var ob := s.observers[o];
    assert HoldsPrefix(s, ob);
    NextIsNextLogged(s, ob, k);
    var t := Next(s, Observe(o, k));
    PrefixGrows(s, ob, k);
    forall q | q in t.observers ensures HoldsPrefix(t, t.observers[q]) {
      if q != o { SameLogSamePrefix(s, t, s.observers[q]); } else { SameLogSamePrefix(s, t, t.observers[o]); }
    }
  }

  lemma PrefixGrows(s: State, ob: Observer, k: nat)
    requires HoldsPrefix(s, ob) && k == s.origin + |ob.seen| && |ob.seen| < |s.log|
    requires k in s.docs && s.docs[k].id == s.log[|ob.seen|].id
    ensures HoldsPrefix(s, Observer(Some(k), ob.seen + [s.docs[k].id]))
  {
  }

  lemma SameLogSamePrefix(s: State, t: State, ob: Observer)
    requires HoldsPrefix(s, ob) && t.log == s.log && t.origin == s.origin
    ensures HoldsPrefix(t, ob)
  {
  }

  lemma OtherStepKeepsPrefix(s: State, step: Step)
    requires ObserversHoldPrefixes(s) && Enabled(s, step) && !step.Observe?
    ensures ObserversHoldPrefixes(Next(s, step))
  {
    var t := Next(s, step);
    assert s.log <= t.log && t.origin == s.origin;
    forall q | q in t.observers ensures HoldsPrefix(t, t.observers[q]) {
      if q in s.observers { assert HoldsPrefix(s, s.observers[q]); }
    }
  }

  lemma StaysSingle(s: State, step: Step)
    requires AllSingle(s) && Enabled(s, step) && (step.Begin? ==> step.n == 1)
    ensures AllSingle(Next(s, step))
  {
  }

  lemma {:induction false} RunKeepsPrefixes(s: State, steps: seq<Step>)
    requires Inv(s) && AllSingle(s) && ObserversHoldPrefixes(s)
    requires Possible(s, steps) && BenignRun(s, steps) && PostsCarry(1, steps)
    ensures ObserversHoldPrefixes(After(s, steps))
    decreases |steps|
  {
    if steps != [] {
      var step := steps[0];
      StepKeepsInv(s, step);
      if step.Observe? { ObserveKeepsPrefix(s, step.o, step.k); } else { OtherStepKeepsPrefix(s, step); }
      StaysSingle(s, step);
      RunKeepsPrefixes(Next(s, step), steps[1..]);
    }
  }

  /**
   In every benign run of single-message posts, interleaved in any way with any
   number of observers, each observer always holds a prefix of the insertion
   order, each message once: nothing ever becomes visible behind a marker already
   handed out.
   */
  lemma ObserverMissesNothing(origin: nat, steps: seq<Step>, o: ObserverId)
    requires Possible(Init(origin), steps) && BenignRun(Init(origin), steps) && PostsCarry(1, steps)
    requires o in After(Init(origin), steps).observers
    ensures var s := After(Init(origin), steps);
            HoldsPrefix(s, s.observers[o]) && SeenOnce(s.observers[o])
  {
    RunKeepsPrefixes(Init(origin), steps);
    RunKeepsInv(Init(origin), steps);
    RunKeepsIdsDistinct(Init(origin), steps);
    var s := After(Init(origin), steps);
    PrefixSeenOnce(s, s.observers[o]);
  }

  // ---- Batches can be missed ----

  /** Two batches; the later one is finalised first; the observer is handed a marker
      past the earlier one. */
  function OvertakingRun(n: nat): seq<Step> {
    PostSteps(0, n) + (PostSteps(1, n) + ([FinaliseDoc(1, n)] + ([Watch(0)] + ([Observe(0, n)] + []))))
  }

  lemma PostStepsCarry(p: PostId, n: nat, rest: seq<Step>)
    requires PostsCarry(n, rest)
    ensures PostsCarry(n, PostSteps(p, n) + rest)
  {
  }

  lemma OvertakingTail(s: State, n: nat)
    requires TwoBatches(s, n)
    ensures var tail := [FinaliseDoc(1, n)] + ([Watch(0)] + ([Observe(0, n)] + []));
            && Possible(s, tail) && BenignRun(s, tail)
            && !ObserversHoldPrefixes(After(s, tail))
  {
    var a := Next(s, FinaliseDoc(1, n));
    var b := Next(a, Watch(0));
    assert Visible(b, n);
    assert IsNext(b, None, n);
    var c := Next(b, Observe(0, n));
    Cons(b, Observe(0, n), []);
    Cons(a, Watch(0), [Observe(0, n)] + []);
    Cons(s, FinaliseDoc(1, n), [Watch(0)] + ([Observe(0, n)] + []));
    assert c.observers[0].seen == [MsgId(1, 0)];
    assert !HoldsPrefix(c, c.observers[0]);
  }

  /** A first batch of n, counted but not finalised. */
  ghost predicate OneBatch(s: State, n: nat) {
    && Inv(s) && s.origin == 0 && s.observers == map[] && s.value == End(s) == n && 1 !in s.producers
    && (forall k: nat | k < n :: k in s.docs && s.docs[k] == NewDoc(0, k, n))
  }

  lemma FirstBatchCounted(n: nat)
    requires n >= 2
    ensures Possible(Init(0), PostSteps(0, n)) && BenignRun(Init(0), PostSteps(0, n))
    ensures OneBatch(After(Init(0), PostSteps(0, n)), n)
  {
    UndisturbedPost(Init(0), 0, n);
  }

  ghost predicate TwoBatches(t: State, n: nat) {
    && n >= 2 && t.origin == 0 && t.observers == map[] && Interval(t) && End(t) == 2 * n
    && (forall k | k in t.docs :: t.docs[k].pending)
    && n in t.docs && t.docs[n].id == MsgId(1, 0) && Alive(t, 1) && t.producers[1].phase.Counted?
    && t.log[0].id == MsgId(0, 0)
  }

  lemma SecondBatchCounted(s: State, n: nat)
    requires n >= 2 && OneBatch(s, n)
    ensures Possible(s, PostSteps(1, n)) && BenignRun(s, PostSteps(1, n))
    ensures TwoBatches(After(s, PostSteps(1, n)), n)
  {
    UndisturbedPost(s, 1, n);
    var t := After(s, PostSteps(1, n));
    assert Contiguous(t);
    forall k | k in t.docs ensures t.docs[k].pending {
      if k < n { assert t.docs[k] == s.docs[k]; } else { assert t.docs[k] == NewDoc(1, k - n, n); }
    }
    assert t.docs[0] == s.docs[0] == NewDoc(0, 0, n);
    assert t.log[0] == Entry(0, t.docs[0].id);
  }

  lemma OvertakenBatchIsMissed(n: nat)
    requires n >= 2
    ensures Possible(Init(0), OvertakingRun(n)) && BenignRun(Init(0), OvertakingRun(n))
    ensures PostsCarry(n, OvertakingRun(n))
    ensures !ObserversHoldPrefixes(After(Init(0), OvertakingRun(n)))
  {
    var tail := [FinaliseDoc(1, n)] + ([Watch(0)] + ([Observe(0, n)] + []));
    PostStepsCarry(1, n, tail);
    PostStepsCarry(0, n, PostSteps(1, n) + tail);
    FirstBatchCounted(n);
    var s := After(Init(0), PostSteps(0, n));
    SecondBatchCounted(s, n);
    OvertakingTail(After(s, PostSteps(1, n)), n);
    BenignRunsCompose(s, PostSteps(1, n), tail);
    BenignRunsCompose(Init(0), PostSteps(0, n), PostSteps(1, n) + tail);
  }

  /** Every observer holds a prefix of the insertion order, each message once. */
  ghost predicate NothingMissed(s: State) {
    ObserversHoldPrefixes(s) && forall o | o in s.observers :: SeenOnce(s.observers[o])
  }

  /**
   In benign runs, observers of queues whose posts all carry n messages are safe
   from missing or repeating messages exactly when n is one. `FifoMiss` says what
   happens in other runs.
   */
  lemma ObserversSafeIffSinglePosts(n: nat)
    requires n > 0
    ensures n == 1 <==>
              forall origin: nat, steps | Possible(Init(origin), steps)
                && BenignRun(Init(origin), steps) && PostsCarry(n, steps) ::
                NothingMissed(After(Init(origin), steps))
  {
    if n == 1 {
      forall origin: nat, steps | Possible(Init(origin), steps)
        && BenignRun(Init(origin), steps) && PostsCarry(n, steps)
        ensures NothingMissed(After(Init(origin), steps))
      {
        SinglePostsMissNothing(origin, steps);
      }
    } else {
      OvertakenBatchIsMissed(n);
    }
  }

  lemma SinglePostsMissNothing(origin: nat, steps: seq<Step>)
    requires Possible(Init(origin), steps) && BenignRun(Init(origin), steps) && PostsCarry(1, steps)
    ensures NothingMissed(After(Init(origin), steps))
  {
    var s := After(Init(origin), steps);
    forall o | o in s.observers ensures HoldsPrefix(s, s.observers[o]) && SeenOnce(s.observers[o]) {
      ObserverMissesNothing(origin, steps, o);
    }
  }

  // ---- A page of the listing ----

  /** The markers a query `tx: None, k: {$gt: marker}` matches. */
  function Matches(s: State, marker: Option<nat>): set<nat> {
    set k | k in s.docs && Visible(s, k) && Past(marker, k)
  }

  /** The marker in force when the i-th document of a page is fetched. */
  function MarkerBefore(marker: Option<nat>, page: seq<nat>, i: nat): Option<nat>
    requires i <= |page|
  {
    if i == 0 then marker else Some(page[i - 1])
  }

  /** The page is what a cursor starting at the marker yields, document by document. */
  ghost predicate IsPage(s: State, marker: Option<nat>, page: seq<nat>) {
    forall i | 0 <= i < |page| :: NextAt(s, marker, page, i)
  }

  /** The i-th document of the page is what the listing yields after the ones before it. */
  ghost predicate NextAt(s: State, marker: Option<nat>, page: seq<nat>, i: nat)
    requires i < |page|
  {
    IsNext(s, MarkerBefore(marker, page, i), page[i])
  }

  /** A page is in marker order and holds only matching documents. */
  lemma {:induction false} PageAscends(s: State, marker: Option<nat>, page: seq<nat>)
    requires IsPage(s, marker, page)
    ensures forall i, j | 0 <= i < j < |page| :: page[i] < page[j]
    ensures forall i | 0 <= i < |page| :: page[i] in Matches(s, marker)
    decreases |page|
  {
    if page != [] {
      RestOfPage(s, marker, page);
      PageAscends(s, Some(page[0]), page[1..]);
      FirstOfPage(s, marker, page[0]);
      forall j | 0 < j < |page| ensures page[0] < page[j] && page[j] in Matches(s, marker) {
        assert page[1..][j - 1] in Matches(s, Some(page[0]));
      }
    }
  }

  /** A listing from a page's last marker continues with exactly what the page left, so
      chained pages lose nothing and repeat nothing. */
  lemma {:induction false} PageLeavesTheRest(s: State, marker: Option<nat>, page: seq<nat>)
    requires IsPage(s, marker, page)
    ensures forall k :: k in Matches(s, MarkerBefore(marker, page, |page|)) <==>
                        k in Matches(s, marker) && k !in page
    decreases |page|
  {
    if page != [] {
      var first, rest := page[0], page[1..];
      RestOfPage(s, marker, page);
      PageLeavesTheRest(s, Some(first), rest);
      FirstOfPage(s, marker, first);
      var next := MarkerBefore(marker, page, |page|);
      assert next == MarkerBefore(Some(first), rest, |rest|);
      forall k ensures k in Matches(s, next) <==> k in Matches(s, marker) && k !in page {
        assert k in Matches(s, next) <==> k in Matches(s, Some(first)) && k !in rest;
        Member(page, k);
      }
    }
  }

  lemma Member(page: seq<nat>, k: nat)
    requires page != []
    ensures k in page <==> k == page[0] || k in page[1..]
  {
    assert page == [page[0]] + page[1..];
  }

  lemma FirstOfPage(s: State, marker: Option<nat>, first: nat)
    requires IsNext(s, marker, first)
    ensures first in Matches(s, marker) && forall k | k in Matches(s, marker) :: first <= k
    ensures Matches(s, Some(first)) == Matches(s, marker) - {first}
  {
    forall k ensures k in Matches(s, Some(first)) <==> k in Matches(s, marker) && k != first {
    }
  }

  lemma RestOfPage(s: State, marker: Option<nat>, page: seq<nat>)
    requires IsPage(s, marker, page) && page != []
    ensures IsNext(s, marker, page[0]) && IsPage(s, Some(page[0]), page[1..])
  {
    assert NextAt(s, marker, page, 0);
    var rest := page[1..];
    forall i | 0 <= i < |rest| ensures NextAt(s, Some(page[0]), rest, i) {
      assert NextAt(s, marker, page, i + 1);
    }
  }

  /** The marker a listing ends with. */
  datatype NextMarker = KeyError | Continue(k: nat)

  /** `list`: read a cursor over the matching documents in marker order, at most `limit` of
      them (a limit of 0 means none); the marker to continue from is that of the last one,
      and asking for it after an empty page is an error. */
  method ListPage(s: State, marker: Option<nat>, limit: nat) returns (page: seq<nat>, next: NextMarker)
    ensures IsPage(s, marker, page)
    ensures limit > 0 ==> |page| <= limit
    ensures (limit > 0 && |page| == limit) || Matches(s, MarkerBefore(marker, page, |page|)) == {}
    ensures next.KeyError? <==> Matches(s, marker) == {}
    ensures next.Continue? ==> MarkerBefore(marker, page, |page|) == Some(next.k)
  {
    page, next := [], KeyError;
    var left := Matches(s, marker);
    while (limit == 0 || |page| < limit) && left != {}
      invariant limit > 0 ==> |page| <= limit
      invariant left == Matches(s, MarkerBefore(marker, page, |page|))
      invariant next == if page == [] then KeyError else Continue(page[|page| - 1])
      invariant IsPage(s, marker, page)
      invariant page != [] ==> Matches(s, marker) != {}
      decreases left
    {
      var k := Least(left);
      LeastIsNext(s, MarkerBefore(marker, page, |page|), k);
      PageGrows(s, marker, page, k);
      page, next := page + [k], Continue(k);
      left := Matches(s, Some(k));
    }
  }

  lemma PageGrows(s: State, marker: Option<nat>, page: seq<nat>, k: nat)
    requires IsPage(s, marker, page) && IsNext(s, MarkerBefore(marker, page, |page|), k)
    ensures IsPage(s, marker, page + [k]) && MarkerBefore(marker, page + [k], |page| + 1) == Some(k)
  {
    var grown := page + [k];
    forall i | 0 <= i < |grown| ensures NextAt(s, marker, grown, i) {
      if i < |page| {
        assert NextAt(s, marker, page, i);
        assert MarkerBefore(marker, grown, i) == MarkerBefore(marker, page, i);
      } else {
        assert MarkerBefore(marker, grown, i) == MarkerBefore(marker, page, |page|);
      }
    }
  }

  lemma LeastIsNext(s: State, marker: Option<nat>, k: nat)
    requires k in Matches(s, marker) && forall j | j in Matches(s, marker) :: k <= j
    ensures IsNext(s, marker, k)
    ensures Matches(s, Some(k)) < Matches(s, marker)
  {
    forall j | j in s.docs && Visible(s, j) && Past(marker, j) ensures k <= j {
      assert j in Matches(s, marker);
    }
    assert k !in Matches(s, Some(k));
  }

  function ObserveSteps(o: ObserverId, page: seq<nat>): seq<Step> {
    seq(|page|, i requires 0 <= i < |page| => Observe(o, page[i]))
  }

  function IdsAt(s: State, page: seq<nat>): seq<MsgId>
    requires forall i | 0 <= i < |page| :: page[i] in s.docs
  {
    seq(|page|, i requires 0 <= i < |page| => s.docs[page[i]].id)
  }

  lemma PageTail(s: State, o: ObserverId, page: seq<nat>)
    requires o in s.observers && IsPage(s, s.observers[o].marker, page) && page != []
    ensures Enabled(s, Observe(o, page[0]))
    ensures IsPage(Next(s, Observe(o, page[0])), Some(page[0]), page[1..])
  {
    RestOfPage(s, s.observers[o].marker, page);
    var t := Next(s, Observe(o, page[0]));
    var rest := page[1..];
    forall i | 0 <= i < |rest| ensures NextAt(t, Some(page[0]), rest, i) {
      assert NextAt(s, Some(page[0]), rest, i);
    }
  }

  lemma PageIsStored(s: State, marker: Option<nat>, page: seq<nat>)
    requires IsPage(s, marker, page)
    ensures forall i | 0 <= i < |page| :: page[i] in s.docs
  {
    forall i | 0 <= i < |page| ensures page[i] in s.docs {
      assert NextAt(s, marker, page, i);
    }
  }

  ghost function AfterPage(s: State, o: ObserverId, page: seq<nat>): State
    requires o in s.observers && IsPage(s, s.observers[o].marker, page)
  {
    PageIsStored(s, s.observers[o].marker, page);
    var ob := s.observers[o];
    s.(observers := s.observers[o :=
      Observer(MarkerBefore(ob.marker, page, |page|), ob.seen + IdsAt(s, page))])
  }

  lemma AfterPageUnfolds(s: State, o: ObserverId, page: seq<nat>)
    requires o in s.observers && IsPage(s, s.observers[o].marker, page) && page != []
    ensures Enabled(s, Observe(o, page[0]))
    ensures var t := Next(s, Observe(o, page[0]));
            && o in t.observers && IsPage(t, t.observers[o].marker, page[1..])
            && AfterPage(t, o, page[1..]) == AfterPage(s, o, page)
  {
    PageTail(s, o, page);
    PageIsStored(s, s.observers[o].marker, page);
    var t := Next(s, Observe(o, page[0]));
    assert IdsAt(s, page) == [s.docs[page[0]].id] + IdsAt(t, page[1..]);
    assert t.observers[o].seen + IdsAt(t, page[1..]) == s.observers[o].seen + IdsAt(s, page);
    assert AfterPage(t, o, page[1..]).observers == AfterPage(s, o, page).observers;
  }

  lemma AfterEmptyPage(s: State, o: ObserverId)
    requires o in s.observers
    ensures IsPage(s, s.observers[o].marker, []) && AfterPage(s, o, []) == s
  {
    assert s.observers == s.observers[o := s.observers[o]];
    assert s.observers[o].seen + IdsAt(s, []) == s.observers[o].seen;
  }

  /** Reading a page is a run of Observe steps, so pages of any size see what the steps see. */
  lemma {:induction false} PageIsARun(s: State, o: ObserverId, page: seq<nat>)
    requires o in s.observers && IsPage(s, s.observers[o].marker, page)
    ensures Possible(s, ObserveSteps(o, page)) && BenignRun(s, ObserveSteps(o, page))
    ensures After(s, ObserveSteps(o, page)) == AfterPage(s, o, page)
    decreases |page|
  {
    if page == [] {
      AfterEmptyPage(s, o);
      assert ObserveSteps(o, page) == [];
    } else {
      AfterPageUnfolds(s, o, page);
      var t := Next(s, Observe(o, page[0]));
      var rest := ObserveSteps(o, page[1..]);
      PageIsARun(t, o, page[1..]);
      assert ObserveSteps(o, page) == [Observe(o, page[0])] + rest;
      Cons(s, Observe(o, page[0]), rest);
      assert After(s, ObserveSteps(o, page)) == After(t, rest);
    }
  }
}
