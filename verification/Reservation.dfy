/**
 Posting without the FIFO guarantee: a post reserves its markers by one atomic
 increment of the counter and then inserts its messages. There is no unique
 index, so the markers must be distinct by construction.
 */
module Reservation {
  import opened Wrappers
  import opened Fifo

  datatype Post = Post(n: nat, floor: nat, reserved: Option<nat>, done: nat)

  datatype Counter = Counter(value: nat, log: seq<Entry>, posts: map<PostId, Post>)

  datatype Move =
    | Call(p: PostId, n: nat)     // post is called with n messages
    | Reserve(p: PostId)          // _inc_counter by n; the markers start n below the result
    | ReserveLost(p: PostId)      // the same, but the reply is lost and the increment is repeated
    | Insert(p: PostId)           // the next document is inserted

  function Start(origin: nat): Counter {
    Counter(origin, [], map[])
  }

  predicate Can(s: Counter, move: Move) {
    match move
    case Call(p, n) => p !in s.posts
    case Reserve(p) => p in s.posts && s.posts[p].reserved.None?
    case ReserveLost(p) => p in s.posts && s.posts[p].reserved.None?
    case Insert(p) => p in s.posts && s.posts[p].reserved.Some? && s.posts[p].done < s.posts[p].n
  }

  function Do(s: Counter, move: Move): Counter
    requires Can(s, move)
  {
    match move
    case Call(p, n) => s.(posts := s.posts[p := Post(n, s.value, None, 0)])
    case Reserve(p) =>
      var value := s.value + s.posts[p].n;
      s.(value := value, posts := s.posts[p := s.posts[p].(reserved := Some(value - s.posts[p].n))])
    case ReserveLost(p) => s.(value := s.value + s.posts[p].n)
    case Insert(p) =>
      var r := s.posts[p];
      s.(log := s.log + [Entry(r.reserved.value + r.done, MsgId(p, r.done))],
         posts := s.posts[p := r.(done := r.done + 1)])
  }

  predicate CanAll(s: Counter, moves: seq<Move>)
    decreases |moves|
  {
    moves == [] || (Can(s, moves[0]) && CanAll(Do(s, moves[0]), moves[1..]))
  }

  function DoAll(s: Counter, moves: seq<Move>): Counter
    requires CanAll(s, moves)
    decreases |moves|
  {
    if moves == [] then s else DoAll(Do(s, moves[0]), moves[1..])
  }

  /** A reservation lies between the counter at the call's start and the counter now. */
  predicate Reserved(s: Counter, p: PostId)
    requires p in s.posts
  {
    var r := s.posts[p];
    && r.floor <= s.value && r.done <= r.n && (r.reserved.None? ==> r.done == 0)
    && (r.reserved.Some? ==> r.floor <= r.reserved.value && r.reserved.value + r.n <= s.value)
  }

  predicate Apart(a: Post, b: Post) {
    a.reserved.Some? && b.reserved.Some? ==>
      a.reserved.value + a.n <= b.reserved.value || b.reserved.value + b.n <= a.reserved.value
  }

  /** Every insert used the marker reserved for that very message. */
  predicate InPlace(s: Counter, e: Entry) {
    && e.id.post in s.posts && s.posts[e.id.post].reserved.Some?
    && e.id.index < s.posts[e.id.post].done
    && e.k == s.posts[e.id.post].reserved.value + e.id.index
  }

  ghost predicate Inv(s: Counter) {
    && (forall p | p in s.posts :: Reserved(s, p))
    && (forall p, q | p in s.posts && q in s.posts && p != q :: Apart(s.posts[p], s.posts[q]))
    && (forall i | 0 <= i < |s.log| :: InPlace(s, s.log[i]))
    && (forall i, j | 0 <= i < j < |s.log| :: s.log[i].id != s.log[j].id)
    && (forall p, i: nat | p in s.posts && i < s.posts[p].done :: Inserted(s, p, i))
  }

  ghost predicate Inserted(s: Counter, p: PostId, i: nat)
    requires p in s.posts
  {
    s.posts[p].reserved.Some? && Entry(s.posts[p].reserved.value + i, MsgId(p, i)) in s.log
  }

  lemma ReserveKeepsPosts(s: Counter, move: Move, p: PostId, q: PostId)
    requires Inv(s) && Can(s, move) && !move.Insert? && p in Do(s, move).posts && q in Do(s, move).posts
    ensures Reserved(Do(s, move), p) && (p != q ==> Apart(Do(s, move).posts[p], Do(s, move).posts[q]))
  {
    if p in s.posts { assert Reserved(s, p); }
    if q in s.posts { assert Reserved(s, q); }
    if p in s.posts && q in s.posts && p != q { assert Apart(s.posts[p], s.posts[q]); }
  }

  lemma ReserveKeepsInv(s: Counter, move: Move)
    requires Inv(s) && Can(s, move) && !move.Insert?
    ensures Inv(Do(s, move))
  {
    var t := Do(s, move);
    forall p, q | p in t.posts && q in t.posts
      ensures Reserved(t, p) && (p != q ==> Apart(t.posts[p], t.posts[q]))
    {
      ReserveKeepsPosts(s, move, p, q);
    }
    forall i | 0 <= i < |t.log| ensures InPlace(t, t.log[i]) {
      assert InPlace(s, s.log[i]);
    }
    forall p, i: nat | p in t.posts && i < t.posts[p].done ensures Inserted(t, p, i) {
      assert Inserted(s, p, i);
    }
  }

  lemma InsertKeepsInv(s: Counter, p: PostId)
    requires Inv(s) && Can(s, Insert(p))
    ensures Inv(Do(s, Insert(p)))
  {
    var t := Do(s, Insert(p));
    var r := s.posts[p];
    forall q | q in t.posts ensures Reserved(t, q) {
      assert Reserved(s, q);
    }
    forall i | 0 <= i < |t.log| ensures InPlace(t, t.log[i]) {
      if i < |s.log| { assert InPlace(s, s.log[i]); }
    }
    forall i, j | 0 <= i < j < |t.log| ensures t.log[i].id != t.log[j].id {
      if j == |s.log| { assert InPlace(s, s.log[i]); }
    }
    forall q, i: nat | q in t.posts && i < t.posts[q].done ensures Inserted(t, q, i) {
      if q != p || i < r.done { assert Inserted(s, q, i); }
    }
  }

  lemma {:induction false} RunKeepsInv(s: Counter, moves: seq<Move>)
    requires Inv(s) && CanAll(s, moves)
    ensures Inv(DoAll(s, moves))
    decreases |moves|
  {
    if moves != [] {
      if moves[0].Insert? { InsertKeepsInv(s, moves[0].p); } else { ReserveKeepsInv(s, moves[0]); }
      RunKeepsInv(Do(s, moves[0]), moves[1..]);
    }
  }

  /**
   In every interleaving, with any increments repeated: the intervals reserved by
   different posts are disjoint and below the counter, every message is inserted at
   its own place in the interval of its post, no two inserted messages share a
   marker, and a post that has inserted all its messages has filled its interval.
   */
  lemma MarkersAreUnique(origin: nat, moves: seq<Move>)
    requires CanAll(Start(origin), moves)
    ensures var s := DoAll(Start(origin), moves);
            && (forall i, j | 0 <= i < j < |s.log| :: s.log[i].k != s.log[j].k)
            && (forall p, q | p in s.posts && q in s.posts && p != q :: Apart(s.posts[p], s.posts[q]))
            && (forall p | p in s.posts && s.posts[p].reserved.Some? ::
                  s.posts[p].reserved.value + s.posts[p].n <= s.value)
            && (forall i | 0 <= i < |s.log| :: InPlace(s, s.log[i]))
            && (forall p | p in s.posts && s.posts[p].done == s.posts[p].n && s.posts[p].n > 0 ::
                  s.posts[p].reserved.Some?
                  && forall i: nat | i < s.posts[p].n ::
                       Entry(s.posts[p].reserved.value + i, MsgId(p, i)) in s.log)
  {
    RunKeepsInv(Start(origin), moves);
    var s := DoAll(Start(origin), moves);
    forall i, j | 0 <= i < j < |s.log| ensures s.log[i].k != s.log[j].k {
      var x, y := s.log[i], s.log[j];
      assert InPlace(s, x) && InPlace(s, y);
      assert Reserved(s, x.id.post) && Reserved(s, y.id.post);
      if x.id.post != y.id.post {
        assert Apart(s.posts[x.id.post], s.posts[y.id.post]);
      }
    }
    forall p | p in s.posts && s.posts[p].reserved.Some?
      ensures s.posts[p].reserved.value + s.posts[p].n <= s.value
    {
      assert Reserved(s, p);
    }
    forall p | p in s.posts && s.posts[p].done == s.posts[p].n && s.posts[p].n > 0
      ensures s.posts[p].reserved.Some?
              && forall i: nat | i < s.posts[p].n :: Entry(s.posts[p].reserved.value + i, MsgId(p, i)) in s.log
    {
      assert Reserved(s, p);
      forall i: nat | i < s.posts[p].n ensures Entry(s.posts[p].reserved.value + i, MsgId(p, i)) in s.log {
        assert Inserted(s, p, i);
      }
    }
  }

  /**
   What it does not give is FIFO: two posts of any sizes can end up inserted
   against the order of their markers, so that a message appears behind a
   marker an observer may already hold.
   */
  lemma InsertedBehindAMarker(origin: nat, n: nat, m: nat)
    requires n > 0 && m > 0
    ensures var moves := [Call(0, n), Call(1, m), Reserve(0), Reserve(1), Insert(1), Insert(0)];
            && CanAll(Start(origin), moves)
            && DoAll(Start(origin), moves).log == [Entry(origin + n, MsgId(1, 0)), Entry(origin, MsgId(0, 0))]
  {
    var moves := [Call(0, n), Call(1, m), Reserve(0), Reserve(1), Insert(1), Insert(0)];
    assert moves[1..] == [Call(1, m), Reserve(0), Reserve(1), Insert(1), Insert(0)];
    assert moves[1..][1..] == [Reserve(0), Reserve(1), Insert(1), Insert(0)];
    assert moves[1..][1..][1..] == [Reserve(1), Insert(1), Insert(0)];
    assert moves[1..][1..][1..][1..] == [Insert(1), Insert(0)];
    assert moves[1..][1..][1..][1..][1..] == [Insert(0)];
    assert moves[1..][1..][1..][1..][1..][1..] == [];
    var s1 := Do(Start(origin), Call(0, n));
    var s2 := Do(s1, Call(1, m));
    var s3 := Do(s2, Reserve(0));
    var s4 := Do(s3, Reserve(1));
    var s5 := Do(s4, Insert(1));
    var s6 := Do(s5, Insert(0));
    assert CanAll(s5, [Insert(0)]) && DoAll(s5, [Insert(0)]) == s6;
    assert CanAll(s4, [Insert(1), Insert(0)]) && DoAll(s4, [Insert(1), Insert(0)]) == s6;
    assert CanAll(s3, moves[1..][1..][1..]) && DoAll(s3, moves[1..][1..][1..]) == s6;
    assert CanAll(s2, moves[1..][1..]) && DoAll(s2, moves[1..][1..]) == s6;
    assert CanAll(s1, moves[1..]) && DoAll(s1, moves[1..]) == s6;
  }

  /** A reservation repeated after a lost reply leaves a hole the size of the post. */
  lemma RepeatedReservationLeavesHole(origin: nat, n: nat)
    requires n > 0
    ensures var moves := [Call(0, n), ReserveLost(0), Reserve(0), Insert(0)];
            && CanAll(Start(origin), moves)
            && DoAll(Start(origin), moves).log == [Entry(origin + n, MsgId(0, 0))]
            && DoAll(Start(origin), moves).value == origin + n + n
  {
    var moves := [Call(0, n), ReserveLost(0), Reserve(0), Insert(0)];
    assert moves[1..] == [ReserveLost(0), Reserve(0), Insert(0)];
    assert moves[1..][1..] == [Reserve(0), Insert(0)];
    assert moves[1..][1..][1..] == [Insert(0)] && moves[1..][1..][1..][1..] == [];
    var s1 := Do(Start(origin), Call(0, n));
    var s2 := Do(s1, ReserveLost(0));
    var s3 := Do(s2, Reserve(0));
    var s4 := Do(s3, Insert(0));
    assert CanAll(s3, [Insert(0)]) && DoAll(s3, [Insert(0)]) == s4;
    assert CanAll(s2, moves[1..][1..]) && DoAll(s2, moves[1..][1..]) == s4;
    assert CanAll(s1, moves[1..]) && DoAll(s1, moves[1..]) == s4;
  }
}
