/**
 The garbage collector of the Redis driver. Each queue has a sorted set of
 message ids; Redis expires the messages themselves, and `gc` removes the ids
 left behind. It pages through every set by offset and removes dead ids from
 the page it has just read, so the ids after the page move forward under an
 offset that has already passed them. These lemmas say what that costs.
 */
module RedisGc {
  import opened Wrappers

  type Mid = nat
  type Key = nat      // the key of a message set stands for its queue and project
  type Claims = map<nat, int>   // the claims of one queue, with their expiry as score

  /** Those of the first n ids whose message exists, in order. */
  function RemainingUpTo(ids: seq<Mid>, n: nat, live: set<Mid>): (r: seq<Mid>)
    requires n <= |ids|
    ensures |r| <= n
  {
    if n == 0 then []
    else RemainingUpTo(ids, n - 1, live) + (if ids[n - 1] in live then [ids[n - 1]] else [])
  }

  function Remaining(ids: seq<Mid>, live: set<Mid>): (r: seq<Mid>)
    ensures |r| <= |ids|
  {
    RemainingUpTo(ids, |ids|, live)
  }

  /** How many of the ids stand for no existing message. */
  function Dead(ids: seq<Mid>, live: set<Mid>): nat {
    |ids| - |Remaining(ids, live)|
  }

  predicate Differ(ids: seq<Mid>, i: nat, j: nat)
    requires i < |ids| && j < |ids|
  {
    ids[i] != ids[j]
  }

  predicate Distinct(ids: seq<Mid>) {
    forall i, j | 0 <= i < j < |ids| :: Differ(ids, i, j)
  }

  predicate KeysDiffer(keys: seq<Key>, i: nat, j: nat)
    requires i < |keys| && j < |keys|
  {
    keys[i] != keys[j]
  }

  predicate DistinctKeys(keys: seq<Key>) {
    forall i, j | 0 <= i < j < |keys| :: KeysDiffer(keys, i, j)
  }

  function KeysPage(index: seq<Key>, offset: nat, batch: nat): seq<Key>
    requires offset <= |index|
  {
    if offset + batch <= |index| then index[offset..offset + batch] else index[offset..]
  }

  lemma NextKeys(index: seq<Key>, offset: nat, batch: nat)
    requires DistinctKeys(index) && offset <= |index| && batch > 0
    ensures var keys := KeysPage(index, offset, batch);
            && offset + |keys| <= |index| && DistinctKeys(keys)
            && (|keys| == batch || (|keys| < batch && offset + |keys| == |index|))
            && index[..offset + |keys|] == index[..offset] + keys
            && (keys == [] ==> offset == |index|)
            && (forall k | k in keys :: k !in index[..offset])
  {
    var keys := KeysPage(index, offset, batch);
    forall i, j | 0 <= i < j < |keys| ensures KeysDiffer(keys, i, j) {
      assert KeysDiffer(index, offset + i, offset + j);
    }
    forall j | 0 <= j < |keys| ensures keys[j] !in index[..offset] {
      forall i | 0 <= i < offset ensures index[i] != keys[j] {
        assert KeysDiffer(index, i, offset + j);
      }
    }
  }

  lemma NotYet(keys: seq<Key>, i: nat)
    requires DistinctKeys(keys) && i < |keys|
    ensures keys[i] !in keys[..i] && keys[..i + 1] == keys[..i] + [keys[i]]
  {
    forall j | 0 <= j < i ensures keys[j] != keys[i] {
      assert KeysDiffer(keys, j, i);
    }
  }

  lemma {:induction false} RemainingPrefix(a: seq<Mid>, b: seq<Mid>, n: nat, live: set<Mid>)
    requires n <= |a|
    ensures RemainingUpTo(a + b, n, live) == RemainingUpTo(a, n, live)
    decreases n
  {
    if n > 0 { RemainingPrefix(a, b, n - 1, live); }
  }

  lemma {:induction false} RemainingSuffix(a: seq<Mid>, b: seq<Mid>, n: nat, live: set<Mid>)
    requires n <= |b|
    ensures RemainingUpTo(a + b, |a| + n, live) == Remaining(a, live) + RemainingUpTo(b, n, live)
    decreases n
  {
    if n == 0 {
      RemainingPrefix(a, b, |a|, live);
    } else {
      RemainingSuffix(a, b, n - 1, live);
      assert (a + b)[|a| + n - 1] == b[n - 1];
    }
  }

  lemma RemainingConcat(a: seq<Mid>, b: seq<Mid>, live: set<Mid>)
    ensures Remaining(a + b, live) == Remaining(a, live) + Remaining(b, live)
    ensures Dead(a + b, live) == Dead(a, live) + Dead(b, live)
  {
    RemainingSuffix(a, b, |b|, live);
  }

  lemma RemainingOne(m: Mid, live: set<Mid>)
    ensures Remaining([m], live) == if m in live then [m] else []
  {
    assert RemainingUpTo([m], 0, live) == [];
  }

  lemma {:induction false} RemainingIdempotentUpTo(a: seq<Mid>, n: nat, live: set<Mid>)
    requires n <= |a|
    ensures Remaining(RemainingUpTo(a, n, live), live) == RemainingUpTo(a, n, live)
    decreases n
  {
    if n > 0 {
      RemainingIdempotentUpTo(a, n - 1, live);
      var last := if a[n - 1] in live then [a[n - 1]] else [];
      RemainingConcat(RemainingUpTo(a, n - 1, live), last, live);
      RemainingOne(a[n - 1], live);
    }
  }

  /** Only dead ids are ever dropped. */
  lemma {:induction false} RemainingExact(a: seq<Mid>, n: nat, live: set<Mid>, m: Mid)
    requires n <= |a|
    ensures m in RemainingUpTo(a, n, live) <==> m in live && exists i | 0 <= i < n :: a[i] == m
    decreases n
  {
    if n > 0 { RemainingExact(a, n - 1, live, m); }
  }

  lemma {:induction false} AllLiveUpTo(a: seq<Mid>, n: nat, live: set<Mid>)
    requires n <= |a|
    ensures |RemainingUpTo(a, n, live)| == n <==> forall i | 0 <= i < n :: a[i] in live
    ensures |RemainingUpTo(a, n, live)| == n ==> RemainingUpTo(a, n, live) == a[..n]
    decreases n
  {
    if n > 0 {
      AllLiveUpTo(a, n - 1, live);
      assert a[..n] == a[..n - 1] + [a[n - 1]];
    }
  }

  lemma NoneDead(a: seq<Mid>, live: set<Mid>)
    requires Dead(a, live) == 0
    ensures Remaining(a, live) == a
  {
    AllLiveUpTo(a, |a|, live);
    assert a[..|a|] == a;
  }

  /** No id is dead exactly when all have their message. */
  lemma NoneDeadIff(a: seq<Mid>, live: set<Mid>)
    ensures Dead(a, live) == 0 <==> forall m | m in a :: m in live
  {
    AllLiveUpTo(a, |a|, live);
  }

  function Drop(ids: seq<Mid>, n: nat): seq<Mid> {
    if n <= |ids| then ids[n..] else []
  }

  lemma TakeDrop(ids: seq<Mid>, n: nat)
    ensures ids == Take(ids, n) + Drop(ids, n)
  {
  }

  /** `zrange(offset, offset + batch - 1)`. */
  function Page(ids: seq<Mid>, offset: nat, batch: nat): seq<Mid> {
    Take(Drop(ids, offset), batch)
  }

  /** What one page's removals leave of the set. */
  function Sweep(ids: seq<Mid>, offset: nat, batch: nat, live: set<Mid>): seq<Mid> {
    Take(ids, offset) + (Remaining(Page(ids, offset, batch), live) + Drop(Drop(ids, offset), batch))
  }

  lemma PageFits(ids: seq<Mid>, offset: nat, batch: nat)
    requires batch > 0
    ensures var page := Page(ids, offset, batch);
            && (page == [] <==> offset >= |ids|)
            && (page != [] ==> |page| <= |ids| - offset)
  {
  }

  /** `after` is `before` without `removed` of its dead ids, and no more dead ids are left
      than were removed. */
  predicate Thinned(before: seq<Mid>, after: seq<Mid>, removed: int, live: set<Mid>) {
    && Remaining(after, live) == Remaining(before, live)
    && |after| == |before| - removed
    && Dead(after, live) <= removed
  }

  /** The state of a pass that has reached the offset. */
  predicate Underway(before: seq<Mid>, ids: seq<Mid>, offset: nat, removed: int, live: set<Mid>) {
    && Remaining(ids, live) == Remaining(before, live)
    && |ids| == |before| - removed
    && Dead(Take(ids, offset), live) <= removed
  }

  lemma Shift(front: seq<Mid>, kept: seq<Mid>, tail: seq<Mid>, d: nat)
    ensures Take(front + (kept + tail), |front| + |kept| + d) == front + (kept + Take(tail, d))
  {
  }

  lemma RemainingThree(a: seq<Mid>, b: seq<Mid>, c: seq<Mid>, live: set<Mid>)
    ensures Remaining(a + (b + c), live) == Remaining(a, live) + (Remaining(b, live) + Remaining(c, live))
    ensures Dead(a + (b + c), live) == Dead(a, live) + Dead(b, live) + Dead(c, live)
  {
    RemainingConcat(a, b + c, live);
    RemainingConcat(b, c, live);
  }

  /** The ids that slip under the new offset are no more than the ones removed. */
  lemma Slip(front: seq<Mid>, page: seq<Mid>, tail: seq<Mid>, live: set<Mid>)
    ensures var next := front + (Remaining(page, live) + tail);
            && Remaining(next, live) == Remaining(front + (page + tail), live)
            && Dead(Take(next, |front| + |page|), live) <= Dead(front, live) + Dead(page, live)
  {
    var kept := Remaining(page, live);
    RemainingIdempotentUpTo(page, |page|, live);
    RemainingThree(front, page, tail, live);
    RemainingThree(front, kept, tail, live);
    Shift(front, kept, tail, Dead(page, live));
    RemainingThree(front, kept, Take(tail, Dead(page, live)), live);
  }

  lemma ThreeParts(ids: seq<Mid>, offset: nat, batch: nat)
    ensures ids == Take(ids, offset) + (Page(ids, offset, batch) + Drop(Drop(ids, offset), batch))
  {
    TakeDrop(ids, offset);
    TakeDrop(Drop(ids, offset), batch);
  }

  /** One round of the loop: order and live ids are kept, and although the offset moves on by
      the whole page, the dead ids behind it stay within the number removed. */
  lemma RoundKeepsUnderway(before: seq<Mid>, ids: seq<Mid>, offset: nat, batch: nat, removed: int, live: set<Mid>)
    requires batch > 0 && offset < |ids| && Underway(before, ids, offset, removed, live)
    ensures var page := Page(ids, offset, batch);
            && page != [] && |Sweep(ids, offset, batch, live)| <= |ids|
            && Underway(before, Sweep(ids, offset, batch, live), offset + |page|, removed + Dead(page, live), live)
  {
    PageFits(ids, offset, batch);
    ThreeParts(ids, offset, batch);
    var front, page, tail := Take(ids, offset), Page(ids, offset, batch), Drop(Drop(ids, offset), batch);
    Slip(front, page, tail, live);
    assert |front| == offset;
    assert Sweep(ids, offset, batch, live) == front + (Remaining(page, live) + tail);
  }

  lemma PassStarts(ids: seq<Mid>, live: set<Mid>)
    ensures Underway(ids, ids, 0, 0, live)
  {
    assert Take(ids, 0) == [];
  }

  lemma PassEnds(before: seq<Mid>, ids: seq<Mid>, offset: nat, removed: int, live: set<Mid>)
    requires Underway(before, ids, offset, removed, live) && offset >= |ids|
    ensures Thinned(before, ids, removed, live)
  {
    assert Take(ids, offset) == ids;
  }

  /** A thinned set has lost at least half of its dead ids, and if nothing was removed then
      every id belongs to an existing message. */
  lemma ThinnedHalvesTheDead(before: seq<Mid>, after: seq<Mid>, removed: int, live: set<Mid>)
    requires Thinned(before, after, removed, live)
    ensures removed == Dead(before, live) - Dead(after, live)
    ensures 2 * Dead(after, live) <= Dead(before, live)
    ensures removed == 0 ==> after == before && forall m | m in before :: m in live
  {
    if removed == 0 {
      NoneDead(before, live);
      NoneDead(after, live);
      NoneDeadIff(before, live);
    }
  }

  function Power2(n: nat): nat {
    if n == 0 then 1 else 2 * Power2(n - 1)
  }

  /** The i-th set of the sequence becomes the next one in one pass. */
  predicate PassAt(sets: seq<seq<Mid>>, i: nat, live: set<Mid>)
    requires i + 1 < |sets|
  {
    Thinned(sets[i], sets[i + 1], |sets[i]| - |sets[i + 1]|, live)
  }

  /** With no further expiry, n passes remove everything dead when fewer than 2^n ids are. */
  lemma {:induction false} PassesConverge(sets: seq<seq<Mid>>, live: set<Mid>, i: nat)
    requires forall j | 0 <= j < |sets| - 1 :: PassAt(sets, j, live)
    requires i < |sets| && Dead(sets[0], live) < Power2(|sets| - 1)
    ensures Remaining(sets[i], live) == Remaining(sets[0], live)
    ensures Dead(sets[i], live) < Power2(|sets| - 1 - i)
    ensures i == |sets| - 1 ==> sets[i] == Remaining(sets[0], live)
    decreases i
  {
    if i > 0 {
      PassesConverge(sets, live, i - 1);
      assert PassAt(sets, i - 1, live);
      ThinnedHalvesTheDead(sets[i - 1], sets[i], |sets[i - 1]| - |sets[i]|, live);
    }
    if i == |sets| - 1 { NoneDead(sets[i], live); }
  }

  /** The factor two is exact: when two batches of ids are dead, the second one slips under
      the offset and survives the pass. */
  lemma HalfCanSurvive(ids: seq<Mid>, batch: nat)
    requires batch > 0 && |ids| == 2 * batch
    ensures Sweep(ids, 0, batch, {}) == ids[batch..] && Page(ids[batch..], batch, batch) == []
    ensures Dead(ids, {}) == 2 * Dead(ids[batch..], {}) == 2 * batch
  {
    assert Drop(ids, 0) == ids && Take(ids, 0) == [] && Drop(ids, batch) == ids[batch..];
    AllDead(Page(ids, 0, batch));
    AllDead(ids);
    AllDead(ids[batch..]);
  }

  lemma AllDead(ids: seq<Mid>)
    ensures Remaining(ids, {}) == []
  {
    var r := Remaining(ids, {});
    if r != [] {
      RemainingExact(ids, |ids|, {}, r[0]);
      assert false;
    }
  }

  // ---- The collector itself ----

  class MessageController {
    var index: seq<Key>                 // MSGSET_INDEX_KEY: one entry per queue
    var msgsets: map<Key, seq<Mid>>
    var claims: map<Key, Claims>
    const live: set<Mid>                // the messages that exist while gc runs
    const clock: Key -> int             // the time at which the claims of a queue are collected

    ghost predicate Valid()
      reads this
    {
      && DistinctKeys(index)
      && (forall k | k in msgsets :: Distinct(msgsets[k]))
    }

    function Ids(key: Key): seq<Mid>
      reads this
    {
      IdsOf(msgsets, key)
    }

    constructor (index: seq<Key>, msgsets: map<Key, seq<Mid>>, claims: map<Key, Claims>,
                 live: set<Mid>, clock: Key -> int)
      requires DistinctKeys(index)
      requires forall k | k in msgsets :: Distinct(msgsets[k])
      ensures Valid() && this.index == index && this.msgsets == msgsets && this.live == live
      ensures this.claims == claims && this.clock == clock
    {
      this.index, this.msgsets, this.live := index, msgsets, live;
      this.claims, this.clock := claims, clock;
    }

    /** `_gc` of the claim controller: `zremrangebyscore` from 0 to the present. */
    method CollectClaims(key: Key)
      modifies this`claims
      ensures CollectedAt(old(claims), claims, key, clock(key))
      ensures forall k | k != key :: ClaimsOf(claims, k) == old(ClaimsOf(claims, k))
    {
      if key in claims {
        claims := claims[key := Unexpired(claims[key], clock(key))];
      }
    }

    /** `zrem` of each dead id of the page read at `offset`, sent as one pipeline. */
    method RemoveDead(key: Key, offset: nat, batch: nat) returns (removed: nat)
      requires Valid() && batch > 0 && offset < |Ids(key)|
      modifies this`msgsets
      ensures Valid()
      ensures Ids(key) == Sweep(old(Ids(key)), offset, batch, live)
      ensures removed == Dead(Page(old(Ids(key)), offset, batch), live)
      ensures forall k | k != key :: Unchanged(old(msgsets), msgsets, k)
    {
      var ids := Ids(key);
      var page := Page(ids, offset, batch);
      ghost var head, tail := Take(ids, offset), Drop(Drop(ids, offset), batch);
      removed := 0;
      SweptEnds(ids, offset, batch, live);
      for i := 0 to |page|
        invariant Distinct(ids) && msgsets == old(msgsets)
        invariant ids == Swept(head, page, i, tail, live)
        invariant removed == Dead(page[..i], live)
      {
        PipelineStep(head, page, i, tail, live);
        if page[i] !in live {
          ids := Zrem(ids, page[i]);
          removed := removed + 1;
        }
      }
      msgsets := msgsets[key := ids];
    }

    /** One round of the inner loop, on the page read at `offset`. */
    method CollectPage(key: Key, offset: nat, batch: nat, ghost was: seq<Mid>, ghost so_far: int)
      returns (n: nat, len: nat)
      requires Valid() && batch > 0 && offset < |Ids(key)|
      requires Underway(was, Ids(key), offset, so_far, live)
      modifies this`msgsets
      ensures Valid()
      ensures Underway(was, IdsOf(msgsets, key), offset + len, so_far + n, live)
      ensures len > 0 && |IdsOf(msgsets, key)| <= |IdsOf(old(msgsets), key)|
      ensures forall k | k != key :: Unchanged(old(msgsets), msgsets, k)
    {
      var ids := Ids(key);
      var page := Page(ids, offset, batch);
      len := |page|;
      ghost var next := Sweep(ids, offset, batch, live);
      RoundKeepsUnderway(was, ids, offset, batch, so_far, live);
      assert Underway(was, next, offset + len, so_far + Dead(page, live), live);
      n := RemoveDead(key, offset, batch);
      assert IdsOf(msgsets, key) == next && n == Dead(page, live);
    }

    /** The inner loop: one pass over the ids of one queue, whatever the batch size. All ids
        with a message stay, in order; of the others at least half are gone. */
    method CollectSet(key: Key, batch: nat) returns (removed: int)
      requires Valid() && batch > 0
      modifies this`msgsets
      ensures Valid()
      ensures Thinned(IdsOf(old(msgsets), key), IdsOf(msgsets, key), removed, live)
      ensures forall k | k != key :: Unchanged(old(msgsets), msgsets, k)
    {
      ghost var was := Ids(key);
      var offset: nat := 0;
      removed := 0;
      PassStarts(was, live);
      while true
        invariant Valid()
        invariant Underway(was, IdsOf(msgsets, key), offset, removed, live)
        invariant forall k | k != key :: Unchanged(old(msgsets), msgsets, k)
        decreases |IdsOf(msgsets, key)| - offset
      {
        PageFits(Ids(key), offset, batch);
        if Page(Ids(key), offset, batch) == [] {
          PassEnds(was, Ids(key), offset, removed, live);
          break;
        }
        ghost var before := msgsets;
        var n, len := CollectPage(key, offset, batch, was, removed);
        forall k | k != key ensures Unchanged(old(msgsets), msgsets, k) {
          assert Unchanged(old(msgsets), before, k) && Unchanged(before, msgsets, k);
        }
        offset, removed := offset + len, removed + n;
      }
    }

    /** The loop over one page of message sets. */
    method CollectKeys(keys: seq<Key>, batch: nat) returns (removed: int)
      requires Valid() && batch > 0 && DistinctKeys(keys)
      modifies this`msgsets, this`claims
      ensures Valid()
      ensures Progress(old(msgsets), msgsets, keys, live, removed)
      ensures ClaimsCollected(old(claims), claims, keys, clock)
    {
      removed := 0;
      for i := 0 to |keys|
        invariant Valid()
        invariant Progress(old(msgsets), msgsets, keys[..i], live, removed)
        invariant ClaimsCollected(old(claims), claims, keys[..i], clock)
      {
        NotYet(keys, i);
        ghost var had := claims;
        CollectClaims(keys[i]);
        CollectedOne(had, claims, keys[i], clock);
        CollectedConcat(old(claims), had, claims, keys[..i], [keys[i]], clock);
        ghost var before := msgsets;
        var n := CollectSet(keys[i], batch);
        ProgressOne(before, msgsets, keys[i], live, n);
        ProgressConcat(old(msgsets), before, msgsets, keys[..i], [keys[i]], live, removed, n);
        removed := removed + n;
      }
      assert keys[..|keys|] == keys;
    }

    /** `gc`: page through the index of message sets and make one pass over each. */
    method Gc(batch: nat) returns (removed: int)
      requires Valid() && batch > 0
      modifies this`msgsets, this`claims
      ensures Valid()
      ensures Progress(old(msgsets), msgsets, index, live, removed)
      ensures ClaimsCollected(old(claims), claims, index, clock)
    {
      removed := 0;
      var offset: nat := 0;
      while true
        invariant offset <= |index| && Valid()
        invariant Progress(old(msgsets), msgsets, index[..offset], live, removed)
        invariant ClaimsCollected(old(claims), claims, index[..offset], clock)
        decreases |index| - offset
      {
        var keys := KeysPage(index, offset, batch);
        NextKeys(index, offset, batch);
        ghost var done, before, had := index[..offset], msgsets, claims;
        if keys == [] {
          assert done == index;
          break;
        }
        var n := CollectKeys(keys, batch);
        CollectedConcat(old(claims), had, claims, done, keys, clock);
        ProgressConcat(old(msgsets), before, msgsets, done, keys, live, removed, n);
        offset, removed := offset + |keys|, removed + n;
        assert index[..offset] == done + keys;
      }
    }
  }

  function ClaimsOf(claims: map<Key, Claims>, key: Key): Claims {
    if key in claims then claims[key] else map[]
  }

  /** The claims that have not expired. */
  function Unexpired(claims: Claims, now: int): Claims {
    map c | c in claims && !(0 <= claims[c] <= now) :: claims[c]
  }

  /** Of the queue's claims, exactly those that expire after `now` are left, as they were. */
  ghost predicate CollectedAt(before: map<Key, Claims>, after: map<Key, Claims>, key: Key, now: int) {
    var had, has := ClaimsOf(before, key), ClaimsOf(after, key);
    && (forall c :: c in has <==> c in had && !(0 <= had[c] <= now))
    && (forall c | c in has :: c in had && has[c] == had[c])
  }

  predicate KeptAt(before: map<Key, Claims>, after: map<Key, Claims>, key: Key) {
    ClaimsOf(after, key) == ClaimsOf(before, key)
  }

  /** Exactly the expired claims of the given queues are gone. */
  ghost predicate ClaimsCollected(before: map<Key, Claims>, after: map<Key, Claims>, keys: seq<Key>,
                                  clock: Key -> int)
  {
    && (forall k | k in keys :: CollectedAt(before, after, k, clock(k)))
    && (forall k | k !in keys :: KeptAt(before, after, k))
  }

  lemma CollectedOne(before: map<Key, Claims>, after: map<Key, Claims>, key: Key, clock: Key -> int)
    requires CollectedAt(before, after, key, clock(key))
    requires forall k | k != key :: ClaimsOf(after, k) == ClaimsOf(before, k)
    ensures ClaimsCollected(before, after, [key], clock)
  {
  }

  lemma CollectedConcat(was: map<Key, Claims>, before: map<Key, Claims>, after: map<Key, Claims>,
                        done: seq<Key>, keys: seq<Key>, clock: Key -> int)
    requires forall k | k in keys :: k !in done
    requires ClaimsCollected(was, before, done, clock) && ClaimsCollected(before, after, keys, clock)
    ensures ClaimsCollected(was, after, done + keys, clock)
  {
    forall k | k in done + keys ensures CollectedAt(was, after, k, clock(k)) {
      if k in done {
        assert CollectedAt(was, before, k, clock(k)) && KeptAt(before, after, k);
      } else {
        assert KeptAt(was, before, k) && CollectedAt(before, after, k, clock(k));
      }
    }
    forall k | k !in done + keys ensures KeptAt(was, after, k) {
      assert KeptAt(was, before, k) && KeptAt(before, after, k);
    }
  }

  /** The set under a key; Redis treats a missing key as an empty set. */
  function IdsOf(msgsets: map<Key, seq<Mid>>, key: Key): seq<Mid> {
    if key in msgsets then msgsets[key] else []
  }

  /** The set under the key went through one pass. */
  predicate Passed(before: map<Key, seq<Mid>>, after: map<Key, seq<Mid>>, key: Key, live: set<Mid>) {
    Thinned(IdsOf(before, key), IdsOf(after, key), |IdsOf(before, key)| - |IdsOf(after, key)|, live)
  }

  predicate Unchanged(before: map<Key, seq<Mid>>, after: map<Key, seq<Mid>>, key: Key) {
    IdsOf(after, key) == IdsOf(before, key)
  }

  /** The number of ids in the first n sets. */
  function Size(keys: seq<Key>, n: nat, msgsets: map<Key, seq<Mid>>): nat
    requires n <= |keys|
  {
    if n == 0 then 0 else Size(keys, n - 1, msgsets) + |IdsOf(msgsets, keys[n - 1])|
  }

  /** One pass was made over each of the given sets and over no other, and `removed` ids went. */
  ghost predicate Progress(before: map<Key, seq<Mid>>, after: map<Key, seq<Mid>>, keys: seq<Key>,
                           live: set<Mid>, removed: int)
  {
    && (forall k | k in keys :: Passed(before, after, k, live))
    && (forall k | k !in keys :: Unchanged(before, after, k))
    && removed == Size(keys, |keys|, before) - Size(keys, |keys|, after)
  }

  lemma {:induction false} SizeStable(keys: seq<Key>, n: nat, a: map<Key, seq<Mid>>, b: map<Key, seq<Mid>>)
    requires n <= |keys| && forall i | 0 <= i < n :: Unchanged(a, b, keys[i])
    ensures Size(keys, n, a) == Size(keys, n, b)
    decreases n
  {
    if n > 0 {
      SizeStable(keys, n - 1, a, b);
      assert Unchanged(a, b, keys[n - 1]);
    }
  }

  lemma {:induction false} SizeConcat(a: seq<Key>, b: seq<Key>, n: nat, msgsets: map<Key, seq<Mid>>)
    requires n <= |b|
    ensures Size(a + b, |a| + n, msgsets) == Size(a, |a|, msgsets) + Size(b, n, msgsets)
    decreases n
  {
    if n == 0 {
      SizePrefix(a, b, |a|, msgsets);
    } else {
      SizeConcat(a, b, n - 1, msgsets);
      assert (a + b)[|a| + n - 1] == b[n - 1];
    }
  }

  lemma {:induction false} SizePrefix(a: seq<Key>, b: seq<Key>, n: nat, msgsets: map<Key, seq<Mid>>)
    requires n <= |a|
    ensures Size(a + b, n, msgsets) == Size(a, n, msgsets)
    decreases n
  {
    if n > 0 { SizePrefix(a, b, n - 1, msgsets); }
  }

  lemma ProgressOne(before: map<Key, seq<Mid>>, after: map<Key, seq<Mid>>, key: Key, live: set<Mid>, n: int)
    requires Thinned(IdsOf(before, key), IdsOf(after, key), n, live)
    requires forall k | k != key :: Unchanged(before, after, k)
    ensures Progress(before, after, [key], live, n)
  {
    assert Size([key], 0, before) == 0 && Size([key], 0, after) == 0;
  }

  lemma PassedOnce(was: map<Key, seq<Mid>>, before: map<Key, seq<Mid>>, after: map<Key, seq<Mid>>, key: Key,
                   live: set<Mid>)
    requires || (Passed(was, before, key, live) && Unchanged(before, after, key))
             || (Unchanged(was, before, key) && Passed(before, after, key, live))
    ensures Passed(was, after, key, live)
  {
  }

  /** Sizes add up over two groups of keys, of which one may be counted in another state. */
  lemma SizesBefore(was: map<Key, seq<Mid>>, before: map<Key, seq<Mid>>, done: seq<Key>, keys: seq<Key>)
    requires forall i | 0 <= i < |keys| :: Unchanged(was, before, keys[i])
    ensures Size(done + keys, |done| + |keys|, was) == Size(done, |done|, was) + Size(keys, |keys|, before)
  {
    SizeConcat(done, keys, |keys|, was);
    SizeStable(keys, |keys|, was, before);
  }

  lemma SizesAfter(before: map<Key, seq<Mid>>, after: map<Key, seq<Mid>>, done: seq<Key>, keys: seq<Key>)
    requires forall i | 0 <= i < |done| :: Unchanged(before, after, done[i])
    ensures Size(done + keys, |done| + |keys|, after) == Size(done, |done|, before) + Size(keys, |keys|, after)
  {
    SizeConcat(done, keys, |keys|, after);
    SizeStable(done, |done|, before, after);
  }

  lemma ProgressConcat(was: map<Key, seq<Mid>>, before: map<Key, seq<Mid>>, after: map<Key, seq<Mid>>,
                       done: seq<Key>, keys: seq<Key>, live: set<Mid>, removed: int, n: int)
    requires forall k | k in keys :: k !in done
    requires Progress(was, before, done, live, removed) && Progress(before, after, keys, live, n)
    ensures Progress(was, after, done + keys, live, removed + n)
  {
    SizesBefore(was, before, done, keys);
    SizesAfter(before, after, done, keys);
    forall k | k in done + keys ensures Passed(was, after, k, live) {
      assert k in done ==> Passed(was, before, k, live) && Unchanged(before, after, k);
      assert k !in done ==> Unchanged(was, before, k) && Passed(before, after, k, live);
      PassedOnce(was, before, after, k, live);
    }
    forall k | k !in done + keys ensures Unchanged(was, after, k) {
      assert Unchanged(was, before, k) && Unchanged(before, after, k);
    }
  }

  /** The set while the pipeline has worked off the first i ids of the page. */
  ghost function Swept(head: seq<Mid>, page: seq<Mid>, i: nat, tail: seq<Mid>, live: set<Mid>): seq<Mid>
    requires i <= |page|
  {
    head + Remaining(page[..i], live) + (page[i..] + tail)
  }

  lemma SweptEnds(ids: seq<Mid>, offset: nat, batch: nat, live: set<Mid>)
    requires batch > 0 && offset < |ids|
    ensures var head, page, tail := Take(ids, offset), Page(ids, offset, batch), Drop(Drop(ids, offset), batch);
            && Swept(head, page, 0, tail, live) == ids
            && Swept(head, page, |page|, tail, live) == Sweep(ids, offset, batch, live)
            && Dead(page[..0], live) == 0 && page[..|page|] == page
  {
    var head, page, tail := Take(ids, offset), Page(ids, offset, batch), Drop(Drop(ids, offset), batch);
    TakeDrop(ids, offset);
    TakeDrop(Drop(ids, offset), batch);
    assert page[..0] == [] && page[0..] == page && page[|page|..] == [] && page[..|page|] == page;
    assert head + [] + (page + tail) == ids;
    assert head + Remaining(page, live) + ([] + tail) == head + (Remaining(page, live) + tail);
  }

  lemma RemainingSnoc(page: seq<Mid>, i: nat, live: set<Mid>)
    requires i < |page|
    ensures Remaining(page[..i + 1], live) == Remaining(page[..i], live) + (if page[i] in live then [page[i]] else [])
    ensures Dead(page[..i + 1], live) == Dead(page[..i], live) + (if page[i] in live then 0 else 1)
  {
    assert page[..i + 1] == page[..i] + [page[i]];
    RemainingConcat(page[..i], [page[i]], live);
    RemainingOne(page[i], live);
  }

  /** One id of the page is kept or removed. */
  lemma SweptStep(head: seq<Mid>, kept: seq<Mid>, page: seq<Mid>, i: nat, tail: seq<Mid>)
    requires i < |page| && Distinct(head + kept + (page[i..] + tail))
    ensures var before := head + kept + (page[i..] + tail);
            var after := page[i + 1..] + tail;
            && before == head + (kept + [page[i]]) + after
            && Zrem(before, page[i]) == head + kept + after && Distinct(head + kept + after)
  {
    var m, left, right := page[i], head + kept, page[i + 1..] + tail;
    assert page[i..] == [m] + page[i + 1..];
    assert head + kept + (page[i..] + tail) == left + ([m] + right);
    DistinctMiddle(left, m, right);
    ZremMiddle(left, m, right);
  }

  lemma PipelineStep(head: seq<Mid>, page: seq<Mid>, i: nat, tail: seq<Mid>, live: set<Mid>)
    requires i < |page| && Distinct(Swept(head, page, i, tail, live))
    ensures var before, next := Swept(head, page, i, tail, live), Swept(head, page, i + 1, tail, live);
            && Distinct(next)
            && next == (if page[i] in live then before else Zrem(before, page[i]))
    ensures Dead(page[..i + 1], live) == Dead(page[..i], live) + (if page[i] in live then 0 else 1)
  {
    RemainingSnoc(page, i, live);
    var kept := Remaining(page[..i], live);
    SweptStep(head, kept, page, i, tail);
    assert kept + [] == kept;
  }

  /** Removing one member of a sorted set by value. */
  function Zrem(ids: seq<Mid>, m: Mid): seq<Mid> {
    if ids == [] then [] else if ids[0] == m then ids[1..] else [ids[0]] + Zrem(ids[1..], m)
  }

  lemma {:induction false} ZremMiddle(a: seq<Mid>, m: Mid, b: seq<Mid>)
    requires m !in a
    ensures Zrem(a + ([m] + b), m) == a + b
    decreases |a|
  {
    var all := a + ([m] + b);
    if a == [] {
      assert all[1..] == b && a + b == b;
    } else {
      assert all[0] == a[0] && all[1..] == a[1..] + ([m] + b);
      ZremMiddle(a[1..], m, b);
      assert a + b == [a[0]] + (a[1..] + b);
    }
  }

  lemma DistinctMiddle(a: seq<Mid>, m: Mid, b: seq<Mid>)
    requires Distinct(a + ([m] + b))
    ensures m !in a && Distinct(a + b)
  {
    var all := a + ([m] + b);
    assert all[|a|] == m;
    forall i | 0 <= i < |a| ensures a[i] != m {
      assert Differ(all, i, |a|);
    }
    forall i, j | 0 <= i < j < |a + b| ensures Differ(a + b, i, j) {
      var x, y := if i < |a| then i else i + 1, if j < |a| then j else j + 1;
      assert Differ(all, x, y);
      assert (a + b)[i] == all[x] && (a + b)[j] == all[y];
    }
  }
}
