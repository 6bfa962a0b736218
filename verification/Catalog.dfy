/**
 The pooling catalogue: which pool a queue lives in, behind a cache. Calls run
 one after the other; cache entries may expire or be evicted between any two.
 */
module Catalog {
  import opened Wrappers
  import opened Weighted

  type Project = Option<string>

  // ---- Cache keys ----

  const POOL_CACHE_PREFIX: string := "pooling:"

  /** Python's `str(project)`. */
  function Str(project: Project): string {
    if project.None? then "None" else project.value
  }

  function PoolCacheKey(queue: string, project: Project): string {
    POOL_CACHE_PREFIX + Str(project) + "/" + queue
  }

  predicate SlashFree(queue: string) {
    '/' !in queue
  }

  /** The names for which cache keys never collide. */
  predicate Proper(queue: string, project: Project) {
    SlashFree(queue) && project != Some("None")
  }

  lemma {:induction false} LastSlash(a: string, b: string, x: string, y: string)
    requires a + "/" + x == b + "/" + y && SlashFree(x) && SlashFree(y)
    ensures a == b && x == y
  {
    var s := a + "/" + x;
    assert s[|a|] == '/' && s[|b|] == '/';
    assert |a| == |b|;
    assert s[..|a|] == a && s[..|b|] == b && s[|a| + 1..] == x && s[|b| + 1..] == y;
  }

  /** Cache keys of slash-free queue names collide exactly for the same queue under
      projects that print alike, that is None and the literal project "None". */
  lemma KeysCollideIff(q1: string, p1: Project, q2: string, p2: Project)
    requires SlashFree(q1) && SlashFree(q2)
    ensures PoolCacheKey(q1, p1) == PoolCacheKey(q2, p2) <==>
              q1 == q2 && (p1 == p2 || (p1 in {None, Some("None")} && p2 in {None, Some("None")}))
  {
    if PoolCacheKey(q1, p1) == PoolCacheKey(q2, p2) {
      LastSlash(POOL_CACHE_PREFIX + Str(p1), POOL_CACHE_PREFIX + Str(p2), q1, q2);
      assert (POOL_CACHE_PREFIX + Str(p1))[|POOL_CACHE_PREFIX|..] == Str(p1);
      assert (POOL_CACHE_PREFIX + Str(p2))[|POOL_CACHE_PREFIX|..] == Str(p2);
    }
  }

  /** For any names at all: keys of two queues collide exactly when the longer name ends in
      the shorter one, and what comes before it moves over to the project. */
  lemma LongKeysCollideIff(q1: string, p1: Project, q2: string, p2: Project)
    requires |q1| > |q2|
    ensures PoolCacheKey(q1, p1) == PoolCacheKey(q2, p2) <==>
              exists x: string :: q1 == x + "/" + q2 && Str(p2) == Str(p1) + "/" + x
  {
    if PoolCacheKey(q1, p1) == PoolCacheKey(q2, p2) {
      Overlap(POOL_CACHE_PREFIX + Str(p1), q1, POOL_CACHE_PREFIX + Str(p2), q2);
      var x := q1[..|q1| - |q2| - 1];
      assert Str(p2) == (POOL_CACHE_PREFIX + Str(p2))[|POOL_CACHE_PREFIX|..];
      assert POOL_CACHE_PREFIX + Str(p1) + "/" + x == POOL_CACHE_PREFIX + (Str(p1) + "/" + x);
      assert Str(p2) == Str(p1) + "/" + x;
    }
    forall x: string | q1 == x + "/" + q2 && Str(p2) == Str(p1) + "/" + x
      ensures PoolCacheKey(q1, p1) == PoolCacheKey(q2, p2)
    {
      SlashesCollide(x, q2, p1, p2);
    }
  }

  lemma Overlap(a: string, x: string, b: string, y: string)
    requires a + "/" + x == b + "/" + y && |x| > |y|
    ensures var front := x[..|x| - |y| - 1]; x == front + "/" + y && b == a + "/" + front
  {
    var s := a + "/" + x;
    var front := x[..|x| - |y| - 1];
    assert x == s[|a| + 1..] && y == s[|b| + 1..] && s[|b|] == '/';
    assert x[|front|..] == s[|b|..] == "/" + y;
    assert b == s[..|b|] == a + "/" + front;
  }

  /** Equally long names collide only if they are equal, under projects that print alike. */
  lemma EqualLengthKeysCollideIff(q1: string, p1: Project, q2: string, p2: Project)
    requires |q1| == |q2|
    ensures PoolCacheKey(q1, p1) == PoolCacheKey(q2, p2) <==> q1 == q2 && Str(p1) == Str(p2)
  {
    var s1, s2 := PoolCacheKey(q1, p1), PoolCacheKey(q2, p2);
    if s1 == s2 {
      var n := |s1| - |q1|;
      assert s1[n..] == q1 && s2[n..] == q2;
      assert s1[|POOL_CACHE_PREFIX|..n - 1] == Str(p1) && s2[|POOL_CACHE_PREFIX|..n - 1] == Str(p2);
    }
  }

  /** A slash can always move between the queue's name and the project's. */
  lemma SlashesCollide(x: string, y: string, p1: Project, p2: Project)
    requires Str(p2) == Str(p1) + "/" + x
    ensures PoolCacheKey(x + "/" + y, p1) == PoolCacheKey(y, p2)
  {
    var a := POOL_CACHE_PREFIX + Str(p1) + "/";
    assert a + (x + "/" + y) == (a + x) + "/" + y;
    assert a + x == POOL_CACHE_PREFIX + Str(p2);
  }

  // ---- The catalogue ----

  datatype Pool = Pool(name: string, weight: int, group: Option<string>)

  datatype PoolId = QueueNotMapped | Mapped(pool: Option<string>)

  /** What a lookup ends in. */
  datatype Route =
    | Routed(pool: string)             // the driver of that pool
    | PoolDoesNotExist(pool: string)   // the pool was deleted before a driver for it was built
    | VirtualPool                      // the driver of the default message store
    | NoDriver                         // lookup returned None
    | BrokenEntry                      // a catalogue entry without a pool has no driver

  /** What registering ends in; the last stands for an error raised by the lookup inside. */
  datatype Registration = Ok | FlavorDoesNotExist | NoPoolFound | LookupFailed

  type Entry = (Project, string)

  datatype Op =
    | Register(queue: string, project: Project, flavor: Option<string>)
    | Deregister(queue: string, project: Project)
    | LookUp(queue: string, project: Project)
    | SetPools(pools: seq<Pool>)                         // pools are added, removed or reweighted
    | SetFlavors(flavors: map<string, Option<string>>)
    | Expire(keys: set<string>)                          // cache entries expire or are evicted

  function KeyOf(e: Entry): string {
    PoolCacheKey(e.1, e.0)
  }

  /** The value under the key is that of some catalogued queue with this key. */
  ghost predicate Cached(catalogue: map<Entry, Option<string>>, key: string, value: Option<string>) {
    exists e: Entry | e in catalogue :: KeyOf(e) == key && catalogue[e] == value
  }

  /** No other catalogued queue has the cache key of this one. */
  ghost predicate Alone(catalogue: map<Entry, Option<string>>, e: Entry) {
    forall f: Entry | f in catalogue && KeyOf(f) == KeyOf(e) :: f == e
  }

  /** Queues with proper names are alone among queues with proper names. */
  lemma ProperIsAlone(catalogue: map<Entry, Option<string>>, e: Entry)
    requires Proper(e.1, e.0) && forall f: Entry | f in catalogue :: Proper(f.1, f.0)
    ensures Alone(catalogue, e)
  {
    forall f: Entry | f in catalogue && KeyOf(f) == KeyOf(e) ensures f == e {
      KeysCollideIff(f.1, f.0, e.1, e.0);
    }
  }

  /** No queue other than e is registered under the cache key of e. */
  predicate NoCollider(ops: seq<Op>, e: Entry) {
    forall i | 0 <= i < |ops| && ops[i].Register? :: RegistersApart(ops[i], e)
  }

  predicate RegistersApart(op: Op, e: Entry)
    requires op.Register?
  {
    PoolCacheKey(op.queue, op.project) == KeyOf(e) ==> (op.project, op.queue) == e
  }

  /** The contract of `random.randint`. */
  ghost predicate Ranged(generator: (int, int) -> int) {
    forall lo, hi | lo <= hi :: lo <= generator(lo, hi) <= hi
  }

  predicate Named(pools: seq<Pool>, name: string) {
    exists pool | pool in pools :: pool.name == name
  }

  /** A pool the weighted selection may choose for a group. */
  predicate Eligible(pool: Pool, group: Option<string>) {
    pool.group == group && pool.weight > 0
  }

  /** The pools of a group among the first n. */
  function Members(pools: seq<Pool>, n: nat, group: Option<string>): (members: seq<Pool>)
    requires n <= |pools|
    ensures forall m :: m in members <==> m in pools[..n] && m.group == group
  {
    if n == 0 then []
    else
      assert pools[..n] == pools[..n - 1] + [pools[n - 1]];
      Members(pools, n - 1, group) + (if pools[n - 1].group == group then [pools[n - 1]] else [])
  }

  function Weights(members: seq<Pool>): (weights: seq<int>)
    ensures |weights| == |members| && forall i | 0 <= i < |members| :: weights[i] == members[i].weight
  {
    seq(|members|, i requires 0 <= i < |members| => members[i].weight)
  }

  /** The name is that of an eligible pool, the one whose interval the draw falls in. */
  ghost predicate Drawn(pools: seq<Pool>, group: Option<string>, generator: (int, int) -> int, name: string) {
    var members := Members(pools, |pools|, group);
    var weights := Weights(members);
    exists i | 0 <= i < |members| ::
      && members[i] in pools && Eligible(members[i], group) && members[i].name == name
      && Owns(weights, i, generator(0, Total(weights) - 1))
  }

  ghost predicate HasEligible(pools: seq<Pool>, group: Option<string>) {
    exists pool | pool in pools :: Eligible(pool, group)
  }

  lemma NoneEligible(pools: seq<Pool>, group: Option<string>, members: seq<Pool>)
    requires members == Members(pools, |pools|, group)
    requires forall i | 0 <= i < |Weights(members)| :: Weights(members)[i] <= 0
    ensures !HasEligible(pools, group)
  {
    assert pools[..|pools|] == pools;
    forall pool | pool in pools ensures !Eligible(pool, group) {
      if pool.group == group {
        assert pool in members;
        var i :| 0 <= i < |members| && members[i] == pool;
        assert Weights(members)[i] == pool.weight;
      }
    }
  }

  /** What the weighted selection makes of the pools of a group. */
  ghost predicate Choice(pools: seq<Pool>, group: Option<string>, generator: (int, int) -> int, name: Option<string>) {
    && (name.Some? <==> HasEligible(pools, group))
    && (name.Some? ==> Drawn(pools, group, generator, name.value))
  }

  class Catalog {
    const virtualPool: bool                       // enable_virtual_pool, with a usable store
    const generator: (int, int) -> int
    var pools: seq<Pool>
    var flavors: map<string, Option<string>>      // flavor name to pool group
    var catalogue: map<Entry, Option<string>>
    var cache: map<string, Option<string>>
    var drivers: set<Option<string>>              // pools whose driver is already built

    /** Every cached pool id is that of a catalogued queue with its key. */
    ghost predicate Valid()
      reads this
    {
      Ranged(generator) && forall key | key in cache :: Cached(catalogue, key, cache[key])
    }

    constructor (virtualPool: bool, generator: (int, int) -> int)
      requires Ranged(generator)
      ensures Valid() && catalogue == map[] && pools == []
      ensures this.virtualPool == virtualPool && this.generator == generator
    {
      this.virtualPool, this.generator := virtualPool, generator;
      pools, flavors, catalogue, cache, drivers := [], map[], map[], map[], {};
    }

    /** `_pool_id` under the caching decorator. The answer is that of a queue with the same
        key; for a queue alone with its key it does not depend on the cache. */
    method GetPoolId(queue: string, project: Project) returns (r: PoolId)
      requires Valid()
      modifies this`cache
      ensures Valid()
      ensures var e := (project, queue);
              var own := if e in catalogue then Mapped(catalogue[e]) else QueueNotMapped;
              && r == (if KeyOf(e) in old(cache) then Mapped(old(cache)[KeyOf(e)]) else own)
              && cache == (if r.Mapped? then old(cache)[KeyOf(e) := r.pool] else old(cache))
              && (r.Mapped? ==> Cached(catalogue, KeyOf(e), r.pool))
              && (Alone(catalogue, e) ==> r == own)
    {
      var key := PoolCacheKey(queue, project);
      if key in cache {
        assert cache == cache[key := cache[key]];
        return Mapped(cache[key]);
      }
      if (project, queue) !in catalogue {
        return QueueNotMapped;
      }
      var value := catalogue[(project, queue)];
      assert KeyOf((project, queue)) == key;
      cache := cache[key := value];
      r := Mapped(value);
    }

    /** Two catalogued queues with one key and different pools: once the cache has answered
        for f, it gives the pool of f to e. */
    method CollisionMisroutes(e: Entry, f: Entry) returns (r: PoolId)
      requires Valid() && e in catalogue && f in catalogue && KeyOf(e) == KeyOf(f)
      requires catalogue[e] != catalogue[f]
      modifies this`cache
      ensures Valid()
      ensures r == Mapped(catalogue[f]) && r != Mapped(catalogue[e])
    {
      cache := cache - {KeyOf(f)};
      var _ := GetPoolId(f.1, f.0);
      r := GetPoolId(e.1, e.0);
    }

    /** `get_driver`. Drivers are built once per pool and kept. */
    method GetDriver(pool: Option<string>) returns (r: Route)
      modifies this`drivers
      ensures Leads(pools, old(drivers), pool, r)
      ensures drivers == if r.Routed? then old(drivers) + {pool} else old(drivers)
    {
      if pool in drivers {
        return if pool.Some? then Routed(pool.value) else VirtualPool;
      }
      if pool.None? {
        return BrokenEntry;
      }
      if Named(pools, pool.value) {
        drivers := drivers + {pool};
        return Routed(pool.value);
      }
      r := PoolDoesNotExist(pool.value);
    }

    /** `lookup`, with `get_default_pool(use_listing=False)` for unmapped queues. */
    method Lookup(queue: string, project: Project) returns (r: Route)
      requires Valid()
      modifies this`cache, this`drivers
      ensures Valid()
      ensures var e := (project, queue);
              && SharesRoute(catalogue, e, pools, old(drivers), virtualPool, r)
              && (Alone(catalogue, e) && e in catalogue ==> Leads(pools, old(drivers), catalogue[e], r))
              && (Alone(catalogue, e) && e !in catalogue ==> r == if virtualPool then VirtualPool else NoDriver)
      ensures Moves(LookUp(queue, project), World(pools, old(drivers)), World(pools, drivers))
      ensures drivers == old(drivers) + Built(r)
    {
      var id := GetPoolId(queue, project);
      if id.Mapped? {
        r := GetDriver(id.pool);
      } else if virtualPool {
        drivers := drivers + {None};
        r := VirtualPool;
      } else {
        r := NoDriver;
      }
    }

    /** `select.weighted` over the pools of a group; the name of the winner. */
    method ChoosePool(group: Option<string>) returns (name: Option<string>)
      requires Valid()
      ensures Choice(pools, group, generator, name)
    {
      var members: seq<Pool> := [];
      for i := 0 to |pools|
        invariant members == Members(pools, i, group)
      {
        if pools[i].group == group {
          members := members + [pools[i]];
        }
      }
      assert pools[..|pools|] == pools;
      var weights := Weights(members);
      TotalPositiveIff(weights);
      var chosen := Weighted.Select(weights, generator);
      if chosen.None? {
        NoneEligible(pools, group, members);
        return None;
      }
      assert members[chosen.value] in members;
      assert Eligible(members[chosen.value], group);
      name := Some(members[chosen.value].name);
    }

    /** `register`: assigns a pool once; an entry that exists is left alone. */
    method RegisterQueue(queue: string, project: Project, flavor: Option<string>) returns (r: Registration)
      requires Valid()
      modifies this`catalogue, this`cache, this`drivers
      ensures Valid()
      ensures (project, queue) in old(catalogue) ==> r == Ok && catalogue == old(catalogue)
      ensures (project, queue) !in old(catalogue) && flavor.Some? && flavor.value !in flavors ==>
                r == FlavorDoesNotExist && catalogue == old(catalogue)
      ensures (project, queue) !in old(catalogue) && (flavor.Some? ==> flavor.value in flavors) ==>
                var e := (project, queue);
                var group := if flavor.None? then None else flavors[flavor.value];
                if flavor.None? && !HasEligible(pools, group) then
                  && catalogue == old(catalogue)
                  && (Alone(catalogue, e) ==> r == if virtualPool then Ok else NoPoolFound)
                  && (exists route :: SharesRoute(catalogue, e, pools, old(drivers), virtualPool, route)
                                      && r == Verdict(route))
                else
                  && r == Ok && e in catalogue && catalogue == old(catalogue)[e := catalogue[e]]
                  && Choice(pools, group, generator, catalogue[e])
      ensures Moves(Register(queue, project, flavor), World(pools, old(drivers)), World(pools, drivers))
    {
      if (project, queue) in catalogue {
        return Ok;
      }
      var pool: Option<string>;
      if flavor.Some? {
        if flavor.value !in flavors {
          return FlavorDoesNotExist;
        }
        pool := ChoosePool(flavors[flavor.value]);
      } else {
        pool := ChoosePool(None);
        if pool.None? {
          var route := Lookup(queue, project);
          match route
          case NoDriver => return NoPoolFound;
          case PoolDoesNotExist(_) => return LookupFailed;
          case BrokenEntry => return LookupFailed;
          case _ => return Ok;
        }
      }
      EntriesStay(catalogue, (project, queue), pool, cache);
      catalogue := catalogue[(project, queue) := pool];
      r := Ok;
    }

    /** `deregister` under the purging decorator: first the cache, then the catalogue. */
    method DeregisterQueue(queue: string, project: Project)
      requires Valid()
      modifies this`catalogue, this`cache
      ensures Valid()
      ensures catalogue == old(catalogue) - {(project, queue)}
      ensures cache == old(cache) - {PoolCacheKey(queue, project)}
    {
      var key := PoolCacheKey(queue, project);
      cache := cache - {key};
      EntriesLeave(catalogue, (project, queue), cache);
      catalogue := catalogue - {(project, queue)};
    }

    /** One call, or one change of the world around the catalogue. */
    method Perform(op: Op) returns (r: Option<Route>)
      requires Valid()
      modifies this
      ensures Valid()
      ensures op.LookUp? <==> r.Some?
      ensures forall e: Entry | e in old(catalogue) && op != Deregister(e.1, e.0) ::
                e in catalogue && catalogue[e] == old(catalogue[e])
      ensures forall e: Entry | e in catalogue && e !in old(catalogue) :: op.Register? && e == (op.project, op.queue)
      ensures op.LookUp? && (op.project, op.queue) in old(catalogue)
              && Alone(old(catalogue), (op.project, op.queue)) ==>
                Leads(old(pools), old(drivers), old(catalogue[(op.project, op.queue)]), r.value)
      ensures op.Deregister? ==> (op.project, op.queue) !in catalogue
      ensures Moves(op, World(old(pools), old(drivers)), World(pools, drivers))
      ensures r.Some? ==> drivers == old(drivers) + Built(r.value)
      ensures flavors == if op.SetFlavors? then op.flavors else old(flavors)
      ensures op.Expire? ==> cache == old(cache) - op.keys
    {
      r := None;
      match op
      case Register(q, p, f) =>
        var _ := RegisterQueue(q, p, f);
      case Deregister(q, p) =>
        DeregisterQueue(q, p);
      case LookUp(q, p) =>
        var route := Lookup(q, p);
        r := Some(route);
      case SetPools(ps) =>
        pools := ps;
      case SetFlavors(fs) =>
        flavors := fs;
      case Expire(keys) =>
        cache := cache - keys;
    }

    /**
     A whole run of calls, with queues of any names. A queue that is catalogued
     keeps its pool until it is deregistered, whatever is registered, reweighted,
     removed or evicted in the meantime; and as long as no other queue has its
     cache key, every lookup of it leads to that pool.
     */
    method Run(ops: seq<Op>, queue: string, project: Project)
      returns (routes: seq<Option<Route>>, ghost worlds: seq<World>)
      requires Valid() && (project, queue) in catalogue
      requires forall i | 0 <= i < |ops| :: ops[i] != Deregister(queue, project)
      modifies this
      ensures Valid()
      ensures (project, queue) in catalogue && catalogue[(project, queue)] == old(catalogue[(project, queue)])
      ensures |routes| == |ops| && |worlds| == |ops| + 1
      ensures worlds[0] == World(old(pools), old(drivers)) && worlds[|ops|] == World(pools, drivers)
      ensures forall i | 0 <= i < |ops| :: Moves(ops[i], worlds[i], worlds[i + 1])
      ensures Alone(old(catalogue), (project, queue)) && NoCollider(ops, (project, queue)) ==>
                forall i | 0 <= i < |ops| && ops[i] == LookUp(queue, project) ::
                  && routes[i].Some?
                  && Leads(worlds[i].pools, worlds[i].drivers, old(catalogue[(project, queue)]), routes[i].value)
    {
      ghost var e := (project, queue);
      ghost var apart := Alone(catalogue, e) && NoCollider(ops, e);
      routes, worlds := [], [World(pools, drivers)];
      for i := 0 to |ops|
        invariant Valid() && |routes| == i && |worlds| == i + 1
        invariant worlds[0] == World(old(pools), old(drivers)) && worlds[i] == World(pools, drivers)
        invariant forall j | 0 <= j < i :: Moves(ops[j], worlds[j], worlds[j + 1])
        invariant e in catalogue && catalogue[e] == old(catalogue[e])
        invariant apart ==> Alone(catalogue, e)
        invariant apart ==> forall j | 0 <= j < i && ops[j] == LookUp(queue, project) ::
                    && routes[j].Some?
                    && Leads(worlds[j].pools, worlds[j].drivers, old(catalogue[e]), routes[j].value)
      {
        ghost var before := catalogue;
        var route := Perform(ops[i]);
        routes, worlds := routes + [route], worlds + [World(pools, drivers)];
        if apart {
          forall f: Entry | f in catalogue && KeyOf(f) == KeyOf(e) ensures f == e {
            if f !in before { assert RegistersApart(ops[i], e); }
          }
        }
      }
    }
  }

  /** A new entry leaves all cached values those of catalogued queues. */
  lemma EntriesStay(catalogue: map<Entry, Option<string>>, e: Entry, pool: Option<string>,
                    cache: map<string, Option<string>>)
    requires e !in catalogue && forall key | key in cache :: Cached(catalogue, key, cache[key])
    ensures forall key | key in cache :: Cached(catalogue[e := pool], key, cache[key])
  {
    forall key | key in cache ensures Cached(catalogue[e := pool], key, cache[key]) {
      var f: Entry :| f in catalogue && KeyOf(f) == key && catalogue[f] == cache[key];
      assert f in catalogue[e := pool];
    }
  }

  /** So does removing an entry whose key is not cached. */
  lemma EntriesLeave(catalogue: map<Entry, Option<string>>, e: Entry, cache: map<string, Option<string>>)
    requires KeyOf(e) !in cache && forall key | key in cache :: Cached(catalogue, key, cache[key])
    ensures forall key | key in cache :: Cached(catalogue - {e}, key, cache[key])
  {
    forall key | key in cache ensures Cached(catalogue - {e}, key, cache[key]) {
      var f: Entry :| f in catalogue && KeyOf(f) == key && catalogue[f] == cache[key];
      assert f in catalogue - {e};
    }
  }

  /** Where an entry leads: to the driver of its pool if there is such a pool or the driver was
      built before, and to no other driver. */
  ghost predicate Leads(pools: seq<Pool>, drivers: set<Option<string>>, pool: Option<string>, r: Route) {
    match pool
    case Some(name) =>
      if Some(name) in drivers || exists p | p in pools :: p.name == name
      then r == Routed(name)
      else r == PoolDoesNotExist(name)
    case None => r == if None in drivers then VirtualPool else BrokenEntry
  }

  /** The default route, or that of a catalogued queue with the key of e. */
  ghost predicate SharesRoute(catalogue: map<Entry, Option<string>>, e: Entry, pools: seq<Pool>,
                              drivers: set<Option<string>>, virtualPool: bool, r: Route)
  {
    || r == (if virtualPool then VirtualPool else NoDriver)
    || exists f: Entry | f in catalogue :: KeyOf(f) == KeyOf(e) && Leads(pools, drivers, catalogue[f], r)
  }

  /** What a registration without a pool makes of the route its lookup finds. */
  function Verdict(route: Route): Registration {
    if route == NoDriver then NoPoolFound
    else if route.PoolDoesNotExist? || route == BrokenEntry then LookupFailed
    else Ok
  }

  /** The driver a route uses, which is there afterwards. */
  function Built(r: Route): set<Option<string>> {
    match r
    case Routed(name) => {Some(name)}
    case VirtualPool => {None}
    case _ => {}
  }

  /** The pools and built drivers at some moment. */
  datatype World = World(pools: seq<Pool>, drivers: set<Option<string>>)

  /** Pools change only when they are set; drivers stay, and a new one belongs to a pool or is
      that of the default store. */
  ghost predicate Moves(op: Op, before: World, after: World) {
    && after.pools == (if op.SetPools? then op.pools else before.pools)
    && before.drivers <= after.drivers
    && forall d | d in after.drivers && d !in before.drivers ::
         d.None? || exists p | p in before.pools :: p.name == d.value
  }
}
