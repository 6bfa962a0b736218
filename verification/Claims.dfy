/**
 Claims as leases on messages. A claim has no document of its own: it lives in
 the `c` field of the messages it holds. Creating, renewing and releasing a
 claim are several database operations each; the steps below interleave any
 number of such calls over one non-decreasing clock.

 Multi-document updates are not isolated, so a step of one may touch any part
 (`hit`) of the documents it matches, and `last` says that the update is over.
 */
module Claims {
  import opened Wrappers

  type Mid = nat      // messages are selected in the order of their markers
  type ClaimId = nat
  type OpId = nat

  /** The fields of a message document that claims use: `c.id`, `c.t`, `c.e` and `e`, `t`. */
  datatype Message = Message(claim: Option<ClaimId>, ttl: int, until: int, expires: int, life: int)

  datatype Stage =
    | Selecting
    | Selected
    | Tagging(now: int)       // the clock was read for the conditional update
    | Checking(now: int)      // the clock was read for the check of a renewal
    | Writing
    | Releasing(now: int)
    | Extending
    | Done

  datatype Kind = Create | Renew | Release

  /** A call in progress. `until` is the claim expiry it computed when it began. */
  datatype Op = Op(kind: Kind, claim: ClaimId, ttl: int, grace: int, until: int,
                   limit: nat, ids: set<Mid>, stage: Stage)

  datatype State = State(clock: int, msgs: map<Mid, Message>, used: set<Mid>, ops: map<OpId, Op>)

  datatype Step =
    | Tick(to: int)
    | Arrive(m: Mid, life: int)                    // a message is posted
    | Remove(m: Mid)                               // a message is deleted or expires
    | BeginCreate(o: OpId, claim: ClaimId, ttl: int, grace: int, limit: nat)
    | Select(o: OpId, ids: set<Mid>, now: int)     // _active
    | ReadClock(o: OpId)
    | Tag(o: OpId, hit: set<Mid>, last: bool)      // update where c.e <= now
    | BeginRenew(o: OpId, claim: ClaimId, ttl: int, grace: int)
    | Check(o: OpId)                               // _claimed with limit=1
    | Write(o: OpId, hit: set<Mid>, last: bool)    // update where c.id == cid
    | Extend(o: OpId, hit: set<Mid>, last: bool)   // update where c.id == cid and e < claim expiry
    | BeginRelease(o: OpId, claim: ClaimId)
    | Unclaim(o: OpId, hit: set<Mid>, last: bool)  // update where c.id == cid

  function Init(clock: int): State {
    State(clock, map[], {}, map[])
  }

  predicate HeldBy(s: State, m: Mid, a: ClaimId) {
    m in s.msgs && s.msgs[m].claim == Some(a)
  }

  /** The messages a claim holds. */
  function Held(s: State, a: ClaimId): set<Mid> {
    set m | m in s.msgs && HeldBy(s, m, a)
  }

  /** The messages that are in no claim, or in an expired one. */
  function Active(s: State, now: int): set<Mid> {
    set m | m in s.msgs && s.msgs[m].until <= now
  }

  /** The first `limit` active messages in marker order (0 stands for no limit). */
  predicate IsSelection(s: State, now: int, limit: nat, ids: set<Mid>) {
    && ids <= Active(s, now)
    && (limit > 0 ==> |ids| <= limit)
    && (forall m | m in Active(s, now) && m !in ids :: limit > 0 && |ids| == limit && forall i | i in ids :: i < m)
  }

  predicate At(s: State, o: OpId, kind: Kind) {
    o in s.ops && s.ops[o].kind == kind
  }

  /** The documents the pending multi-document update of o matches. */
  function Targets(s: State, o: OpId): set<Mid>
    requires o in s.ops
  {
    var op := s.ops[o];
    match op.stage
    case Tagging(now) => op.ids * Active(s, now)
    case Writing => Held(s, op.claim)
    case Releasing(_) => Held(s, op.claim)
    case Extending => set m | m in Held(s, op.claim) && m in s.msgs && s.msgs[m].expires < op.until
    case _ => {}
  }

  predicate Enabled(s: State, step: Step) {
    match step
    case Tick(to) => s.clock <= to
    case Arrive(m, life) => m !in s.used
    case Remove(m) => m in s.msgs
    case BeginCreate(o, claim, ttl, grace, limit) =>
      o !in s.ops && forall q | q in s.ops :: s.ops[q].kind == Create ==> s.ops[q].claim != claim
    case Select(o, ids, now) =>
      At(s, o, Create) && s.ops[o].stage.Selecting? && now <= s.clock && IsSelection(s, now, s.ops[o].limit, ids)
    case ReadClock(o) => At(s, o, Create) && s.ops[o].stage.Selected?
    case Tag(o, hit, last) => At(s, o, Create) && s.ops[o].stage.Tagging? && hit <= Targets(s, o)
    case BeginRenew(o, claim, ttl, grace) => o !in s.ops
    case Check(o) => At(s, o, Renew) && s.ops[o].stage.Checking?
    case Write(o, hit, last) => At(s, o, Renew) && s.ops[o].stage.Writing? && hit <= Targets(s, o)
    case Extend(o, hit, last) => o in s.ops && s.ops[o].stage.Extending? && hit <= Targets(s, o)
    case BeginRelease(o, claim) => o !in s.ops
    case Unclaim(o, hit, last) => At(s, o, Release) && s.ops[o].stage.Releasing? && hit <= Targets(s, o)
  }

  function SetStage(s: State, o: OpId, stage: Stage): State
    requires o in s.ops
  {
    s.(ops := s.ops[o := s.ops[o].(stage := stage)])
  }

  /** `{'$set': {'c': meta}}` on the documents in hit. */
  function Meta(msgs: map<Mid, Message>, hit: set<Mid>, claim: Option<ClaimId>, ttl: int, until: int):
    map<Mid, Message>
  {
    map m | m in msgs :: if m in hit then msgs[m].(claim := claim, ttl := ttl, until := until) else msgs[m]
  }

  /** `{'$set': {'e': ..., 't': ...}}` on the documents in hit. */
  function Prolong(msgs: map<Mid, Message>, hit: set<Mid>, expires: int, life: int): map<Mid, Message> {
    map m | m in msgs :: if m in hit then msgs[m].(expires := expires, life := life) else msgs[m]
  }

  /** The renewal's check: some message of the claim is still claimed at `now`. */
  predicate StillClaimed(s: State, a: ClaimId, now: int) {
    exists m | m in s.msgs :: HeldBy(s, m, a) && s.msgs[m].until > now
  }

  function Next(s: State, step: Step): State
    requires Enabled(s, step)
  {
    match step
    case Tick(to) => s.(clock := to)
    case Arrive(m, life) =>
      s.(msgs := s.msgs[m := Message(None, 0, s.clock, s.clock + life, life)], used := s.used + {m})
    case Remove(m) => s.(msgs := s.msgs - {m})
    case BeginCreate(o, claim, ttl, grace, limit) =>
      s.(ops := s.ops[o := Op(Create, claim, ttl, grace, s.clock + ttl, limit, {}, Selecting)])
    case Select(o, ids, now) =>
      s.(ops := s.ops[o := s.ops[o].(ids := ids, stage := if ids == {} then Done else Selected)])
    case ReadClock(o) => SetStage(s, o, Tagging(s.clock))
    case Tag(o, hit, last) =>
      var op := s.ops[o];
      SetStage(s, o, if last then Extending else op.stage)
        .(msgs := Meta(s.msgs, hit, Some(op.claim), op.ttl, op.until))
    case BeginRenew(o, claim, ttl, grace) =>
      s.(ops := s.ops[o := Op(Renew, claim, ttl, grace, s.clock + ttl, 0, {}, Checking(s.clock))])
    case Check(o) =>
      SetStage(s, o, if StillClaimed(s, s.ops[o].claim, s.ops[o].stage.now) then Writing else Done)
    case Write(o, hit, last) =>
      var op := s.ops[o];
      SetStage(s, o, if last then Extending else op.stage)
        .(msgs := Meta(s.msgs, hit, Some(op.claim), op.ttl, op.until))
    case Extend(o, hit, last) =>
      var op := s.ops[o];
      SetStage(s, o, if last then Done else op.stage)
        .(msgs := Prolong(s.msgs, hit, op.until + op.grace, op.ttl + op.grace))
    case BeginRelease(o, claim) =>
      s.(ops := s.ops[o := Op(Release, claim, 0, 0, s.clock, 0, {}, Releasing(s.clock))])
    case Unclaim(o, hit, last) =>
      var op := s.ops[o];
      SetStage(s, o, if last then Done else op.stage)
        .(msgs := Meta(s.msgs, hit, None, 0, op.stage.now))
  }

  /** A multi-document update that runs without interleaving. */
  predicate Atomic(s: State, step: Step)
    requires Enabled(s, step)
  {
    match step
    case Tag(o, hit, last) => last && hit == Targets(s, o)
    case Write(o, hit, last) => last && hit == Targets(s, o)
    case Extend(o, hit, last) => last && hit == Targets(s, o)
    case Unclaim(o, hit, last) => last && hit == Targets(s, o)
    case _ => true
  }

  // ---- Runs ----

  predicate Possible(s: State, steps: seq<Step>)
    decreases |steps|
  {
    steps == [] || (Enabled(s, steps[0]) && Possible(Next(s, steps[0]), steps[1..]))
  }

  function After(s: State, steps: seq<Step>): State
    requires Possible(s, steps)
    decreases |steps|
  {
    if steps == [] then s else After(Next(s, steps[0]), steps[1..])
  }

  predicate AtomicRun(s: State, steps: seq<Step>)
    requires Possible(s, steps)
    decreases |steps|
  {
    steps == [] || (Atomic(s, steps[0]) && AtomicRun(Next(s, steps[0]), steps[1..]))
  }

  lemma Cons(s: State, step: Step, rest: seq<Step>)
    requires Enabled(s, step) && Possible(Next(s, step), rest)
    ensures Possible(s, [step] + rest) && After(s, [step] + rest) == After(Next(s, step), rest)
  {
    assert ([step] + rest)[0] == step && ([step] + rest)[1..] == rest;
  }

  lemma {:induction false} RunSnoc(s: State, steps: seq<Step>, step: Step)
    requires Possible(s, steps) && Enabled(After(s, steps), step)
    ensures Possible(s, steps + [step]) && After(s, steps + [step]) == Next(After(s, steps), step)
    ensures AtomicRun(s, steps) && Atomic(After(s, steps), step) ==> AtomicRun(s, steps + [step])
    decreases |steps|
  {
    if steps == [] {
      assert steps + [step] == [step] && [step][1..] == [];
      assert Possible(Next(s, step), [step][1..]);
      assert After(Next(s, step), [step][1..]) == Next(s, step);
    } else {
      assert (steps + [step])[0] == steps[0] && (steps + [step])[1..] == steps[1..] + [step];
      RunSnoc(Next(s, steps[0]), steps[1..], step);
    }
  }
}
