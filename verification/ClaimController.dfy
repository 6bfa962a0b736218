/**
 The claim controller's calls as they are written: sequences of single database
 operations with the operations of all other clients interleaved between any
 two of them. Every execution is a run of `Claims`, so the lease guarantees hold
 of these methods in every environment.
 */
module ClaimController {
  import opened Wrappers
  import opened Claims
  import opened NatSets
  import Leases = ClaimLeases

  datatype View = ClaimDoesNotExist | ClaimFound(ttl: int, age: int, mids: set<Mid>)

  datatype CreateResult = NothingToClaim | Created(view: View)

  predicate Foreign(o: OpId, step: Step) {
    match step
    case Tick(_) => true
    case Arrive(_, _) => true
    case Remove(_) => true
    case _ => step.o != o
  }

  /** The multi-document updates of a call. */
  datatype Update = TheTag | TheWrite | TheExtension | TheRelease

  predicate Is(step: Step, o: OpId, what: Update) {
    match what
    case TheTag => step.Tag? && step.o == o
    case TheWrite => step.Write? && step.o == o
    case TheExtension => step.Extend? && step.o == o
    case TheRelease => step.Unclaim? && step.o == o
  }

  /** The call has come to this update. */
  predicate Ready(s: State, o: OpId, what: Update) {
    match what
    case TheTag => At(s, o, Kind.Create) && s.ops[o].stage.Tagging?
    case TheWrite => At(s, o, Renew) && s.ops[o].stage.Writing?
    case TheExtension => o in s.ops && s.ops[o].stage.Extending?
    case TheRelease => At(s, o, Release) && s.ops[o].stage.Releasing?
  }

  function Part(o: OpId, what: Update, hit: set<Mid>, last: bool): Step {
    match what
    case TheTag => Tag(o, hit, last)
    case TheWrite => Write(o, hit, last)
    case TheExtension => Extend(o, hit, last)
    case TheRelease => Unclaim(o, hit, last)
  }

  lemma PartIsPossible(s: State, o: OpId, what: Update, hit: set<Mid>)
    requires Ready(s, o, what) && hit <= Targets(s, o)
    ensures Enabled(s, Part(o, what, hit, false)) && Next(s, Part(o, what, hit, false)).ops == s.ops
  {
    assert s.ops[o := s.ops[o].(stage := s.ops[o].stage)] == s.ops;
  }

  /** So does a part of an update of o, unless it tags something. */
  lemma PartKeepsEmpty(s: State, o: OpId, what: Update, hit: set<Mid>, last: bool)
    requires Ready(s, o, what) && hit <= Targets(s, o) && Enabled(s, Part(o, what, hit, last))
    ensures hit == {} || !what.TheTag? ==> StaysEmpty(s, Next(s, Part(o, what, hit, last)), o)
  {
    if At(s, o, Kind.Create) && Held(s, s.ops[o].claim) == {} && (hit == {} || !what.TheTag?) {
      var t, a := Next(s, Part(o, what, hit, last)), s.ops[o].claim;
      forall m ensures !HeldBy(t, m, a) {
        assert m !in Held(s, a);
      }
    }
  }

  /** The i-th step hit all the documents that matched at that moment. */
  ghost predicate WholeAt(start: int, history: seq<Step>, i: nat)
    requires i < |history|
  {
    && Possible(Init(start), history[..i])
    && Enabled(After(Init(start), history[..i]), history[i])
    && Atomic(After(Init(start), history[..i]), history[i])
  }

  /** From some moment on, the call made this update, on all the documents that matched then. */
  ghost predicate Did(start: int, history: seq<Step>, from: nat, o: OpId, what: Update) {
    exists i | from <= i < |history| :: WholeAt(start, history, i) && Is(history[i], o, what)
  }

  lemma DidStays(start: int, before: seq<Step>, history: seq<Step>, from: nat, since: nat, o: OpId, what: Update)
    requires before <= history && from >= since && Did(start, before, from, o, what)
    ensures Did(start, history, since, o, what)
  {
    var i :| from <= i < |before| && WholeAt(start, before, i) && Is(before[i], o, what);
    assert history[..i] == before[..i];
    assert WholeAt(start, history, i);
  }

  /** What the others make of the state, given what they try. */
  function AfterOthers(s: State, steps: seq<Step>, o: OpId): State
    decreases |steps|
  {
    if steps == [] then s
    else if Foreign(o, steps[0]) && Enabled(s, steps[0]) then AfterOthers(Next(s, steps[0]), steps[1..], o)
    else AfterOthers(s, steps[1..], o)
  }

  /** If the claim that o creates held nothing, it still does. */
  ghost predicate StaysEmpty(s: State, t: State, o: OpId) {
    At(s, o, Kind.Create) && At(t, o, Kind.Create) && Held(s, s.ops[o].claim) == {} ==> Held(t, s.ops[o].claim) == {}
  }

  /** Only its own creation puts messages into a claim that holds none. */
  lemma ForeignKeepsEmpty(s: State, step: Step, o: OpId)
    requires Leases.Inv(s) && Enabled(s, step) && Foreign(o, step)
    ensures StaysEmpty(s, Next(s, step), o)
  {
    if At(s, o, Kind.Create) && Held(s, s.ops[o].claim) == {} {
      var t, a := Next(s, step), s.ops[o].claim;
      forall m ensures !HeldBy(t, m, a) {
        assert m !in Held(s, a);
      }
    }
  }

  /** The messages of a claim that are still claimed. */
  function Live(s: State, claim: ClaimId, now: int): set<Mid> {
    set m | m in Held(s, claim) && m in s.msgs && s.msgs[m].until > now
  }

  /** One update, then, from where the history had got to, another. */
  lemma DidBoth(start: int, from: nat, so_far: seq<Step>, history: seq<Step>, o: OpId, first: Update, second: Update)
    requires so_far <= history && from <= |so_far|
    requires Did(start, so_far, from, o, first) && Did(start, history, |so_far|, o, second)
    ensures Did(start, history, from, o, first) && Did(start, history, from, o, second)
  {
    DidStays(start, so_far, history, from, from, o, first);
    DidStays(start, history, history, |so_far|, from, o, second);
  }

  class Controller {
    const start: int
    const others: nat -> seq<Step>
    /** The parts in which the database takes an update before the last one. */
    const splits: nat -> seq<set<Mid>>
    var db: State
    var tick: nat
    ghost var history: seq<Step>

    ghost predicate Valid()
      reads this
    {
      Possible(Init(start), history) && db == After(Init(start), history)
    }

    /** Every multi-document update so far, of this worker or another, ran isolated. */
    ghost predicate Isolated()
      requires Valid()
      reads this
    {
      AtomicRun(Init(start), history)
    }

    /** No other client does anything, and updates are taken in one piece. */
    ghost predicate Quiet()
      reads this
    {
      forall i :: others(i) == [] && splits(i) == []
    }

    constructor (start: int, others: nat -> seq<Step>, splits: nat -> seq<set<Mid>>)
      ensures Valid() && db == Init(start) && history == []
      ensures this.start == start && this.others == others && this.splits == splits
    {
      this.start, this.others, this.splits := start, others, splits;
      db, tick, history := Init(start), 0, [];
    }

    method Do(step: Step)
      requires Valid() && Enabled(db, step)
      modifies this
      ensures Valid() && db == Next(old(db), step) && history == old(history) + [step]
      ensures old(Isolated()) && Atomic(old(db), step) ==> Isolated()
      ensures Atomic(old(db), step) ==> WholeAt(start, history, |old(history)|)
    {
      RunSnoc(Init(start), history, step);
      db, history := Next(db, step), history + [step];
      assert history[..|old(history)|] == old(history);
    }

    method Interfere(o: OpId)
      requires Valid()
      modifies this
      ensures Valid() && old(history) <= history
      ensures o in db.ops <==> o in old(db.ops)
      ensures o in db.ops ==> db.ops[o] == old(db.ops[o])
      ensures old(db.clock) <= db.clock
      ensures db == AfterOthers(old(db), others(old(tick)), o)
      ensures StaysEmpty(old(db), db, o)
      ensures others(old(tick)) == [] ==> db == old(db) && history == old(history)
    {
      var steps := others(tick);
      tick := tick + 1;
      for i := 0 to |steps|
        invariant Valid() && old(history) <= history
        invariant AfterOthers(old(db), steps, o) == AfterOthers(db, steps[i..], o)
        invariant StaysEmpty(old(db), db, o)
        invariant o in db.ops <==> o in old(db.ops)
        invariant o in db.ops ==> db.ops[o] == old(db.ops[o])
        invariant old(db.clock) <= db.clock
        invariant i == 0 ==> db == old(db) && history == old(history)
      {
        assert steps[i..][0] == steps[i] && steps[i..][1..] == steps[i + 1..];
        if Foreign(o, steps[i]) && Enabled(db, steps[i]) {
          Leases.RunKeepsInv(Init(start), history);
          ForeignKeepsEmpty(db, steps[i], o);
          Do(steps[i]);
        }
      }
    }

    /** `_active(limit=limit)`: read the sorted cursor until the limit is reached. */
    method SelectActive(limit: nat) returns (ids: set<Mid>)
      ensures IsSelection(db, db.clock, limit, ids) && OldestFirst(db, db.clock, limit, ids)
    {
      ids := {};
      var left := Active(db, db.clock);
      while (limit == 0 || |ids| < limit) && left != {}
        invariant ids + left == Active(db, db.clock) && ids !! left
        invariant limit > 0 ==> |ids| <= limit
        invariant forall i, m | i in ids && m in left :: i < m
        decreases left
      {
        var m := Least(left);
        ids, left := ids + {m}, left - {m};
      }
      SelectionIsOldestFirst(db, db.clock, limit, ids);
    }

    /** `get`: the claim as read off its first message, and the messages still claimed. */
    method Get(claim: ClaimId, now: int) returns (v: View)
      requires Valid()
      ensures v.ClaimDoesNotExist? <==> !StillClaimed(db, claim, now)
      ensures v.ClaimFound? ==> forall m :: m in v.mids <==> HeldBy(db, m, claim) && db.msgs[m].until > now
      ensures v.ClaimFound? ==>
                exists first | first in v.mids && first in db.msgs ::
                  && (forall m | m in v.mids :: first <= m)
                  && v.ttl == db.msgs[first].ttl && v.age == now - (db.msgs[first].until - db.msgs[first].ttl)
      ensures v.ClaimFound? && Isolated() ==>
                && v.mids == Held(db, claim)
                && (forall m | m in v.mids :: db.msgs[m].ttl == v.ttl && db.msgs[m].until == now - v.age + v.ttl)
    {
      var claimed := Live(db, claim, now);
      if claimed == {} {
        assert forall m | m in db.msgs :: HeldBy(db, m, claim) && db.msgs[m].until > now ==> m in claimed;
        return ClaimDoesNotExist;
      }
      var first := Least(claimed);
      assert HeldBy(db, first, claim);
      var c := db.msgs[first];
      v := ClaimFound(c.ttl, now - (c.until - c.ttl), claimed);
      if AtomicRun(Init(start), history) {
        ClaimIsWhole(start, history, claim, first, now);
      }
    }

    /** Computing the claim's expiry and selecting messages. */
    method Pick(o: OpId, claim: ClaimId, ttl: int, grace: int, limit: nat) returns (ids: set<Mid>)
      requires Valid() && Enabled(db, BeginCreate(o, claim, ttl, grace, limit))
      modifies this
      ensures Valid() && old(history) <= history && At(db, o, Kind.Create)
      ensures db.ops[o] == Op(Kind.Create, claim, ttl, grace, old(db.clock) + ttl, limit, ids,
                              if ids == {} then Done else Selected)
      ensures Quiet() ==>
                && db == old(db).(ops := db.ops)
                && ids <= Active(old(db), old(db.clock)) && OldestFirst(old(db), old(db.clock), limit, ids)
                && (ids == {} <==> Active(old(db), old(db.clock)) == {})
      ensures Quiet() && old(Isolated()) ==> Isolated()
    {
      Do(BeginCreate(o, claim, ttl, grace, limit));
      Interfere(o);
      ids := SelectActive(limit);
      ghost var before := db;
      Do(Select(o, ids, db.clock));
      if Quiet() {
        assert before == old(db).(ops := before.ops);
        assert Active(before, db.clock) == Active(old(db), db.clock);
        EmptySelectionIff(old(db), db.clock, limit, ids);
        SelectionIsOldestFirst(old(db), db.clock, limit, ids);
      }
    }

    /** An update on its way: it takes arbitrary parts of what matches, and the other clients
        go on between them. */
    method InParts(o: OpId, what: Update) returns (any: bool)
      requires Valid() && Ready(db, o, what)
      modifies this
      ensures Valid() && old(history) <= history && Ready(db, o, what) && db.ops[o] == old(db.ops[o])
      ensures !any || !what.TheTag? ==> StaysEmpty(old(db), db, o)
      ensures Quiet() ==> db == old(db) && history == old(history) && !any
    {
      any := false;
      var parts := splits(tick);
      for i := 0 to |parts|
        invariant Valid() && old(history) <= history && Ready(db, o, what) && db.ops[o] == old(db.ops[o])
        invariant !any || !what.TheTag? ==> StaysEmpty(old(db), db, o)
        invariant i == 0 ==> db == old(db) && history == old(history) && !any
      {
        Interfere(o);
        var hit := Targets(db, o) * parts[i];
        PartIsPossible(db, o, what, hit);
        PartKeepsEmpty(db, o, what, hit, false);
        Do(Part(o, what, hit, false));
        any := any || hit != {};
      }
      Interfere(o);
    }

    /** The update that lets no message of the claim expire before it. */
    method Extension(o: OpId)
      requires Valid() && o in db.ops && db.ops[o].stage.Extending?
      modifies this
      ensures Valid() && old(history) <= history && o in db.ops && db.ops[o] == old(db.ops[o]).(stage := Done)
      ensures Did(start, history, |old(history)|, o, TheExtension)
      ensures StaysEmpty(old(db), db, o)
      ensures Quiet() ==> db == Extended(old(db), o)
      ensures Quiet() && old(Isolated()) ==> Isolated()
    {
      var _ := InParts(o, TheExtension);
      ghost var from := |history|;
      PartKeepsEmpty(db, o, TheExtension, Targets(db, o), true);
      Do(Extend(o, Targets(db, o), true));
      assert WholeAt(start, history, from) && Is(history[from], o, TheExtension);
    }

    /** Reading the clock and tagging what is still unclaimed. */
    method TagSelected(o: OpId) returns (tagged: bool)
      requires Valid() && At(db, o, Kind.Create) && db.ops[o].stage.Selected?
      modifies this
      ensures Valid() && old(history) <= history && At(db, o, Kind.Create)
      ensures db.ops[o] == old(db.ops[o]).(stage := Extending)
      ensures Did(start, history, |old(history)|, o, TheTag)
      ensures !tagged ==> Held(db, db.ops[o].claim) == {}
      ensures Quiet() ==>
                && db == Tagged(old(db), o)
                && tagged == TagsSome(old(db), o)
      ensures Quiet() && old(Isolated()) ==> Isolated()
    {
      Interfere(o);
      SelectedHoldsNothing(start, history, o);
      ghost var before := db;
      Do(ReadClock(o));
      assert Held(db, db.ops[o].claim) == Held(before, db.ops[o].claim);
      tagged := InParts(o, TheTag);
      var hit := Targets(db, o);
      ghost var from := |history|;
      PartKeepsEmpty(db, o, TheTag, hit, true);
      Do(Tag(o, hit, true));
      assert WholeAt(start, history, from) && Is(history[from], o, TheTag);
      tagged := tagged || hit != {};
    }

    /** Tagging what is still unclaimed and extending the tagged messages. */
    method TagAndExtend(o: OpId) returns (tagged: bool)
      requires Valid() && At(db, o, Kind.Create) && db.ops[o].stage.Selected?
      modifies this
      ensures Valid() && old(history) <= history && At(db, o, Kind.Create)
      ensures db.ops[o] == old(db.ops[o]).(stage := Done)
      ensures Did(start, history, |old(history)|, o, TheTag) && Did(start, history, |old(history)|, o, TheExtension)
      ensures !tagged ==> Held(db, db.ops[o].claim) == {}
      ensures Quiet() ==>
                && db == TaggedState(old(db), o)
                && tagged == TagsSome(old(db), o)
      ensures Quiet() && old(Isolated()) ==> Isolated()
    {
      tagged := TagSelected(o);
      ghost var so_far := history;
      Extension(o);
      DidBoth(start, |old(history)|, so_far, history, o, TheTag, TheExtension);
    }

    /** `create`: select, tag conditionally, extend the messages' life, read back. */
    method Create(o: OpId, claim: ClaimId, ttl: int, grace: int, limit: nat) returns (r: CreateResult)
      requires Valid() && Enabled(db, BeginCreate(o, claim, ttl, grace, limit))
      modifies this
      ensures Valid() && old(history) <= history && At(db, o, Kind.Create)
      ensures db.ops[o] == Op(Kind.Create, claim, ttl, grace, old(db.clock) + ttl, limit, db.ops[o].ids, Done)
      ensures r.NothingToClaim? <==> db.ops[o].ids == {}
      ensures r.Created? ==> Did(start, history, |old(history)|, o, TheTag)
      ensures r.Created? ==> Did(start, history, |old(history)|, o, TheExtension)
      ensures r.Created? ==> (r.view.ClaimFound? <==> StillClaimed(db, claim, db.clock))
      ensures r.Created? && r.view.ClaimFound? ==>
                && (forall m :: m in r.view.mids <==> HeldBy(db, m, claim) && db.msgs[m].until > db.clock)
                && (limit > 0 ==> |Held(db, claim)| <= limit)
      ensures Quiet() ==>
                && (r.NothingToClaim? <==> Active(old(db), old(db.clock)) == {})
                && OldestFirst(old(db), old(db.clock), limit, db.ops[o].ids)
                && Claimed(old(db), db, claim, db.ops[o].ids, ttl, grace)
                && (r.Created? && ttl > 0 ==> r.view.ClaimFound? && r.view.mids == Held(db, claim))
      ensures Quiet() && old(Isolated()) ==> Isolated()
    {
      FreshClaimHoldsNothing(start, history, claim);
      var ids := Pick(o, claim, ttl, grace, limit);
      if ids == {} {
        if Quiet() { NothingIsClaimed(old(db), db, claim, ttl, grace); }
        return NothingToClaim;
      }
      ghost var from := |history|;
      var v := ClaimPicked(o, old(db));
      DidStays(start, history, history, from, |old(history)|, o, TheTag);
      DidStays(start, history, history, from, |old(history)|, o, TheExtension);
      r := Created(v);
    }

    /** What follows the selection. */
    method ClaimPicked(o: OpId, ghost was: State) returns (v: View)
      requires Valid() && At(db, o, Kind.Create) && db.ops[o].stage.Selected?
      modifies this
      ensures Valid() && old(history) <= history && At(db, o, Kind.Create)
      ensures db.ops[o] == old(db.ops[o]).(stage := Done)
      ensures Did(start, history, |old(history)|, o, TheTag) && Did(start, history, |old(history)|, o, TheExtension)
      ensures v.ClaimFound? ==>
                && v.mids == Live(db, db.ops[o].claim, db.clock)
                && (db.ops[o].limit > 0 ==> |Held(db, db.ops[o].claim)| <= db.ops[o].limit)
      ensures v.ClaimFound? <==> StillClaimed(db, db.ops[o].claim, db.clock)
      ensures Quiet() && Undisturbed(was, old(db), o) ==>
                && var op := db.ops[o];
                && Claimed(was, db, op.claim, op.ids, op.ttl, op.grace)
                && (op.ttl > 0 ==> v.ClaimFound? && v.mids == Held(db, op.claim))
      ensures Quiet() && old(Isolated()) ==> Isolated()
    {
      ghost var picked := db;
      var tagged := TagAndExtend(o);
      ghost var so_far := history;
      if Quiet() && Undisturbed(was, picked, o) { SelectedIsTagged(was, picked, o, db); }
      v := ClaimDoesNotExist;
      if tagged {
        v := ReadBack(o);
      } else {
        NothingIsLive(db, db.ops[o].claim, db.clock);
      }
      DidStays(start, so_far, history, |old(history)|, |old(history)|, o, TheTag);
      DidStays(start, so_far, history, |old(history)|, |old(history)|, o, TheExtension);
    }

    /** The call of `get` that finds out which messages were tagged. */
    method ReadBack(o: OpId) returns (v: View)
      requires Valid() && At(db, o, Kind.Create)
      modifies this
      ensures Valid() && old(history) <= history && At(db, o, Kind.Create) && db.ops[o] == old(db.ops[o])
      ensures v.ClaimFound? ==>
                && v.mids == Live(db, db.ops[o].claim, db.clock)
                && (db.ops[o].limit > 0 ==> |Held(db, db.ops[o].claim)| <= db.ops[o].limit)
      ensures v.ClaimFound? <==> StillClaimed(db, db.ops[o].claim, db.clock)
      ensures Quiet() ==> db == old(db) && history == old(history)
    {
      Interfere(o);
      v := Get(db.ops[o].claim, db.clock);
      assert v.ClaimFound? ==> v.mids == Live(db, db.ops[o].claim, db.clock);
      Leases.ClaimWithinLimit(start, history, o);
    }

    /** The first half of `update`: the check that raises ClaimDoesNotExist. */
    method CheckClaim(o: OpId, claim: ClaimId, ttl: int, grace: int) returns (ok: bool)
      requires Valid() && o !in db.ops
      modifies this
      ensures Valid() && old(history) <= history && At(db, o, Renew)
      ensures db.ops[o] == Op(Renew, claim, ttl, grace, old(db.clock) + ttl, 0, {}, if ok then Writing else Done)
      ensures Quiet() ==> db == old(db).(ops := db.ops) && ok == StillClaimed(old(db), claim, db.clock)
      ensures Quiet() && old(Isolated()) ==> Isolated()
    {
      Do(BeginRenew(o, claim, ttl, grace));
      Interfere(o);
      ghost var before := db;
      Do(Check(o));
      ok := db.ops[o].stage.Writing?;
      if Quiet() {
        assert forall m :: HeldBy(before, m, claim) <==> HeldBy(old(db), m, claim);
      }
    }

    /** The second half: write the claim on all its messages and extend them. */
    method WriteAndExtend(o: OpId)
      requires Valid() && At(db, o, Renew) && db.ops[o].stage.Writing?
      modifies this
      ensures Valid() && old(history) <= history && At(db, o, Renew)
      ensures db.ops[o] == old(db.ops[o]).(stage := Done)
      ensures Did(start, history, |old(history)|, o, TheWrite) && Did(start, history, |old(history)|, o, TheExtension)
      ensures Quiet() ==> db == RewrittenState(old(db), o)
      ensures Quiet() && old(Isolated()) ==> Isolated()
    {
      var _ := InParts(o, TheWrite);
      ghost var from := |history|;
      Do(Write(o, Targets(db, o), true));
      assert WholeAt(start, history, from) && Is(history[from], o, TheWrite);
      ghost var so_far := history;
      Extension(o);
      DidBoth(start, |old(history)|, so_far, history, o, TheWrite, TheExtension);
    }

    /** `update`: check one message, write all, extend the messages' life. */
    method Update(o: OpId, claim: ClaimId, ttl: int, grace: int) returns (ok: bool)
      requires Valid() && o !in db.ops
      modifies this
      ensures Valid() && old(history) <= history
      ensures o in db.ops && db.ops[o] == Op(Renew, claim, ttl, grace, old(db.clock) + ttl, 0, {}, Done)
      ensures ok ==> Did(start, history, |old(history)|, o, TheWrite)
      ensures ok ==> Did(start, history, |old(history)|, o, TheExtension)
      ensures Quiet() ==>
                && ok == StillClaimed(old(db), claim, old(db.clock))
                && (ok ==> Claimed(old(db), db, claim, Held(old(db), claim), ttl, grace))
                && (!ok ==> db.msgs == old(db.msgs) && db.clock == old(db.clock))
      ensures Quiet() && old(Isolated()) ==> Isolated()
    {
      ok := CheckClaim(o, claim, ttl, grace);
      if ok {
        ghost var checked, from := db, |history|;
        WriteAndExtend(o);
        DidStays(start, history, history, from, |old(history)|, o, TheWrite);
        DidStays(start, history, history, from, |old(history)|, o, TheExtension);
        if Quiet() { RewrittenMeans(old(db), checked, o); }
      }
    }

    /** `delete`: free every message of the claim at once. */
    method Delete(o: OpId, claim: ClaimId)
      requires Valid() && o !in db.ops
      modifies this
      ensures Valid() && old(history) <= history
      ensures Held(db, claim) == {}
      ensures Did(start, history, |old(history)|, o, TheRelease)
      ensures Quiet() ==>
                && db.clock == old(db.clock) && db.msgs.Keys == old(db.msgs.Keys)
                && (forall m | m in Held(old(db), claim) :: m in Active(db, db.clock))
                && (forall m | m in db.msgs && m !in Held(old(db), claim) :: db.msgs[m] == old(db.msgs[m]))
      ensures Quiet() && old(Isolated()) ==> Isolated()
    {
      Do(BeginRelease(o, claim));
      ghost var begun, from := db, |history|;
      ReleaseAll(o);
      DidStays(start, history, history, from, |old(history)|, o, TheRelease);
      if Quiet() { ReleasedMeans(old(db), begun, o); }
    }

    method ReleaseAll(o: OpId)
      requires Valid() && Ready(db, o, TheRelease)
      modifies this
      ensures Valid() && old(history) <= history
      ensures Held(db, old(db.ops[o].claim)) == {}
      ensures Did(start, history, |old(history)|, o, TheRelease)
      ensures Quiet() ==> db == Released(old(db), o)
      ensures Quiet() && old(Isolated()) ==> Isolated()
    {
      var _ := InParts(o, TheRelease);
      ghost var from := |history|;
      Do(Unclaim(o, Targets(db, o), true));
      assert WholeAt(start, history, from) && Is(history[from], o, TheRelease);
    }
  }

  ghost function Released(s: State, o: OpId): State
    requires Ready(s, o, TheRelease)
  {
    Next(s, Unclaim(o, Targets(s, o), true))
  }

  /** Undisturbed, a release frees exactly the messages of the claim. */
  lemma ReleasedMeans(was: State, s: State, o: OpId)
    requires Ready(s, o, TheRelease) && s == was.(ops := s.ops) && s.ops[o].stage == Releasing(s.clock)
    ensures var t, claim := Released(s, o), s.ops[o].claim;
            && t.clock == was.clock && t.msgs.Keys == was.msgs.Keys
            && (forall m | m in Held(was, claim) :: m in Active(t, t.clock))
            && (forall m | m in t.msgs && m !in Held(was, claim) :: t.msgs[m] == was.msgs[m])
  {
    assert Held(s, s.ops[o].claim) == Held(was, s.ops[o].claim);
  }

  /** t is s with exactly the messages in ids put under the claim from the current time on,
      none of them expiring before the claim does. */
  ghost predicate Claimed(s: State, t: State, claim: ClaimId, ids: set<Mid>, ttl: int, grace: int) {
    && t.clock == s.clock && t.msgs.Keys == s.msgs.Keys
    && Held(t, claim) == ids
    && (forall m | m in s.msgs && m !in ids :: t.msgs[m] == s.msgs[m])
    && (forall m | m in s.msgs && m in ids ::
          && t.msgs[m].ttl == ttl && t.msgs[m].until == s.clock + ttl
          && (s.msgs[m].expires >= s.clock + ttl ==>
                t.msgs[m].expires == s.msgs[m].expires && t.msgs[m].life == s.msgs[m].life)
          && (s.msgs[m].expires < s.clock + ttl ==>
                t.msgs[m].expires == s.clock + ttl + grace && t.msgs[m].life == ttl + grace))
  }

  /** The effects of the calls' updates, undisturbed. */
  ghost function Extended(s: State, o: OpId): State
    requires o in s.ops && s.ops[o].stage.Extending?
  {
    Next(s, Extend(o, Targets(s, o), true))
  }

  ghost function Rewritten(s: State, o: OpId): (t: State)
    requires At(s, o, Renew) && s.ops[o].stage.Writing?
    ensures o in t.ops && t.ops[o].stage.Extending?
  {
    Next(s, Write(o, Targets(s, o), true))
  }

  ghost function RewrittenState(s: State, o: OpId): State
    requires At(s, o, Renew) && s.ops[o].stage.Writing?
  {
    Extended(Rewritten(s, o), o)
  }

  lemma RewrittenMeans(was: State, s: State, o: OpId)
    requires At(s, o, Renew) && s.ops[o].stage.Writing? && s == was.(ops := s.ops)
    requires s.ops[o].until == s.clock + s.ops[o].ttl
    ensures var op := s.ops[o];
            Claimed(was, RewrittenState(s, o), op.claim, Held(was, op.claim), op.ttl, op.grace)
  {
    var t := Next(s, Write(o, Targets(s, o), true));
    assert Held(s, s.ops[o].claim) == Held(was, s.ops[o].claim);
    assert Held(t, s.ops[o].claim) == Held(s, s.ops[o].claim);
  }

  ghost function Tagged(s: State, o: OpId): (t: State)
    requires At(s, o, Kind.Create) && s.ops[o].stage.Selected?
    ensures o in t.ops && t.ops[o].stage.Extending? && t.clock == s.clock
  {
    var u := Next(s, ReadClock(o));
    Next(u, Tag(o, Targets(u, o), true))
  }

  /** Some selected message is still unclaimed. */
  predicate TagsSome(s: State, o: OpId)
    requires o in s.ops
  {
    s.ops[o].ids * Active(s, s.clock) != {}
  }

  ghost function TaggedState(s: State, o: OpId): State
    requires At(s, o, Kind.Create) && s.ops[o].stage.Selected?
  {
    Extended(Tagged(s, o), o)
  }

  lemma TaggedMeans(was: State, s: State, o: OpId)
    requires At(s, o, Kind.Create) && s.ops[o].stage.Selected? && s == was.(ops := s.ops)
    requires s.ops[o].until == s.clock + s.ops[o].ttl && Held(was, s.ops[o].claim) == {}
    requires s.ops[o].ids <= Active(was, s.clock)
    ensures var op := s.ops[o];
            Claimed(was, TaggedState(s, o), op.claim, op.ids, op.ttl, op.grace)
  {
    var op := s.ops[o];
    var t := Next(s, ReadClock(o));
    assert Active(t, s.clock) == Active(was, s.clock);
    assert Targets(t, o) == op.ids;
    var u := Next(t, Tag(o, op.ids, true));
    assert forall m :: !HeldBy(was, m, op.claim) by {
      forall m ensures !HeldBy(was, m, op.claim) { assert m !in Held(was, op.claim); }
    }
    forall m ensures m in Held(u, op.claim) <==> m in op.ids {
      if m in op.ids {
        assert m in Active(was, s.clock);
      } else {
        assert HeldBy(u, m, op.claim) <==> HeldBy(was, m, op.claim);
      }
    }
  }

  /** Since `was`, nothing happened but the selection of some unclaimed messages for a new claim. */
  ghost predicate Undisturbed(was: State, s: State, o: OpId) {
    && At(s, o, Kind.Create) && s.ops[o].stage.Selected? && s == was.(ops := s.ops)
    && s.ops[o].until == s.clock + s.ops[o].ttl && Held(was, s.ops[o].claim) == {}
    && s.ops[o].ids != {} && s.ops[o].ids <= Active(was, s.clock)
  }

  /** Undisturbed, whatever was selected is tagged, and with a positive ttl the claim is live. */
  lemma SelectedIsTagged(was: State, s: State, o: OpId, t: State)
    requires Undisturbed(was, s, o) && t == TaggedState(s, o)
    ensures var op := s.ops[o];
            && Claimed(was, t, op.claim, op.ids, op.ttl, op.grace)
            && TagsSome(s, o)
            && (op.ttl > 0 ==> StillClaimed(t, op.claim, t.clock) && Live(t, op.claim, t.clock) == Held(t, op.claim))
  {
    TaggedMeans(was, s, o);
    var op := s.ops[o];
    assert Active(s, s.clock) == Active(was, s.clock);
    assert op.ids * Active(s, s.clock) == op.ids;
    var m :| m in op.ids;
    assert m in Held(t, op.claim) && HeldBy(t, m, op.claim);
  }

  lemma NothingIsLive(s: State, claim: ClaimId, now: int)
    requires Held(s, claim) == {}
    ensures !StillClaimed(s, claim, now)
  {
    forall m | m in s.msgs ensures !HeldBy(s, m, claim) { assert m !in Held(s, claim); }
  }

  /** The ids are unclaimed messages, `limit` of them if there are as many (0 stands for no
      limit), and none of the unclaimed messages left out precedes one of them. */
  ghost predicate OldestFirst(s: State, now: int, limit: nat, ids: set<Mid>) {
    && (forall m | m in ids :: m in s.msgs && s.msgs[m].until <= now)
    && (limit > 0 ==> |ids| <= limit)
    && (forall m | m in s.msgs && s.msgs[m].until <= now && m !in ids ::
          limit > 0 && |ids| == limit && forall i | i in ids :: i < m)
  }

  lemma SelectionIsOldestFirst(s: State, now: int, limit: nat, ids: set<Mid>)
    requires IsSelection(s, now, limit, ids)
    ensures OldestFirst(s, now, limit, ids)
  {
    assert forall m | m in ids :: m in Active(s, now);
    assert forall m | m in s.msgs && s.msgs[m].until <= now :: m in Active(s, now);
  }

  lemma EmptySelectionIff(s: State, now: int, limit: nat, ids: set<Mid>)
    requires IsSelection(s, now, limit, ids)
    ensures ids == {} <==> Active(s, now) == {}
  {
    if ids == {} {
      assert forall m :: m !in Active(s, now);
    }
  }

  lemma NothingIsClaimed(was: State, s: State, claim: ClaimId, ttl: int, grace: int)
    requires s == was.(ops := s.ops) && Held(was, claim) == {}
    ensures Claimed(was, s, claim, {}, ttl, grace)
  {
    assert Held(s, claim) == Held(was, claim);
  }

  /** A creation that has selected but not tagged holds nothing yet. */
  lemma SelectedHoldsNothing(start: int, steps: seq<Step>, o: OpId)
    requires Possible(Init(start), steps)
    requires var s := After(Init(start), steps); At(s, o, Kind.Create) && s.ops[o].stage.Selected?
    ensures var s := After(Init(start), steps); Held(s, s.ops[o].claim) == {}
  {
    Leases.RunKeepsInv(Init(start), steps);
    var s := After(Init(start), steps);
    forall m ensures m !in Held(s, s.ops[o].claim) {
      Leases.UntaggedHoldsNothing(s, o, m);
    }
  }

  lemma FreshClaimHoldsNothing(start: int, steps: seq<Step>, claim: ClaimId)
    requires Possible(Init(start), steps)
    requires var s := After(Init(start), steps);
             forall q | q in s.ops :: s.ops[q].kind == Kind.Create ==> s.ops[q].claim != claim
    ensures Held(After(Init(start), steps), claim) == {}
  {
    Leases.RunKeepsInv(Init(start), steps);
    var s := After(Init(start), steps);
    forall m ensures !HeldBy(s, m, claim) {
      assert forall q | q in s.ops :: !Leases.Selects(s, q, m, claim);
      assert !Leases.Selected(s, m, claim);
    }
  }

  /** With isolated updates, a claim with one live message has only live messages. */
  lemma ClaimIsWhole(start: int, steps: seq<Step>, claim: ClaimId, first: Mid, now: int)
    requires Possible(Init(start), steps) && AtomicRun(Init(start), steps)
    requires var s := After(Init(start), steps); HeldBy(s, first, claim) && s.msgs[first].until > now
    ensures var s := After(Init(start), steps);
            && Held(s, claim) == Live(s, claim, now)
            && forall m | m in Held(s, claim) ::
                 s.msgs[m].ttl == s.msgs[first].ttl && s.msgs[m].until == s.msgs[first].until
  {
    var s := After(Init(start), steps);
    forall m | m in Held(s, claim)
      ensures s.msgs[m].ttl == s.msgs[first].ttl && s.msgs[m].until == s.msgs[first].until
    {
      Leases.OneMessageSpeaksForAll(start, steps, claim, m, first, now);
    }
  }
}
