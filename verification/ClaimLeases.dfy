/** What claims guarantee as leases, over every interleaving. */
module ClaimLeases {
  import opened Wrappers
  import opened Claims

  // ---- Basic invariant of every run ----

  predicate OpInv(s: State, o: OpId)
    requires o in s.ops
  {
    var op := s.ops[o];
    && (op.stage.Tagging? ==> op.kind == Create && op.stage.now <= s.clock)
    && (op.stage.Checking? || op.stage.Releasing? ==> op.kind != Create && op.stage.now <= s.clock)
    && (op.stage.Selecting? || op.stage.Selected? ==> op.kind == Create)
    && (op.stage.Writing? ==> op.kind == Renew)
    && (op.limit > 0 ==> |op.ids| <= op.limit)
  }

  /** A claim is created by one call, and holds only messages that call selected. */
  ghost predicate Inv(s: State) {
    && (forall o | o in s.ops :: OpInv(s, o))
    && (forall o, q | o in s.ops && q in s.ops && s.ops[o].kind == Create && s.ops[q].kind == Create
          && s.ops[o].claim == s.ops[q].claim :: o == q)
    && (forall m, a | HeldBy(s, m, a) :: Selected(s, m, a))
    && (forall m | m in s.msgs :: m in s.used)
  }

  /** Some call created claim a and selected m for it. */
  ghost predicate Selected(s: State, m: Mid, a: ClaimId) {
    exists o | o in s.ops :: Selects(s, o, m, a)
  }

  predicate Selects(s: State, o: OpId, m: Mid, a: ClaimId)
    requires o in s.ops
  {
    s.ops[o].kind == Create && s.ops[o].claim == a && m in s.ops[o].ids
    && !s.ops[o].stage.Selecting? && !s.ops[o].stage.Selected?
  }

  lemma SelectsPersists(s: State, step: Step, o: OpId, m: Mid, a: ClaimId)
    requires Enabled(s, step) && o in s.ops && Selects(s, o, m, a)
    ensures var t := Next(s, step); o in t.ops && Selects(t, o, m, a)
  {
  }

  lemma StepKeepsSelected(s: State, step: Step, m: Mid, a: ClaimId)
    requires Inv(s) && Enabled(s, step) && HeldBy(Next(s, step), m, a)
    ensures Selected(Next(s, step), m, a)
  {
    var t := Next(s, step);
    if HeldBy(s, m, a) {
      var o :| o in s.ops && Selects(s, o, m, a);
      SelectsPersists(s, step, o, m, a);
    } else {
      assert step.Tag?;
      assert OpInv(s, step.o);
      assert Selects(t, step.o, m, a);
    }
  }

  lemma StepKeepsOp(s: State, step: Step, o: OpId)
    requires Inv(s) && Enabled(s, step) && o in Next(s, step).ops
    ensures OpInv(Next(s, step), o)
  {
    if o in s.ops { assert OpInv(s, o); }
  }

  /** No claim id is ever used by two creations. */
  lemma StepKeepsCreators(s: State, step: Step, o: OpId, q: OpId)
    requires Inv(s) && Enabled(s, step) && o in Next(s, step).ops && q in Next(s, step).ops
    requires var t := Next(s, step);
             t.ops[o].kind == Create && t.ops[q].kind == Create && t.ops[o].claim == t.ops[q].claim
    ensures o == q
  {
  }

  lemma StepKeepsInv(s: State, step: Step)
    requires Inv(s) && Enabled(s, step)
    ensures Inv(Next(s, step))
  {
    var t := Next(s, step);
    forall o | o in t.ops ensures OpInv(t, o) {
      StepKeepsOp(s, step, o);
    }
    forall o, q | o in t.ops && q in t.ops && t.ops[o].kind == Create && t.ops[q].kind == Create
      && t.ops[o].claim == t.ops[q].claim
      ensures o == q
    {
      StepKeepsCreators(s, step, o, q);
    }
    forall m, a | HeldBy(t, m, a) ensures Selected(t, m, a) {
      StepKeepsSelected(s, step, m, a);
    }
  }

  lemma {:induction false} RunKeepsInv(s: State, steps: seq<Step>)
    requires Inv(s) && Possible(s, steps)
    ensures Inv(After(s, steps))
    decreases |steps|
  {
    if steps != [] {
      StepKeepsInv(s, steps[0]);
      RunKeepsInv(Next(s, steps[0]), steps[1..]);
    }
  }

  // ---- Exclusivity ----

  /** The step writes a release of claim a on message m. */
  predicate Releases(s: State, step: Step, m: Mid, a: ClaimId) {
    step.Unclaim? && step.o in s.ops && s.ops[step.o].claim == a && m in step.hit
  }

  /** In one step a claim loses a message only by removal, by release, or to a claim that
      tags it after its current expiry. */
  lemma LossNeedsExpiryOrRelease(s: State, step: Step, m: Mid, a: ClaimId)
    requires Inv(s) && Enabled(s, step) && HeldBy(s, m, a) && !HeldBy(Next(s, step), m, a)
    requires m in Next(s, step).msgs
    ensures Releases(s, step, m, a) || (step.Tag? && s.msgs[m].until <= s.clock)
  {
    if step.Tag? { assert OpInv(s, step.o); }
  }

  /**
   Lease exclusivity over whole runs. If m is held by claim a and later by
   another claim, then at some moment in between, m was still held by a and
   either the expiry it then had (after all renewals) had been reached, or the
   very next step released it from a.
   */
  lemma {:induction false} TakenOnlyAfterExpiryOrRelease(
    clock: int, before: seq<Step>, rest: seq<Step>, m: Mid, a: ClaimId, b: ClaimId)
    returns (i: nat)
    requires Possible(Init(clock), before)
    requires var s := After(Init(clock), before);
             HeldBy(s, m, a) && Possible(s, rest) && HeldBy(After(s, rest), m, b) && a != b
    ensures i < |rest| && Possible(After(Init(clock), before), rest[..i])
    ensures var u := After(After(Init(clock), before), rest[..i]);
            HeldBy(u, m, a) && (u.msgs[m].until <= u.clock || Releases(u, rest[i], m, a))
  {
    RunKeepsInv(Init(clock), before);
    i := FirstLoss(After(Init(clock), before), rest, m, a, b);
  }

  lemma {:induction false} FirstLoss(s: State, rest: seq<Step>, m: Mid, a: ClaimId, b: ClaimId) returns (i: nat)
    requires Inv(s) && HeldBy(s, m, a) && Possible(s, rest) && HeldBy(After(s, rest), m, b) && a != b
    ensures i < |rest| && Possible(s, rest[..i])
    ensures var u := After(s, rest[..i]);
            HeldBy(u, m, a) && (u.msgs[m].until <= u.clock || Releases(u, rest[i], m, a))
    decreases |rest|
  {
    assert rest != [];
    var t := Next(s, rest[0]);
    StepKeepsInv(s, rest[0]);
    if HeldBy(t, m, a) {
      var j := FirstLoss(t, rest[1..], m, a, b);
      i := j + 1;
      assert rest[..i] == [rest[0]] + rest[1..][..j];
      Cons(s, rest[0], rest[1..][..j]);
    } else {
      if m !in t.msgs {
        GoneForGood(t, rest[1..], m);
        assert false;
      }
      LossNeedsExpiryOrRelease(s, rest[0], m, a);
      i := 0;
      assert rest[..0] == [];
    }
  }

  lemma {:induction false} GoneForGood(s: State, rest: seq<Step>, m: Mid)
    requires Possible(s, rest) && m !in s.msgs && m in s.used
    ensures m !in After(s, rest).msgs
    decreases |rest|
  {
    if rest != [] { GoneForGood(Next(s, rest[0]), rest[1..], m); }
  }

  /** A removed message stays removed, and no claim ever holds it again. */
  lemma RemovedForGood(s: State, m: Mid, rest: seq<Step>, a: ClaimId)
    requires m in s.msgs && m in s.used && Possible(Next(s, Remove(m)), rest)
    ensures !HeldBy(After(Next(s, Remove(m)), rest), m, a)
  {
    GoneForGood(Next(s, Remove(m)), rest, m);
  }

  /** The call that created claim a has finished tagging. */
  ghost predicate TaggingOver(s: State, a: ClaimId) {
    exists o | o in s.ops :: CreatedBy(s, o, a)
  }

  predicate CreatedBy(s: State, o: OpId, a: ClaimId)
    requires o in s.ops
  {
    s.ops[o].kind == Create && s.ops[o].claim == a && (s.ops[o].stage.Extending? || s.ops[o].stage.Done?)
  }

  /**
   What a claim has lost it never gets back: once the call that created claim a
   has tagged its messages, a stored message not held by a is never held by a
   again. In particular a renewal of a whose check passed before a expired
   cannot take back a message another claim has tagged since.
   */
  lemma {:induction false} NeverTakenBack(s: State, rest: seq<Step>, m: Mid, a: ClaimId)
    requires Inv(s) && Possible(s, rest) && TaggingOver(s, a) && m in s.used && !HeldBy(s, m, a)
    ensures !HeldBy(After(s, rest), m, a)
    decreases |rest|
  {
    if rest != [] {
      var step := rest[0];
      var t := Next(s, step);
      var o :| o in s.ops && CreatedBy(s, o, a);
      assert o in t.ops && CreatedBy(t, o, a);
      assert !HeldBy(t, m, a);
      StepKeepsInv(s, step);
      NeverTakenBack(t, rest[1..], m, a);
    }
  }

  /** A claim never holds more messages than its limit, and only ones its creation selected. */
  lemma ClaimWithinLimit(clock: int, steps: seq<Step>, o: OpId)
    requires Possible(Init(clock), steps)
    requires var s := After(Init(clock), steps); o in s.ops && s.ops[o].kind == Create
    ensures var s := After(Init(clock), steps);
            var op := s.ops[o];
            Held(s, op.claim) <= op.ids && (op.limit > 0 ==> |Held(s, op.claim)| <= op.limit)
  {
    RunKeepsInv(Init(clock), steps);
    var s := After(Init(clock), steps);
    var op := s.ops[o];
    assert OpInv(s, o);
    forall m | m in Held(s, op.claim) ensures m in op.ids {
      assert Selected(s, m, op.claim);
    }
    SubsetSize(Held(s, op.claim), op.ids);
  }

  lemma {:induction false} SubsetSize(a: set<Mid>, b: set<Mid>)
    requires a <= b
    ensures |a| <= |b|
    decreases a
  {
    if a != {} {
      var x :| x in a;
      SubsetSize(a - {x}, b - {x});
    }
  }

  // ---- One message speaks for its claim ----

  /** All messages of a claim carry the same claim ttl and expiry. */
  ghost predicate Uniform(s: State) {
    forall m, n, a | HeldBy(s, m, a) && HeldBy(s, n, a) ::
      s.msgs[m].ttl == s.msgs[n].ttl && s.msgs[m].until == s.msgs[n].until
  }

  /** Before its creation has tagged anything, a claim holds nothing. */
  ghost predicate NothingEarly(s: State) {
    forall o, m | o in s.ops && s.ops[o].kind == Create && s.ops[o].stage.Tagging? ::
      !HeldBy(s, m, s.ops[o].claim)
  }

  lemma UntaggedHoldsNothing(s: State, o: OpId, m: Mid)
    requires Inv(s) && o in s.ops && s.ops[o].kind == Create && s.ops[o].stage.Selected?
    ensures !HeldBy(s, m, s.ops[o].claim)
  {
    assert forall q | q in s.ops :: !Selects(s, q, m, s.ops[o].claim);
  }

  lemma AtomicStepKeepsUniform(s: State, step: Step)
    requires Inv(s) && Uniform(s) && NothingEarly(s) && Enabled(s, step) && Atomic(s, step)
    ensures Uniform(Next(s, step)) && NothingEarly(Next(s, step))
  {
    var t := Next(s, step);
    forall m, n, a | HeldBy(t, m, a) && HeldBy(t, n, a)
      ensures t.msgs[m].ttl == t.msgs[n].ttl && t.msgs[m].until == t.msgs[n].until
    {
      if step.Tag? || step.Write? {
        if s.ops[step.o].claim != a {
          assert HeldBy(s, m, a) && HeldBy(s, n, a);
        } else if step.Tag? {
          assert !HeldBy(s, m, a) && !HeldBy(s, n, a);
        } else {
          assert m in Held(s, a) && n in Held(s, a);
        }
      } else {
        assert HeldBy(s, m, a) && HeldBy(s, n, a);
      }
    }
    forall o, m | o in t.ops && t.ops[o].kind == Create && t.ops[o].stage.Tagging?
      ensures !HeldBy(t, m, t.ops[o].claim)
    {
      var a := t.ops[o].claim;
      if s.ops[o].stage.Selected? { UntaggedHoldsNothing(s, o, m); }
      assert !HeldBy(s, m, a);
      assert step.Tag? ==> s.ops[step.o].claim != a;
      assert step.Write? && s.ops[step.o].claim == a ==> m !in Held(s, a);
    }
  }

  lemma {:induction false} AtomicRunKeepsUniform(s: State, steps: seq<Step>)
    requires Inv(s) && Uniform(s) && NothingEarly(s) && Possible(s, steps) && AtomicRun(s, steps)
    ensures Uniform(After(s, steps))
    decreases |steps|
  {
    if steps != [] {
      StepKeepsInv(s, steps[0]);
      AtomicStepKeepsUniform(s, steps[0]);
      AtomicRunKeepsUniform(Next(s, steps[0]), steps[1..]);
    }
  }

  /**
   In every run with isolated multi-document updates, whatever message of a
   claim is read, it gives the claim's ttl and expiry, and the check of a single
   message decides for all of them whether the claim has expired.
   */
  lemma OneMessageSpeaksForAll(clock: int, steps: seq<Step>, a: ClaimId, m: Mid, n: Mid, now: int)
    requires Possible(Init(clock), steps) && AtomicRun(Init(clock), steps)
    requires var s := After(Init(clock), steps); HeldBy(s, m, a) && HeldBy(s, n, a)
    ensures var s := After(Init(clock), steps);
            && s.msgs[m].ttl == s.msgs[n].ttl && s.msgs[m].until == s.msgs[n].until
            && (StillClaimed(s, a, now) <==> s.msgs[m].until > now)
  {
    AtomicRunKeepsUniform(Init(clock), steps);
  }

  // ---- Message expiry ----

  ghost predicate NonNegativeGrace(s: State) {
    forall o | o in s.ops :: s.ops[o].grace >= 0
  }

  predicate GraceStep(step: Step) {
    (step.BeginCreate? ==> step.grace >= 0) && (step.BeginRenew? ==> step.grace >= 0)
  }

  predicate GraceRun(steps: seq<Step>) {
    forall i | 0 <= i < |steps| :: GraceStep(steps[i])
  }

  /** A stored message's expiry never decreases, in any interleaving, isolated or not. */
  lemma {:induction false} ExpiryNeverDecreases(s: State, rest: seq<Step>, m: Mid)
    requires Possible(s, rest) && GraceRun(rest) && NonNegativeGrace(s)
    requires m in s.msgs && m in s.used && m in After(s, rest).msgs
    ensures s.msgs[m].expires <= After(s, rest).msgs[m].expires
    decreases |rest|
  {
    if rest != [] {
      var t := Next(s, rest[0]);
      assert GraceStep(rest[0]);
      if m !in t.msgs {
        GoneForGood(t, rest[1..], m);
        assert false;
      }
      assert s.msgs[m].expires <= t.msgs[m].expires;
      ExpiryNeverDecreases(t, rest[1..], m);
    }
  }

  /** The call has written, or may be writing, this expiry, and still has to extend. */
  predicate PendingAt(s: State, o: OpId, a: ClaimId, until: int)
    requires o in s.ops
  {
    && (s.ops[o].stage.Tagging? || s.ops[o].stage.Writing? || s.ops[o].stage.Extending?)
    && s.ops[o].claim == a && s.ops[o].until == until
  }

  ghost predicate ExtensionPending(s: State, a: ClaimId, until: int) {
    exists o | o in s.ops :: PendingAt(s, o, a, until)
  }

  ghost predicate Covered(s: State) {
    forall m, a | HeldBy(s, m, a) ::
      s.msgs[m].until <= s.msgs[m].expires || ExtensionPending(s, a, s.msgs[m].until)
  }

  /** The last part of an extension leaves out no message that matches it and carries the
      expiry of its own call. Nothing is said about other updates, or about earlier parts. */
  predicate Thorough(s: State, step: Step)
    requires Enabled(s, step)
  {
    step.Extend? && step.last ==>
      forall m | m in Targets(s, step.o) && m in s.msgs && s.msgs[m].until == s.ops[step.o].until :: m in step.hit
  }

  predicate ThoroughRun(s: State, steps: seq<Step>)
    requires Possible(s, steps)
    decreases |steps|
  {
    steps == [] || (Thorough(s, steps[0]) && ThoroughRun(Next(s, steps[0]), steps[1..]))
  }

  lemma StepKeepsCovered(s: State, step: Step, m: Mid, a: ClaimId)
    requires Covered(s) && NonNegativeGrace(s) && Enabled(s, step) && Thorough(s, step)
    requires HeldBy(Next(s, step), m, a)
    ensures var t := Next(s, step);
            t.msgs[m].until <= t.msgs[m].expires || ExtensionPending(t, a, t.msgs[m].until)
  {
    var t := Next(s, step);
    if (step.Tag? || step.Write?) && m in step.hit {
      assert PendingAt(t, step.o, a, t.msgs[m].until);
    } else if HeldBy(s, m, a) && s.msgs[m].until > s.msgs[m].expires {
      var o :| o in s.ops && PendingAt(s, o, a, s.msgs[m].until);
      if step.Extend? && step.last && step.o == o {
        assert m in Held(s, a);
        assert m in step.hit;
      } else {
        assert PendingAt(t, o, a, t.msgs[m].until);
      }
    }
  }

  lemma {:induction false} RunKeepsCovered(s: State, steps: seq<Step>)
    requires Covered(s) && NonNegativeGrace(s) && Possible(s, steps) && ThoroughRun(s, steps) && GraceRun(steps)
    ensures Covered(After(s, steps))
    decreases |steps|
  {
    if steps != [] {
      var t := Next(s, steps[0]);
      forall m, a | HeldBy(t, m, a)
        ensures t.msgs[m].until <= t.msgs[m].expires || ExtensionPending(t, a, t.msgs[m].until)
      {
        StepKeepsCovered(s, steps[0], m, a);
      }
      assert GraceStep(steps[0]);
      RunKeepsCovered(t, steps[1..]);
    }
  }

  /**
   In every run with non-negative grace, whatever parts the updates are taken in,
   as long as extensions are thorough: a stored message expires no earlier than
   the claim that holds it, unless a call that writes this very expiry is still
   on its way, even when several renewals run concurrently.
   */
  lemma ClaimedMessagesOutliveTheirClaim(clock: int, steps: seq<Step>, a: ClaimId, m: Mid)
    requires Possible(Init(clock), steps) && ThoroughRun(Init(clock), steps) && GraceRun(steps)
    requires var s := After(Init(clock), steps);
             HeldBy(s, m, a) && forall o | o in s.ops :: !PendingAt(s, o, a, s.msgs[m].until)
    ensures var s := After(Init(clock), steps); s.msgs[m].until <= s.msgs[m].expires
  {
    RunKeepsCovered(Init(clock), steps);
  }

  /** Thoroughness is what it takes: an extension that ends without a message that carries its
      expiry, and that no other call will extend, leaves that message to expire before its claim. */
  lemma ThoroughnessIsNeeded(s: State, step: Step, m: Mid)
    requires Covered(s) && NonNegativeGrace(s) && Enabled(s, step) && step.Extend? && step.last
    requires m in Targets(s, step.o) && s.msgs[m].until == s.ops[step.o].until
    requires forall o | o in s.ops && o != step.o :: !PendingAt(s, o, s.ops[step.o].claim, s.msgs[m].until)
    ensures Covered(Next(s, step)) ==> m in step.hit
  {
    var t := Next(s, step);
    var a := s.ops[step.o].claim;
    if m !in step.hit {
      assert HeldBy(t, m, a) && t.msgs[m] == s.msgs[m];
      forall o | o in t.ops ensures !PendingAt(t, o, a, t.msgs[m].until) {
        assert o == step.o || t.ops[o] == s.ops[o];
      }
      assert !ExtensionPending(t, a, t.msgs[m].until);
    }
  }

  // ---- The same with isolated updates ----

  /** Some call still has to extend what it has written. */
  ghost predicate Extending(s: State, a: ClaimId, until: int) {
    exists o | o in s.ops && s.ops[o].stage.Extending? :: PendingAt(s, o, a, until)
  }

  ghost predicate CoveredAtOnce(s: State) {
    forall m, a | HeldBy(s, m, a) ::
      s.msgs[m].until <= s.msgs[m].expires || Extending(s, a, s.msgs[m].until)
  }

  lemma AtomicStepKeepsCovered(s: State, step: Step)
    requires CoveredAtOnce(s) && NonNegativeGrace(s) && Enabled(s, step) && Atomic(s, step)
    ensures CoveredAtOnce(Next(s, step))
  {
    var t := Next(s, step);
    forall m, a | HeldBy(t, m, a)
      ensures t.msgs[m].until <= t.msgs[m].expires || Extending(t, a, t.msgs[m].until)
    {
      if (step.Tag? || step.Write?) && m in step.hit {
        assert PendingAt(t, step.o, a, t.msgs[m].until);
      } else {
        assert HeldBy(s, m, a);
        if s.msgs[m].until > s.msgs[m].expires {
          var o :| o in s.ops && s.ops[o].stage.Extending? && PendingAt(s, o, a, s.msgs[m].until);
          if step == Extend(o, Targets(s, o), true) {
            assert m in step.hit;
          } else {
            assert PendingAt(t, o, a, t.msgs[m].until);
          }
        }
      }
    }
  }

  lemma {:induction false} AtomicRunKeepsCovered(s: State, steps: seq<Step>)
    requires CoveredAtOnce(s) && NonNegativeGrace(s) && Possible(s, steps) && AtomicRun(s, steps) && GraceRun(steps)
    ensures CoveredAtOnce(After(s, steps))
    decreases |steps|
  {
    if steps != [] {
      AtomicStepKeepsCovered(s, steps[0]);
      assert GraceStep(steps[0]);
      AtomicRunKeepsCovered(Next(s, steps[0]), steps[1..]);
    }
  }

  /** With isolated updates, only extensions that are pending matter: a renewal that has yet
      to write has no effect. */
  lemma IsolatedClaimsAreOutlived(clock: int, steps: seq<Step>, a: ClaimId, m: Mid)
    requires Possible(Init(clock), steps) && AtomicRun(Init(clock), steps) && GraceRun(steps)
    requires var s := After(Init(clock), steps);
             HeldBy(s, m, a) && forall o | o in s.ops :: s.ops[o].claim == a ==> !s.ops[o].stage.Extending?
    ensures var s := After(Init(clock), steps); s.msgs[m].until <= s.msgs[m].expires
  {
    AtomicRunKeepsCovered(Init(clock), steps);
  }

  // ---- A claim stays uniform only with isolated updates ----

  /** The messages of the call's claim already carry the ttl and expiry it writes. */
  ghost predicate SameMeta(s: State, op: Op) {
    forall m | m in Held(s, op.claim) :: s.msgs[m].ttl == op.ttl && s.msgs[m].until == op.until
  }

  /** A renewal that writes only part of its claim keeps it uniform exactly when it changes
      nothing visible: it writes no message or all of them, or what they already carry. */
  lemma PartialWriteUniformIff(s: State, o: OpId, hit: set<Mid>, last: bool)
    requires Uniform(s) && Enabled(s, Write(o, hit, last))
    ensures var op := s.ops[o];
            Uniform(Next(s, Write(o, hit, last))) <==>
              (hit == {} || hit == Held(s, op.claim)
               || SameMeta(s, op))
  {
    var t := Next(s, Write(o, hit, last));
    var op := s.ops[o];
    var rest := Held(s, op.claim) - hit;
    if rest == {} {
      forall z | z in Held(s, op.claim) ensures z in hit { assert z !in rest; }
      assert hit == Held(s, op.claim);
    }
    if hit != {} && rest != {} {
      var x :| x in hit;
      var y :| y in rest;
      assert HeldBy(t, x, op.claim) && HeldBy(t, y, op.claim);
      assert HeldBy(s, x, op.claim) && HeldBy(s, y, op.claim);
      if Uniform(t) {
        forall m | m in Held(s, op.claim) ensures s.msgs[m].ttl == op.ttl && s.msgs[m].until == op.until {
          assert HeldBy(s, m, op.claim);
        }
      }
    }
    if hit == {} || rest == {} || SameMeta(s, op) {
      forall m, n, a | HeldBy(t, m, a) && HeldBy(t, n, a)
        ensures t.msgs[m].ttl == t.msgs[n].ttl && t.msgs[m].until == t.msgs[n].until
      {
        assert HeldBy(s, m, a) && HeldBy(s, n, a);
        if a == op.claim {
          assert m in Held(s, a) && n in Held(s, a);
        } else {
          assert m !in hit && n !in hit;
        }
      }
    }
  }

  /** Two renewals of one claim that interleave their writes leave it split for good,
      although each of them writes every message of the claim exactly once. */
  lemma InterleavedRenewalsSplit(s: State, a: ClaimId, m: Mid, n: Mid, x: OpId, y: OpId)
    requires HeldBy(s, m, a) && HeldBy(s, n, a) && m != n && x != y
    requires At(s, x, Renew) && s.ops[x].claim == a && s.ops[x].stage.Writing?
    requires At(s, y, Renew) && s.ops[y].claim == a && s.ops[y].stage.Writing?
    requires s.ops[x].until != s.ops[y].until
    ensures var all := Held(s, a);
            var steps := [Write(x, {m}, false)] + ([Write(y, all, true)] + ([Write(x, all - {m}, true)] + []));
            Possible(s, steps) && !Uniform(After(s, steps))
  {
    var all := Held(s, a);
    assert m in all && n in all;
    var t := Next(s, Write(x, {m}, false));
    assert Held(t, a) == all;
    var u := Next(t, Write(y, all, true));
    assert Held(u, a) == all;
    var v := Next(u, Write(x, all - {m}, true));
    Cons(u, Write(x, all - {m}, true), []);
    Cons(t, Write(y, all, true), [Write(x, all - {m}, true)] + []);
    Cons(s, Write(x, {m}, false), [Write(y, all, true)] + ([Write(x, all - {m}, true)] + []));
    assert HeldBy(v, m, a) && HeldBy(v, n, a);
    assert v.msgs[m].until == s.ops[y].until && v.msgs[n].until == s.ops[x].until;
  }

  // ---- That start is reachable ----

  /** Two messages, both held by claim 0. */
  function ClaimedPair(clock: int, ttl: int): map<Mid, Message> {
    var m := Message(Some(0), ttl, clock + ttl, clock + ttl, ttl);
    map[0 := m, 1 := m]
  }

  function Creation(clock: int, ttl: int, stage: Stage): Op {
    Op(Create, 0, ttl, 0, clock + ttl, 0, {0, 1}, stage)
  }

  /** Claim 0 has just been created on two messages. */
  function PairCreated(clock: int, ttl: int): State {
    State(clock, ClaimedPair(clock, ttl), {0, 1}, map[0 := Creation(clock, ttl, Done)])
  }

  /** Two messages have arrived and a creation has selected them. */
  function PairSelected(clock: int, ttl: int): State {
    var m := Message(None, 0, clock, clock + ttl, ttl);
    State(clock, map[0 := m, 1 := m], {0, 1}, map[0 := Creation(clock, ttl, Stage.Selected)])
  }

  lemma SelectionRuns(clock: int, ttl: int, rest: seq<Step>)
    requires Possible(PairSelected(clock, ttl), rest)
    ensures var run := [Arrive(0, ttl)] + ([Arrive(1, ttl)] +
                       ([BeginCreate(0, 0, ttl, 0, 0)] + ([Select(0, {0, 1}, clock)] + rest)));
            && Possible(Init(clock), run)
            && After(Init(clock), run) == After(PairSelected(clock, ttl), rest)
  {
    var s1 := Next(Init(clock), Arrive(0, ttl));
    var s2 := Next(s1, Arrive(1, ttl));
    var s3 := Next(s2, BeginCreate(0, 0, ttl, 0, 0));
    assert Active(s3, clock) == {0, 1};
    assert Next(s3, Select(0, {0, 1}, clock)) == PairSelected(clock, ttl);
    Cons(s3, Select(0, {0, 1}, clock), rest);
    var r := [Select(0, {0, 1}, clock)] + rest;
    Cons(s2, BeginCreate(0, 0, ttl, 0, 0), r);
    r := [BeginCreate(0, 0, ttl, 0, 0)] + r;
    Cons(s1, Arrive(1, ttl), r);
    Cons(Init(clock), Arrive(0, ttl), [Arrive(1, ttl)] + r);
  }

  lemma TaggingRuns(clock: int, ttl: int, rest: seq<Step>)
    requires Possible(PairCreated(clock, ttl), rest)
    ensures var run := [ReadClock(0)] + ([Tag(0, {0, 1}, true)] + ([Extend(0, {}, true)] + rest));
            && Possible(PairSelected(clock, ttl), run)
            && After(PairSelected(clock, ttl), run) == After(PairCreated(clock, ttl), rest)
  {
    var s4 := PairSelected(clock, ttl);
    var s5 := Next(s4, ReadClock(0));
    assert Active(s5, clock) == {0, 1};
    var s6 := Next(s5, Tag(0, {0, 1}, true));
    assert s6.msgs == ClaimedPair(clock, ttl);
    assert Prolong(s6.msgs, {}, clock + ttl, ttl) == s6.msgs;
    assert Next(s6, Extend(0, {}, true)) == PairCreated(clock, ttl);
    Cons(s6, Extend(0, {}, true), rest);
    var r := [Extend(0, {}, true)] + rest;
    Cons(s5, Tag(0, {0, 1}, true), r);
    Cons(s4, ReadClock(0), [Tag(0, {0, 1}, true)] + r);
  }

  function Renewal(clock: int, ttl: int, stage: Stage): Op {
    Op(Renew, 0, ttl, 0, clock + ttl, 0, {}, stage)
  }

  /** Two renewals of claim 0 have passed their checks. */
  function PairRenewed(clock: int, ttl: int, x: int, y: int): State {
    PairCreated(clock, ttl).(ops := map[0 := Creation(clock, ttl, Done),
                                        1 := Renewal(clock, x, Writing), 2 := Renewal(clock, y, Writing)])
  }

  lemma RenewalRuns(clock: int, ttl: int, x: int, y: int, rest: seq<Step>)
    requires ttl > 0 && Possible(PairRenewed(clock, ttl, x, y), rest)
    ensures var run := [BeginRenew(1, 0, x, 0)] + ([BeginRenew(2, 0, y, 0)] + ([Check(1)] + ([Check(2)] + rest)));
            && Possible(PairCreated(clock, ttl), run)
            && After(PairCreated(clock, ttl), run) == After(PairRenewed(clock, ttl, x, y), rest)
  {
    var s7 := PairCreated(clock, ttl);
    var s8 := Next(s7, BeginRenew(1, 0, x, 0));
    assert Next(s8, BeginRenew(2, 0, y, 0)) == PairAsked(clock, ttl, x, y);
    ChecksRun(clock, ttl, x, y, rest);
    var r := [Check(1)] + ([Check(2)] + rest);
    Cons(s8, BeginRenew(2, 0, y, 0), r);
    Cons(s7, BeginRenew(1, 0, x, 0), [BeginRenew(2, 0, y, 0)] + r);
  }

  /** The two renewals have begun. */
  function PairAsked(clock: int, ttl: int, x: int, y: int): State {
    PairCreated(clock, ttl).(ops := map[0 := Creation(clock, ttl, Done), 1 := Renewal(clock, x, Checking(clock)),
                                        2 := Renewal(clock, y, Checking(clock))])
  }

  lemma ChecksRun(clock: int, ttl: int, x: int, y: int, rest: seq<Step>)
    requires ttl > 0 && Possible(PairRenewed(clock, ttl, x, y), rest)
    ensures var run := [Check(1)] + ([Check(2)] + rest);
            && Possible(PairAsked(clock, ttl, x, y), run)
            && After(PairAsked(clock, ttl, x, y), run) == After(PairRenewed(clock, ttl, x, y), rest)
  {
    var s9 := PairAsked(clock, ttl, x, y);
    assert HeldBy(s9, 0, 0);
    var s10 := Next(s9, Check(1));
    assert HeldBy(s10, 0, 0);
    assert Next(s10, Check(2)) == PairRenewed(clock, ttl, x, y);
    Cons(s10, Check(2), rest);
    Cons(s9, Check(1), [Check(2)] + rest);
  }

  /** From an empty queue, for all ttls: two messages, one claim and two renewals with
      different ttls reach a claim whose messages disagree. */
  lemma SplitClaimIsReached(clock: int, ttl: int, x: int, y: int) returns (steps: seq<Step>)
    requires ttl > 0 && x != y
    ensures Possible(Init(clock), steps) && !Uniform(After(Init(clock), steps))
  {
    var s := PairRenewed(clock, ttl, x, y);
    assert HeldBy(s, 0, 0) && HeldBy(s, 1, 0);
    InterleavedRenewalsSplit(s, 0, 0, 1, 1, 2);
    var all := Held(s, 0);
    var writes := [Write(1, {0}, false)] + ([Write(2, all, true)] + ([Write(1, all - {0}, true)] + []));
    RenewalRuns(clock, ttl, x, y, writes);
    var r := [BeginRenew(1, 0, x, 0)] + ([BeginRenew(2, 0, y, 0)] + ([Check(1)] + ([Check(2)] + writes)));
    TaggingRuns(clock, ttl, r);
    r := [ReadClock(0)] + ([Tag(0, {0, 1}, true)] + ([Extend(0, {}, true)] + r));
    SelectionRuns(clock, ttl, r);
    steps := [Arrive(0, ttl)] + ([Arrive(1, ttl)] +
             ([BeginCreate(0, 0, ttl, 0, 0)] + ([Select(0, {0, 1}, clock)] + r)));
  }
}
