/** Numbers in and outside of finite sets: the least element, which a sorted cursor yields
    first, and one that is not in use. */
module NatSets {

  lemma {:induction false} FindLeast(ks: set<nat>) returns (k: nat)
    requires ks != {}
    ensures k in ks && forall j | j in ks :: k <= j
    decreases ks
  {
    var x :| x in ks;
    var rest := ks - {x};
    if rest == {} {
      k := x;
      assert forall j | j in ks :: j == x || j in rest;
    } else {
      var m := FindLeast(rest);
      k := if m < x then m else x;
      assert forall j | j in ks :: j == x || j in rest;
    }
  }

  function Least(ks: set<nat>): (k: nat)
    requires ks != {}
    ensures k in ks && forall j | j in ks :: k <= j
  {
    assert exists k | k in ks :: forall j | j in ks :: k <= j by {
      var k := FindLeast(ks);
    }
    var k :| k in ks && forall j | j in ks :: k <= j;
    k
  }

  /** Some number is not in the set. */
  lemma {:induction false} FreshNat(used: set<nat>) returns (x: nat)
    ensures forall y | y in used :: y < x
    decreases used
  {
    if used == {} {
      x := 0;
    } else {
      var y :| y in used;
      var z := FreshNat(used - {y});
      x := if z <= y then y + 1 else z;
      assert forall w | w in used :: w == y || w in used - {y};
    }
  }
}
