/** Weighted selection of a pool. */
module Weighted {
  import opened Wrappers

  /** What a weight contributes to the spectrum: objects of weight zero or less are skipped. */
  function Share(w: int): nat {
    if w <= 0 then 0 else w
  }

  /** The running totals of the shares, starting from zero. */
  function Totals(weights: seq<int>): (t: seq<nat>)
    ensures Ascends(t, weights)
  {
    if weights == [] then [0]
    else
      var m := |weights| - 1;
      var t := Totals(weights[..m]);
      TotalsGrow(t, weights);
      t + [t[m] + Share(weights[m])]
  }

  lemma TotalsGrow(t: seq<nat>, weights: seq<int>)
    requires weights != [] && Ascends(t, weights[..|weights| - 1])
    ensures Ascends(t + [t[|weights| - 1] + Share(weights[|weights| - 1])], weights)
  {
    var m := |weights| - 1;
    var r := t + [t[m] + Share(weights[m])];
    forall i | 0 <= i <= m ensures Adds(r, weights, i) {
      if i < m { assert Adds(t, weights[..m], i); }
    }
  }

  function Total(weights: seq<int>): nat {
    Totals(weights)[|weights|]
  }

  predicate Adds(t: seq<nat>, weights: seq<int>, i: int) {
    0 <= i < |weights| && i + 1 < |t| && t[i + 1] == t[i] + Share(weights[i])
  }

  predicate Ascends(t: seq<nat>, weights: seq<int>) {
    |t| == |weights| + 1 && t[0] == 0 && forall i | 0 <= i < |weights| :: Adds(t, weights, i)
  }

  lemma {:induction false} TotalsMonotone(t: seq<nat>, weights: seq<int>, i: nat, j: nat)
    requires Ascends(t, weights) && i <= j <= |weights|
    ensures t[i] <= t[j]
    decreases j - i
  {
    if i < j {
      TotalsMonotone(t, weights, i, j - 1);
      assert Adds(t, weights, j - 1);
    }
  }

  /** The i-th object owns the half-open interval of selectors between the totals before
      and after it. */
  predicate Owns(weights: seq<int>, i: nat, selector: int)
    requires i < |weights|
  {
    Totals(weights)[i] <= selector < Totals(weights)[i + 1]
  }

  /** Intervals of different objects are disjoint. */
  lemma OwnerIsUnique(weights: seq<int>, i: nat, j: nat, selector: int)
    requires i < |weights| && j < |weights| && Owns(weights, i, selector) && Owns(weights, j, selector)
    ensures i == j
  {
    var t := Totals(weights);
    if i < j { TotalsMonotone(t, weights, i + 1, j); }
    if j < i { TotalsMonotone(t, weights, j + 1, i); }
  }

  /** One row of the lookup table: an object with positive weight and its upper end. */
  predicate IsRow(t: seq<nat>, weights: seq<int>, row: (nat, int), lower: int) {
    row.0 < |weights| && row.0 + 1 < |t| && weights[row.0] > 0 && t[row.0] == lower && t[row.0 + 1] == row.1
  }

  /** Where the row before the j-th ends. */
  function Lower(lookup: seq<(nat, int)>, j: nat): int
    requires j <= |lookup|
  {
    if j == 0 then 0 else lookup[j - 1].1
  }

  ghost predicate IsTable(t: seq<nat>, weights: seq<int>, lookup: seq<(nat, int)>) {
    forall j | 0 <= j < |lookup| :: IsRow(t, weights, lookup[j], Lower(lookup, j))
  }

  lemma TableSnoc(t: seq<nat>, weights: seq<int>, lookup: seq<(nat, int)>, row: (nat, int))
    requires IsTable(t, weights, lookup) && IsRow(t, weights, row, Lower(lookup, |lookup|))
    ensures IsTable(t, weights, lookup + [row]) && Lower(lookup + [row], |lookup| + 1) == row.1
  {
    var grown := lookup + [row];
    forall j | 0 <= j < |grown| ensures IsRow(t, weights, grown[j], Lower(grown, j)) {
      if j < |lookup| {
        assert IsRow(t, weights, lookup[j], Lower(lookup, j));
        assert Lower(grown, j) == Lower(lookup, j);
      }
    }
  }

  /** The first loop: the table of the objects with positive weight. */
  method Spectrum(weights: seq<int>, ghost t: seq<nat>) returns (lookup: seq<(nat, int)>, acc: int)
    requires Ascends(t, weights)
    ensures acc == t[|weights|] && IsTable(t, weights, lookup) && Lower(lookup, |lookup|) == acc
    ensures lookup == [] <==> acc == 0
  {
    acc, lookup := 0, [];
    for i := 0 to |weights|
      invariant acc == t[i] && acc == Lower(lookup, |lookup|)
      invariant lookup == [] <==> acc == 0
      invariant IsTable(t, weights, lookup)
    {
      assert Adds(t, weights, i);
      if weights[i] <= 0 {
        continue;
      }
      TableSnoc(t, weights, lookup, (i, acc + weights[i]));
      acc := acc + weights[i];
      lookup := lookup + [(i, acc)];
    }
  }

  /** The second loop: the first row whose interval holds the selector. */
  method Scan(lookup: seq<(nat, int)>, selector: int) returns (j: nat)
    ensures j <= |lookup|
    ensures j < |lookup| ==> Lower(lookup, j) <= selector < lookup[j].1
    ensures j == |lookup| ==> |lookup| == 0 || selector < 0 || Lower(lookup, |lookup|) <= selector
  {
    var lower := 0;
    for i := 0 to |lookup|
      invariant lower == Lower(lookup, i)
      invariant i > 0 ==> selector < 0 || lower <= selector
    {
      if lower <= selector < lookup[i].1 {
        return i;
      }
      lower := lookup[i].1;
    }
    j := |lookup|;
  }

  /**
   `weighted`: build the spectrum of the objects with positive weight, draw a
   selector from it, and scan for the interval it falls in. The result is the
   index of the chosen object; None if there is nothing to choose from, or if
   the generator leaves the range it was given.
   */
  method Select(weights: seq<int>, generator: (int, int) -> int) returns (chosen: Option<nat>)
    ensures Total(weights) == 0 ==> chosen == None
    ensures Total(weights) > 0 ==>
              var selector := generator(0, Total(weights) - 1);
              && (0 <= selector < Total(weights) <==> chosen.Some?)
              && (chosen.Some? ==> chosen.value < |weights| && weights[chosen.value] > 0
                                   && Owns(weights, chosen.value, selector))
  {
    ghost var t := Totals(weights);
    var lookup, acc := Spectrum(weights, t);
    if lookup == [] {
      return None;
    }
    var selector := generator(0, acc - 1);
    var j := Scan(lookup, selector);
    if j < |lookup| {
      assert IsRow(t, weights, lookup[j], Lower(lookup, j));
      TotalsMonotone(t, weights, lookup[j].0 + 1, |weights|);
      return Some(lookup[j].0);
    }
    chosen := None;
  }

  lemma {:induction false} TotalPositiveIff(weights: seq<int>)
    ensures Total(weights) > 0 <==> exists i | 0 <= i < |weights| :: weights[i] > 0
  {
    PositiveUpTo(Totals(weights), weights, |weights|);
  }

  lemma {:induction false} PositiveUpTo(t: seq<nat>, weights: seq<int>, n: nat)
    requires Ascends(t, weights) && n <= |weights|
    ensures t[n] > 0 <==> exists i | 0 <= i < n :: weights[i] > 0
    decreases n
  {
    if n > 0 {
      PositiveUpTo(t, weights, n - 1);
      assert Adds(t, weights, n - 1);
    }
  }

  // ---- Fairness ----

  /** The selectors of the spectrum that choose object i. */
  function Selectors(weights: seq<int>, i: nat): set<int>
    requires i < |weights|
  {
    set x | 0 <= x < Total(weights) && Owns(weights, i, x)
  }

  function Range(lo: int, hi: int): (r: set<int>)
    ensures forall x :: x in r <==> lo <= x < hi
    decreases hi - lo
  {
    if lo >= hi then {} else Range(lo, hi - 1) + {hi - 1}
  }

  lemma {:induction false} RangeSize(lo: int, hi: int)
    requires lo <= hi
    ensures |Range(lo, hi)| == hi - lo
    decreases hi - lo
  {
    if lo < hi {
      RangeSize(lo, hi - 1);
      assert Range(lo, hi) == Range(lo, hi - 1) + {hi - 1};
    }
  }

  /** Each object is chosen by exactly as many selectors as its weight. */
  lemma ChosenInProportion(weights: seq<int>, i: nat)
    requires i < |weights|
    ensures |Selectors(weights, i)| == if weights[i] > 0 then weights[i] else 0
  {
    var t := Totals(weights);
    TotalsMonotone(t, weights, i + 1, |weights|);
    assert Adds(t, weights, i);
    forall x ensures x in Selectors(weights, i) <==> x in Range(t[i], t[i + 1]) {
      assert Owns(weights, i, x) <==> t[i] <= x < t[i + 1];
    }
    assert Selectors(weights, i) == Range(t[i], t[i + 1]);
    RangeSize(t[i], t[i + 1]);
  }

  /** And every selector chooses some object. */
  lemma SomeoneIsChosen(weights: seq<int>, selector: int) returns (i: nat)
    requires 0 <= selector < Total(weights)
    ensures i < |weights| && selector in Selectors(weights, i)
  {
    i := OwnerUpTo(Totals(weights), weights, |weights|, selector);
  }

  lemma {:induction false} OwnerUpTo(t: seq<nat>, weights: seq<int>, n: nat, selector: int) returns (i: nat)
    requires Ascends(t, weights) && n <= |weights| && 0 <= selector < t[n]
    ensures i < n && t[i] <= selector < t[i + 1]
    decreases n
  {
    if t[n - 1] <= selector {
      i := n - 1;
    } else {
      i := OwnerUpTo(t, weights, n - 1, selector);
    }
  }
}
