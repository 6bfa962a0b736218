/** Listings in id order, paged by "everything after this marker". */
module Paging {
  import opened Wrappers

  predicate Sorted(ids: seq<int>) {
    forall i: nat, j: nat | i < j < |ids| :: Ascend(ids, i, j)
  }

  predicate Ascend(ids: seq<int>, i: nat, j: nat)
    requires i < |ids| && j < |ids|
  {
    ids[i] < ids[j]
  }

  lemma SortedRest(ids: seq<int>)
    requires Sorted(ids) && ids != []
    ensures Sorted(ids[1..]) && forall i | 0 <= i < |ids[1..]| :: ids[0] < ids[1..][i]
  {
    var rest := ids[1..];
    forall i: nat, j: nat | i < j < |rest| ensures Ascend(rest, i, j) {
      assert Ascend(ids, i + 1, j + 1);
    }
    forall i | 0 <= i < |rest| ensures ids[0] < rest[i] {
      assert Ascend(ids, 0, i + 1);
    }
  }

  /** What a listing from the marker has to offer. */
  function Tail(ids: seq<int>, marker: Option<int>): (r: seq<int>)
    ensures |r| <= |ids|
  {
    if ids == [] || marker.None? || marker.value < ids[0] then ids else Tail(ids[1..], marker)
  }

  /** The flat specification all paged loops must meet. */
  function Filter(ids: seq<int>, keep: set<int>): (r: seq<int>)
    ensures |r| <= |ids|
  {
    if ids == [] then [] else (if ids[0] in keep then [ids[0]] else []) + Filter(ids[1..], keep)
  }

  lemma {:induction false} FilterConcat(a: seq<int>, b: seq<int>, keep: set<int>)
    ensures Filter(a + b, keep) == Filter(a, keep) + Filter(b, keep)
    decreases |a|
  {
    if a == [] {
      assert a + b == b;
    } else {
      assert (a + b)[0] == a[0] && (a + b)[1..] == a[1..] + b;
      FilterConcat(a[1..], b, keep);
      var head := if a[0] in keep then [a[0]] else [];
      assert head + (Filter(a[1..], keep) + Filter(b, keep)) == (head + Filter(a[1..], keep)) + Filter(b, keep);
    }
  }

  lemma FilterSnoc(a: seq<int>, x: int, keep: set<int>)
    ensures Filter(a + [x], keep) == Filter(a, keep) + (if x in keep then [x] else [])
  {
    FilterConcat(a, [x], keep);
    assert [x][1..] == [];
  }

  /** The filtered listing holds exactly the wanted ids, in order, each once. */
  lemma {:induction false} FilterExact(ids: seq<int>, keep: set<int>)
    requires Sorted(ids)
    ensures Sorted(Filter(ids, keep))
    ensures forall x :: x in Filter(ids, keep) <==> x in ids && x in keep
    decreases |ids|
  {
    if ids != [] {
      var rest := ids[1..];
      SortedRest(ids);
      FilterExact(rest, keep);
      assert ids == [ids[0]] + rest;
      var more := Filter(rest, keep);
      forall i | 0 <= i < |more| ensures ids[0] < more[i] {
        FilterWithin(rest, keep, i);
      }
      if ids[0] in keep { SortedCons(ids[0], more); } else { assert Filter(ids, keep) == more; }
    }
  }

  lemma {:induction false} FilterWithin(ids: seq<int>, keep: set<int>, i: nat)
    requires i < |Filter(ids, keep)|
    ensures exists j | 0 <= j < |ids| :: ids[j] == Filter(ids, keep)[i]
    decreases |ids|
  {
    var head := if ids[0] in keep then [ids[0]] else [];
    var more := Filter(ids[1..], keep);
    assert Filter(ids, keep) == head + more;
    if i < |head| {
      assert ids[0] == Filter(ids, keep)[i];
    } else {
      FilterWithin(ids[1..], keep, i - |head|);
      var j :| 0 <= j < |ids[1..]| && ids[1..][j] == more[i - |head|];
      assert ids[j + 1] == Filter(ids, keep)[i];
    }
  }

  lemma SortedCons(x: int, rest: seq<int>)
    requires Sorted(rest) && forall i | 0 <= i < |rest| :: x < rest[i]
    ensures Sorted([x] + rest)
  {
    forall i: nat, j: nat | i < j < |[x] + rest| ensures Ascend([x] + rest, i, j) {
      if i > 0 { assert Ascend(rest, i - 1, j - 1); }
    }
  }

  /** Continuing from the i-th id of a listing drops exactly the first i. */
  lemma {:induction false} TailContinues(ids: seq<int>, marker: Option<int>, i: nat)
    requires Sorted(ids) && 0 < i <= |Tail(ids, marker)|
    ensures Tail(ids, Some(Tail(ids, marker)[i - 1])) == Tail(ids, marker)[i..]
    decreases |ids|
  {
    if ids == [] || marker.None? || marker.value < ids[0] {
      TailFromMember(ids, i);
    } else {
      SortedRest(ids);
      TailContinues(ids[1..], marker, i);
      TailWithin(ids[1..], marker, i - 1);
    }
  }

  /** A page and the listing that continues after it make up the whole listing. */
  lemma FilterContinues(ids: seq<int>, marker: Option<int>, i: nat, keep: set<int>)
    requires Sorted(ids) && 0 < i <= |Tail(ids, marker)|
    ensures var all := Tail(ids, marker);
            var rest := Tail(ids, Some(all[i - 1]));
            Filter(all, keep) == Filter(all[..i], keep) + Filter(rest, keep) && |rest| == |all| - i
  {
    var all := Tail(ids, marker);
    TailContinues(ids, marker, i);
    assert all == all[..i] + all[i..];
    FilterConcat(all[..i], all[i..], keep);
  }

  lemma {:induction false} TailWithin(ids: seq<int>, marker: Option<int>, i: nat)
    requires i < |Tail(ids, marker)|
    ensures Tail(ids, marker)[i] in ids
    decreases |ids|
  {
    if !(ids == [] || marker.None? || marker.value < ids[0]) {
      TailWithin(ids[1..], marker, i);
    }
  }

  lemma {:induction false} TailFromMember(ids: seq<int>, i: nat)
    requires Sorted(ids) && 0 < i <= |ids|
    ensures Tail(ids, Some(ids[i - 1])) == ids[i..]
    decreases |ids|
  {
    var rest := ids[1..];
    SortedRest(ids);
    assert i > 1 ==> ids[i - 1] == rest[i - 2];
    assert Tail(ids, Some(ids[i - 1])) == Tail(rest, Some(ids[i - 1]));
    if i > 1 {
      TailFromMember(rest, i - 1);
    }
  }

  /** A listing offers exactly the ids after the marker. */
  lemma {:induction false} TailExact(ids: seq<int>, marker: Option<int>, x: int)
    requires Sorted(ids)
    ensures x in Tail(ids, marker) <==> x in ids && (marker.None? || marker.value < x)
    decreases |ids|
  {
    if ids != [] {
      SortedRest(ids);
      assert x in ids <==> x == ids[0] || x in ids[1..];
      if x in ids[1..] {
        var i :| 0 <= i < |ids[1..]| && ids[1..][i] == x;
      }
      if marker.Some? && ids[0] <= marker.value { TailExact(ids[1..], marker, x); }
    }
  }

  /** So a filtered one offers exactly the wanted ids after the marker. */
  lemma FilteredTailExact(ids: seq<int>, marker: Option<int>, keep: set<int>, x: int)
    requires Sorted(ids)
    ensures x in Filter(Tail(ids, marker), keep) <==> x in ids && x in keep && (marker.None? || marker.value < x)
  {
    TailExact(ids, marker, x);
    FilterMembers(Tail(ids, marker), keep, x);
  }

  lemma {:induction false} FilterMembers(ids: seq<int>, keep: set<int>, x: int)
    ensures x in Filter(ids, keep) <==> x in ids && x in keep
    decreases |ids|
  {
    if ids != [] {
      FilterMembers(ids[1..], keep, x);
      assert x in ids <==> x == ids[0] || x in ids[1..];
    }
  }
}
