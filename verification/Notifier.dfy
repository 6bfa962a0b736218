/** The notifier's loop over the subscriptions of a queue, page by page. */
module Notifier {
  import opened Wrappers
  import opened Paging

  /** A stored subscription; `confirmed` may be missing in old documents. */
  datatype Subscription = Subscription(subscriber: string, confirmed: Option<bool>)

  /** How the driver was set up. */
  datatype Controller = Missing | Pooled | Direct

  class NotifierDriver {
    const controller: Controller
    const requireConfirmation: bool
    const pageLimit: nat
    const ids: seq<int>                          // subscription ids of the queue, sorted
    const subscriptions: map<int, Subscription>
    var dispatched: seq<int>                     // the tasks submitted, in order

    ghost predicate Valid()
      reads this
    {
      Sorted(ids) && pageLimit > 0 && forall id | id in ids :: id in subscriptions
    }

    constructor (controller: Controller, requireConfirmation: bool, pageLimit: nat,
                 ids: seq<int>, subscriptions: map<int, Subscription>)
      requires Sorted(ids) && pageLimit > 0 && forall id | id in ids :: id in subscriptions
      ensures Valid() && dispatched == []
      ensures this.controller == controller && this.requireConfirmation == requireConfirmation
      ensures this.ids == ids && this.subscriptions == subscriptions
    {
      this.controller, this.requireConfirmation, this.pageLimit := controller, requireConfirmation, pageLimit;
      this.ids, this.subscriptions, this.dispatched := ids, subscriptions, [];
    }

    /** The subscriptions that are confirmed or need no confirmation. */
    function Deliverable(): set<int> {
      set id | id in subscriptions && (!requireConfirmation || subscriptions[id].confirmed != Some(false))
    }

    /** `subscription_controller.list`: a cursor over the subscriptions after the marker, in
        id order and up to the limit; the marker follows the record that was read last. */
    method ListPage(marker: Option<int>) returns (page: seq<int>, next: Option<int>)
      requires Sorted(ids) && pageLimit > 0
      ensures page == Take(Tail(ids, marker), pageLimit) && IsLast(page, next)
    {
      page, next := [], None;
      var i := 0;
      CursorStarts(ids, marker);
      while i < |ids| && |page| < pageLimit
        invariant i <= |ids| && |page| <= pageLimit
        invariant CursorAt(ids, marker, page, i) && IsLast(page, next)
      {
        CursorMoves(ids, marker, page, i);
        if marker.None? || marker.value < ids[i] {
          page, next := page + [ids[i]], Some(ids[i]);
        }
        i := i + 1;
      }
      CursorStops(ids, marker, page, i, pageLimit);
    }

    /** What is still to be dispatched when the loop has reached the marker. */
    function Left(marker: Option<int>): seq<int> {
      Filter(Tail(ids, marker), Deliverable())
    }

    /** `post`: every deliverable subscription is dispatched to once, in id order, and no other. */
    method Post()
      requires Valid()
      modifies this`dispatched
      ensures dispatched ==
                old(dispatched) + (if controller.Direct? then Filter(ids, Deliverable()) else [])
    {
      if !controller.Direct? {
        return;
      }
      var marker := None;
      while true
        invariant dispatched + Left(marker) == old(dispatched) + Left(None)
        decreases |Tail(ids, marker)|
      {
        var next := DispatchFrom(marker);
        if next.None? {
          break;
        }
        marker := next;
      }
    }

    /** One round of the loop. */
    method DispatchFrom(marker: Option<int>) returns (next: Option<int>)
      requires Valid()
      modifies this`dispatched
      ensures next.Some? ==> |Tail(ids, next)| < |Tail(ids, marker)|
      ensures dispatched + (if next.None? then [] else Left(next)) == old(dispatched) + Left(marker)
    {
      var page;
      page, next := ListPage(marker);
      RoundAddsUp(dispatched, ids, marker, page, next, pageLimit, Deliverable());
      DispatchPage(page);
    }

    /** The loop over the subscriptions of one page. */
    method DispatchPage(page: seq<int>)
      requires Valid()
      modifies this`dispatched
      ensures dispatched == old(dispatched) + Filter(page, Deliverable())
    {
      for i := 0 to |page|
        invariant dispatched == old(dispatched) + Filter(page[..i], Deliverable())
      {
        assert page[..i + 1] == page[..i] + [page[i]];
        FilterSnoc(page[..i], page[i], Deliverable());
        if page[i] in subscriptions {
          var sub := subscriptions[page[i]];
          if requireConfirmation && sub.confirmed == Some(false) {
            continue;
          }
          dispatched := dispatched + [page[i]];
        }
      }
      assert page[..|page|] == page;
    }
  }

  /** The marker is the id of the page's last record. */
  predicate IsLast(page: seq<int>, next: Option<int>) {
    next == if page == [] then None else Some(page[|page| - 1])
  }

  /** The cursor has passed the first i ids and yielded the page; the rest is still to come. */
  ghost predicate CursorAt(ids: seq<int>, marker: Option<int>, page: seq<int>, i: nat)
    requires i <= |ids|
  {
    Tail(ids, marker) == page + Tail(ids[i..], marker)
  }

  lemma CursorStarts(ids: seq<int>, marker: Option<int>)
    ensures CursorAt(ids, marker, [], 0)
  {
    assert ids[0..] == ids;
  }

  /** The cursor yields the record at i, or skips it if it is not past the marker. */
  lemma CursorMoves(ids: seq<int>, marker: Option<int>, page: seq<int>, i: nat)
    requires Sorted(ids) && i < |ids| && CursorAt(ids, marker, page, i)
    ensures CursorAt(ids, marker, if marker.None? || marker.value < ids[i] then page + [ids[i]] else page, i + 1)
    ensures IsLast(page + [ids[i]], Some(ids[i]))
  {
    var rest := ids[i + 1..];
    assert ids[i..] == [ids[i]] + rest;
    if marker.None? || marker.value < ids[i] {
      if rest != [] { assert Ascend(ids, i, i + 1); }
      Regroup(page, [ids[i]], rest, ids[i..]);
    } else {
      assert ids[i..][1..] == rest;
    }
  }

  lemma CursorStops(ids: seq<int>, marker: Option<int>, page: seq<int>, i: nat, limit: nat)
    requires i <= |ids| && |page| <= limit && CursorAt(ids, marker, page, i)
    requires i == |ids| || |page| == limit
    ensures page == Take(Tail(ids, marker), limit)
  {
    if i == |ids| {
      assert ids[i..] == [] && page + [] == page;
    } else {
      assert (page + Tail(ids[i..], marker))[..limit] == page;
    }
  }

  /** A page takes its part of what is left to dispatch; only the end of the listing is empty. */
  lemma PageSplits(ids: seq<int>, marker: Option<int>, limit: nat, keep: set<int>)
    requires Sorted(ids) && limit > 0
    ensures var page := Take(Tail(ids, marker), limit);
            if page == [] then Filter(Tail(ids, marker), keep) == [] && Filter(page, keep) == [] else
              var rest := Tail(ids, Some(page[|page| - 1]));
              && |rest| < |Tail(ids, marker)|
              && Filter(Tail(ids, marker), keep) == Filter(page, keep) + Filter(rest, keep)
  {
    var all := Tail(ids, marker);
    var page := Take(all, limit);
    if page != [] {
      assert all[..|page|] == page;
      FilterContinues(ids, marker, |page|, keep);
    }
  }

  lemma RoundAddsUp(sent: seq<int>, ids: seq<int>, marker: Option<int>, page: seq<int>, next: Option<int>,
                    limit: nat, keep: set<int>)
    requires Sorted(ids) && limit > 0 && page == Take(Tail(ids, marker), limit)
    requires IsLast(page, next)
    ensures next.Some? ==> |Tail(ids, next)| < |Tail(ids, marker)|
    ensures (sent + Filter(page, keep)) + (if next.None? then [] else Filter(Tail(ids, next), keep))
         == sent + Filter(Tail(ids, marker), keep)
  {
    PageSplits(ids, marker, limit, keep);
    var rest := if next.None? then [] else Filter(Tail(ids, next), keep);
    Regroup(sent, Filter(page, keep), rest, Filter(Tail(ids, marker), keep));
  }

  lemma Regroup(a: seq<int>, b: seq<int>, c: seq<int>, bc: seq<int>)
    requires bc == b + c
    ensures (a + b) + c == a + bc
  {
  }

  /** What that means: the dispatched ids are the deliverable ones, each exactly once. */
  lemma DispatchedOnceEach(driver: NotifierDriver)
    requires driver.Valid()
    ensures var sent := Filter(driver.ids, driver.Deliverable());
            && (forall id :: id in sent <==>
                  && id in driver.ids
                  && (driver.requireConfirmation ==>
                        driver.subscriptions[id].confirmed.Some? ==> driver.subscriptions[id].confirmed.value))
            && (forall i, j | 0 <= i < j < |sent| :: sent[i] != sent[j])
  {
    FilterExact(driver.ids, driver.Deliverable());
    var sent := Filter(driver.ids, driver.Deliverable());
    forall id ensures id in sent <==>
      && id in driver.ids
      && (driver.requireConfirmation ==>
            driver.subscriptions[id].confirmed.Some? ==> driver.subscriptions[id].confirmed.value)
    {
      assert id in sent <==> id in driver.ids && id in driver.Deliverable();
    }
    forall i, j | 0 <= i < j < |sent| ensures sent[i] != sent[j] {
      assert Ascend(sent, i, j);
    }
  }
}
