/**
 Listing messages from a Swift container. The container is listed in pages of
 twice the requested limit; listed objects may be gone or unwanted, so
 `_filter_messages` recurses into further pages until the limit is met.
 */
module SwiftListing {
  import opened Wrappers
  import opened Paging

  /** The parts of a stored object that the filters look at. */
  datatype Object = Object(client: string, claim: Option<string>)

  /** The filters `is_echo` and `is_claimed` of one listing. */
  datatype Filters = Filters(echo: bool, client: string, includeClaimed: bool)

  predicate Skipped(f: Filters, obj: Object) {
    (!f.echo && obj.client == f.client) || (!f.includeClaimed && obj.claim.Some?)
  }

  class Container {
    const names: seq<int>              // the listing, in order; may name objects that are gone
    const objects: map<int, Object>    // the objects that can be fetched

    ghost predicate Valid()
      reads this
    {
      Sorted(names)
    }

    constructor (names: seq<int>, objects: map<int, Object>)
      requires Sorted(names)
      ensures Valid() && this.names == names && this.objects == objects
    {
      this.names, this.objects := names, objects;
    }

    /** The objects a listing should return: they exist and no filter skips them. */
    function Wanted(f: Filters): set<int> {
      set name | name in objects && !Skipped(f, objects[name])
    }

    /** Everything a listing from the marker should return. */
    function Listing(f: Filters, marker: Option<int>): seq<int> {
      Filter(Tail(names, marker), Wanted(f))
    }

    /** The object exists after the marker, was posted by another client unless echo is on, and
        is in no claim unless claimed messages are included. */
    ghost predicate Listed(f: Filters, marker: Option<int>, name: int) {
      && name in names && name in objects && (marker.None? || marker.value < name)
      && (f.echo || objects[name].client != f.client)
      && (f.includeClaimed || objects[name].claim.None?)
    }

    lemma ListingExact(f: Filters, marker: Option<int>)
      requires Valid()
      ensures forall name :: name in Listing(f, marker) <==> Listed(f, marker, name)
    {
      forall name ensures name in Listing(f, marker) <==> Listed(f, marker, name) {
        FilteredTailExact(names, marker, Wanted(f), name);
      }
    }

    /** `client.get_container(marker=..., limit=...)`. */
    method GetContainer(marker: Option<int>, limit: nat) returns (page: seq<int>)
      ensures page == Take(Tail(names, marker), limit)
    {
      page := Take(Tail(names, marker), limit);
    }

    /**
     `_filter_messages` on a page listed from `from`, for any page size. It returns
     the first `limit` wanted objects after `from`, and the marker it leaves behind
     is one a further listing can continue from without loss or repeats.
     */
    method FilterMessages(f: Filters, messages: seq<int>, marker: Option<int>, limit: nat, pageSize: nat,
                          ghost from: Option<int>)
      returns (out: seq<int>, next: Option<int>)
      requires Valid() && limit > 0 && pageSize > 0
      requires messages == Take(Tail(names, from), pageSize)
      requires marker.Some? ==> marker == from
      ensures out == Take(Listing(f, from), limit)
      ensures Tail(names, from) == [] ==> next == marker
      ensures Tail(names, from) != [] ==>
                && next.Some?
                && |Tail(names, next)| < |Tail(names, from)|
                && Listing(f, from) == out + Listing(f, next)
      decreases |Tail(names, from)|
    {
      next := marker;
      var i;
      out, i := FilterPage(f, messages, limit);
      if i > 0 {
        next := Some(messages[i - 1]);
        assert Tail(names, from)[..i] == messages[..i];
        FilterContinues(names, from, i, Wanted(f));
      }
      if |out| < limit && next.Some? {
        var more := GetContainer(next, pageSize);
        if more == [] {
          return;
        }
        var rest, last := FilterMessages(f, more, next, limit - |out|, pageSize, next);
        Rejoin(Listing(f, from), out, Listing(f, next), rest, Listing(f, last), limit);
        out, next := out + rest, last;
      }
    }

    /** The loop over one page: it stops early when the limit is met. */
    method FilterPage(f: Filters, messages: seq<int>, limit: nat) returns (out: seq<int>, i: nat)
      requires limit > 0
      ensures i <= |messages| && out == Filter(messages[..i], Wanted(f))
      ensures |out| <= limit && (i == |messages| || |out| == limit)
    {
      out, i := [], 0;
      while i < |messages| && |out| < limit
        invariant i <= |messages|
        invariant out == Filter(messages[..i], Wanted(f)) && |out| <= limit
      {
        assert messages[..i + 1] == messages[..i] + [messages[i]];
        FilterSnoc(messages[..i], messages[i], Wanted(f));
        if messages[i] in objects && !Skipped(f, objects[messages[i]]) {
          out := out + [messages[i]];
        }
        i := i + 1;
      }
    }

    /** `_list`: the first page is twice the limit, and so is every further one. */
    method List(f: Filters, marker: Option<int>, limit: nat) returns (out: seq<int>, next: Option<int>)
      requires Valid() && limit > 0
      ensures out == Take(Listing(f, marker), limit)
      ensures next.None? <==> Tail(names, marker) == []
      ensures next.Some? ==>
                |Tail(names, next)| < |Tail(names, marker)| && Listing(f, marker) == out + Listing(f, next)
      ensures forall name | name in out :: Listed(f, marker, name)
    {
      ListingExact(f, marker);
      var page := GetContainer(marker, 2 * limit);
      out, next := FilterMessages(f, page, None, limit, 2 * limit, marker);
    }

    /** A client that follows the markers reads the whole filtered listing, each message
        once and in order, for every page limit. */
    method ListAll(f: Filters, limit: nat) returns (all: seq<int>)
      requires Valid() && limit > 0
      ensures all == Listing(f, None)
      ensures forall name :: name in all <==> Listed(f, None, name)
    {
      ListingExact(f, None);
      all := [];
      var marker := None;
      while true
        invariant Listing(f, None) == all + Listing(f, marker)
        decreases |Tail(names, marker)|
      {
        var out, next := List(f, marker, limit);
        if next.None? {
          assert Listing(f, marker) == [] && all + [] == all;
          return;
        }
        Regroup(Listing(f, None), all, Listing(f, marker), out, Listing(f, next));
        all, marker := all + out, next;
      }
    }
  }

  lemma Regroup(whole: seq<int>, a: seq<int>, b: seq<int>, c: seq<int>, d: seq<int>)
    requires whole == a + b && b == c + d
    ensures whole == (a + c) + d
  {
  }

  /** Two stretches of a listing and what is left after them. */
  lemma Rejoin(all: seq<int>, a: seq<int>, b: seq<int>, c: seq<int>, d: seq<int>, limit: nat)
    requires all == a + b && b == c + d && |a| <= limit && c == Take(b, limit - |a|)
    ensures all == (a + c) + d && a + c == Take(all, limit)
  {
    TakeSplit(a, b, limit);
  }

  lemma TakeSplit(a: seq<int>, b: seq<int>, n: nat)
    requires |a| <= n
    ensures Take(a + b, n) == a + Take(b, n - |a|)
  {
  }
}
