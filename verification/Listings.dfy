/** Ordered listings of finite sets, as `ORDER BY`, `LIMIT` and `OFFSET` produce them. */
module Listings {

  ghost predicate IsTotalOn<T(!new)>(items: set<T>, atMost: (T, T) -> bool) {
    && (forall a, b :: a in items && b in items ==> atMost(a, b) || atMost(b, a))
    && (forall a, b, c :: a in items && b in items && c in items && atMost(a, b) && atMost(b, c) ==> atMost(a, c))
  }

  ghost predicate IsAntisymmetricOn<T(!new)>(items: set<T>, atMost: (T, T) -> bool) {
    forall a, b :: a in items && b in items && atMost(a, b) && atMost(b, a) ==> a == b
  }

  /** Every item once, in order. */
  ghost predicate IsListing<T(!new)>(listing: seq<T>, items: set<T>, atMost: (T, T) -> bool) {
    && (forall x :: x in listing <==> x in items)
    && (forall i, j :: 0 <= i < j < |listing| ==> listing[i] != listing[j] && atMost(listing[i], listing[j]))
  }

  /** The page: at most `limit` items in order, starting after the first `offset`, and fewer only at the end of the listing. */
  function Slice<T>(listing: seq<T>, offset: nat, limit: nat): (page: seq<T>)
    ensures |page| <= limit && forall i :: 0 <= i < |page| ==> offset + i < |listing| && page[i] == listing[offset + i]
    ensures |page| < limit ==> offset + |page| >= |listing|
  {
    var from := if offset <= |listing| then offset else |listing|;
    var to := if offset + limit <= |listing| then offset + limit else |listing|;
    listing[from..to]
  }

  ghost predicate IsFirst<T(!new)>(items: set<T>, first: T, atMost: (T, T) -> bool) {
    first in items && forall x :: x in items ==> atMost(first, x)
  }

  lemma {:induction false} FirstExists<T(!new)>(items: set<T>, atMost: (T, T) -> bool)
    requires items != {} && IsTotalOn(items, atMost)
    ensures exists first :: IsFirst(items, first, atMost)
    decreases items
  {
    var item :| item in items;
    if items == {item} {
      assert IsFirst(items, item, atMost);
    } else {
      var others := items - {item};
      FirstExists(others, atMost);
      var first :| IsFirst(others, first, atMost);
      if atMost(first, item) {
        assert IsFirst(items, first, atMost);
      } else {
        assert IsFirst(items, item, atMost);
      }
    }
  }

  /** Sort a set by taking what comes first again and again. */
  method ListInOrder<T(==, !new)>(items: set<T>, atMost: (T, T) -> bool) returns (listing: seq<T>)
    requires IsTotalOn(items, atMost)
    ensures IsListing(listing, items, atMost)
  {
    var remaining := items;
    listing := [];
    while remaining != {}
      invariant remaining <= items && IsListing(listing, items - remaining, atMost)
      invariant forall x, y :: x in listing && y in remaining ==> atMost(x, y)
      decreases remaining
    {
      FirstExists(remaining, atMost);
      var first :| first in remaining && forall x :: x in remaining ==> atMost(first, x);
      assert first !in listing;
      listing, remaining := listing + [first], remaining - {first};
    }
  }

  /** There is only one listing, so a query's answer is determined by what it selects. */
  lemma {:induction false} ListingIsUnique<T(!new)>(a: seq<T>, b: seq<T>, items: set<T>, atMost: (T, T) -> bool)
    requires IsAntisymmetricOn(items, atMost) && IsListing(a, items, atMost) && IsListing(b, items, atMost)
    ensures a == b
    decreases |a|
  {
    assert (a != [] ==> a[0] in a) && (b != [] ==> b[0] in b);
    if a != [] && b != [] {
      assert a[0] == b[0] by {
        assert a[0] in b && b[0] in a;
        var i :| 0 <= i < |b| && b[i] == a[0];
        var j :| 0 <= j < |a| && a[j] == b[0];
      }
      var rest := items - {a[0]};
      RestIsListing(a, items, atMost);
      RestIsListing(b, items, atMost);
      ListingIsUnique(a[1..], b[1..], rest, atMost);
      assert a == [a[0]] + a[1..] && b == [b[0]] + b[1..];
    }
  }

  lemma RestIsListing<T(!new)>(a: seq<T>, items: set<T>, atMost: (T, T) -> bool)
    requires IsListing(a, items, atMost) && a != []
    ensures IsListing(a[1..], items - {a[0]}, atMost)
  {
    assert forall x :: x in a <==> x == a[0] || x in a[1..] by {
      assert a == [a[0]] + a[1..];
    }
    assert forall i :: 0 <= i < |a| - 1 ==> a[1..][i] == a[i + 1] && a[i + 1] != a[0];
  }
}
