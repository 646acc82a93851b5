/**
 * The two query shapes the auction service asks of the store: a `where`
 * filter, which keeps the rows of the auction table in table order, and an
 * ascending `orderBy` on `endTime`. The sort is a stable insertion sort; its
 * contract promises only what the store promises (ascending and the same
 * rows), so nothing proved elsewhere depends on how ties are ordered.
 */
module Ordering {
  import opened Records

  /** The rows of `s` that `keep` selects, in the order of `s`. */
  function Filter(s: seq<Auction>, keep: Auction -> bool): (r: seq<Auction>)
    ensures forall a :: a in r <==> a in s && keep(a)
    ensures forall a :: multiset(r)[a] == if keep(a) then multiset(s)[a] else 0
  {
    if s == [] then []
    else
      assert s == [s[0]] + s[1..];
      if keep(s[0]) then [s[0]] + Filter(s[1..], keep) else Filter(s[1..], keep)
  }

  predicate SortedByEndTime(s: seq<Auction>) {
    forall j, k | 0 <= j < k < |s| :: s[j].endTime <= s[k].endTime
  }

  /** Places `a` in front of the first row of `s` that ends no earlier than it. */
  function InsertByEndTime(a: Auction, s: seq<Auction>): (r: seq<Auction>)
    requires SortedByEndTime(s)
    ensures SortedByEndTime(r)
    ensures forall x :: x in r <==> x in s || x == a
    ensures multiset(r) == multiset(s) + multiset{a}
  {
    if s == [] || a.endTime <= s[0].endTime then
      PrependSorted(a, s);
      [a] + s
    else
      assert s == [s[0]] + s[1..];
      var rest := InsertByEndTime(a, s[1..]);
      assert multiset([s[0]] + rest) == multiset{s[0]} + multiset(rest);
      PrependSorted(s[0], rest);
      [s[0]] + rest
  }

  /** A row that ends no later than any row of a sorted list may go in front of it. */
  lemma PrependSorted(a: Auction, s: seq<Auction>)
    requires SortedByEndTime(s)
    requires forall x | x in s :: a.endTime <= x.endTime
    ensures SortedByEndTime([a] + s)
  {
    var r := [a] + s;
    forall j, k | 0 <= j < k < |r| ensures r[j].endTime <= r[k].endTime {
      assert r[k] == s[k - 1];
      if j > 0 {
        assert r[j] == s[j - 1];
      }
    }
  }

  /** `orderBy: { endTime: 'asc' }`: the same rows, ascending by end time. */
  function SortByEndTime(s: seq<Auction>): (r: seq<Auction>)
    ensures SortedByEndTime(r)
    ensures multiset(r) == multiset(s)
  {
    if s == [] then []
    else
      assert s == [s[0]] + s[1..];
      InsertByEndTime(s[0], SortByEndTime(s[1..]))
  }
}
