/** The sort of the records by the Current_price column: ascending current price,
    records without a price after all records with one. */
module Ranking {
  import opened Wrappers
  import opened Extraction

  /** The order on prices: a present price is at most every larger-or-equal
      present price and every missing one; a missing price only precedes a missing one. */
  predicate PriceLe(a: Option<real>, b: Option<real>) {
    match a
    case None => b.None?
    case Some(x) => b.None? || x <= b.value
  }

  predicate SortedByPrice(s: seq<Product>) {
    forall i, j :: 0 <= i < j < |s| ==> PriceLe(s[i].currentPrice, s[j].currentPrice)
  }

  /** Every record with a missing price comes after every record with a present one. */
  predicate NullsLast(s: seq<Product>) {
    forall i, j :: 0 <= i < |s| && 0 <= j < |s| && s[i].currentPrice.None? && s[j].currentPrice.Some? ==> j < i
  }

  /** The present prices appear in non-decreasing order. */
  predicate PresentPricesAscending(s: seq<Product>) {
    forall i, j :: 0 <= i < j < |s| && s[i].currentPrice.Some? && s[j].currentPrice.Some? ==>
      s[i].currentPrice.value <= s[j].currentPrice.value
  }

  /** `r` is an outcome of sorting `s`: a permutation of it in price order. */
  predicate IsRanking(r: seq<Product>, s: seq<Product>) {
    multiset(r) == multiset(s) && NullsLast(r) && PresentPricesAscending(r)
  }

  /** The pairwise order is exactly "nulls last" plus "present prices ascending". */
  lemma SortedByPriceMeans(s: seq<Product>)
    ensures SortedByPrice(s) <==> NullsLast(s) && PresentPricesAscending(s)
  {
  }

  /** Insertion of `p` into a sequence, before the first record it does not exceed. */
  function Insert(p: Product, s: seq<Product>): (r: seq<Product>)
    ensures multiset(r) == multiset(s) + multiset{p}
  {
    if s == [] then [p]
    else if PriceLe(p.currentPrice, s[0].currentPrice) then [p] + s
    else
      assert s == [s[0]] + s[1..];
      [s[0]] + Insert(p, s[1..])
  }

  /** Insertion keeps a sorted sequence sorted. */
  lemma {:induction false} InsertSorted(p: Product, s: seq<Product>)
    requires SortedByPrice(s)
    ensures SortedByPrice(Insert(p, s))
  {
    if s != [] && !PriceLe(p.currentPrice, s[0].currentPrice) {
      var rest := Insert(p, s[1..]);
      InsertSorted(p, s[1..]);
      forall m | 0 <= m < |rest| ensures PriceLe(s[0].currentPrice, rest[m].currentPrice) {
        assert rest[m] in multiset(s[1..]) + multiset{p};
        if rest[m] != p {
          assert rest[m] in s[1..];
          var k :| 0 <= k < |s[1..]| && s[1..][k] == rest[m];
          assert s[k + 1] == rest[m];
        }
      }
      var r := [s[0]] + rest;
      assert forall m :: 1 <= m < |r| ==> r[m] == rest[m - 1];
    }
  }

  /** The sorted records: a permutation of `s` with nulls last and present prices ascending.
      No order among records of equal price is promised. */
  function SortByCurrentPrice(s: seq<Product>): (r: seq<Product>)
    ensures IsRanking(r, s)
  {
    if s == [] then []
    else
      var rest := SortByCurrentPrice(s[1..]);
      SortedByPriceMeans(rest);
      assert s == [s[0]] + s[1..];
      var r := Insert(s[0], rest);
      InsertSorted(s[0], rest);
      SortedByPriceMeans(r);
      r
  }

  /** The price column of a sequence of records. */
  function Prices(s: seq<Product>): (ps: seq<Option<real>>)
    ensures |ps| == |s| && forall i :: 0 <= i < |s| ==> ps[i] == s[i].currentPrice
  {
    seq(|s|, i requires 0 <= i < |s| => s[i].currentPrice)
  }

  /** Whatever order a sort leaves equal-priced records in, the price column of
      the result is the same: it is fixed by the records alone. */
  lemma RankingPricesUnique(r1: seq<Product>, r2: seq<Product>, s: seq<Product>)
    requires IsRanking(r1, s) && IsRanking(r2, s)
    ensures Prices(r1) == Prices(r2)
  {
    SortedByPriceMeans(r1);
    SortedByPriceMeans(r2);
    SortedPricesUnique(r1, r2);
  }

  /** Two sorted sequences holding the same records have the same price column. */
  lemma {:induction false} SortedPricesUnique(a: seq<Product>, b: seq<Product>)
    requires multiset(a) == multiset(b)
    requires SortedByPrice(a) && SortedByPrice(b)
    ensures Prices(a) == Prices(b)
    decreases |a|
  {
    assert |a| == |b| by {
      assert |a| == |multiset(a)| == |multiset(b)| == |b|;
    }
    if |a| > 0 {
      var j := IndexOfFirst(a, b);
      var a', b' := a[1..], RemoveAt(b, j);
      assert multiset(b') == multiset(a') by {
        RemoveAtMultiset(b, j);
        assert a == [a[0]] + a';
      }
      assert SortedByPrice(b') by {
        RemoveAtSorted(b, j);
      }
      assert SortedByPrice(a') by {
        RemoveAtSorted(a, 0);
        assert RemoveAt(a, 0) == a';
      }
      SortedPricesUnique(a', b');
      assert forall m :: 0 <= m <= j ==> b[m].currentPrice == a[0].currentPrice by {
        LeadingPricesEqual(a, b, j);
      }
      RejoinPrices(a, b, j);
    }
  }

  /** An index at which `b` holds the first record of `a`. */
  lemma IndexOfFirst(a: seq<Product>, b: seq<Product>) returns (j: nat)
    requires 0 < |a| && multiset(a) == multiset(b)
    ensures j < |b| && b[j] == a[0]
  {
    assert a[0] in multiset(b);
    j :| 0 <= j < |b| && b[j] == a[0];
  }

  /** The price column of `b` is that of `a` when both start with the same price
      up to index `j` and agree once `a[0]` and `b[j]` are taken out. */
  lemma RejoinPrices(a: seq<Product>, b: seq<Product>, j: nat)
    requires 0 < |a| == |b| && j < |b|
    requires forall m :: 0 <= m <= j ==> b[m].currentPrice == a[0].currentPrice
    requires Prices(a[1..]) == Prices(RemoveAt(b, j))
    ensures Prices(a) == Prices(b)
  {
    var b' := RemoveAt(b, j);
    var pa, pb, pa', pb' := Prices(a), Prices(b), Prices(a[1..]), Prices(b');
    forall m | 0 <= m < |a| ensures pa[m] == pb[m] {
      if 0 < m {
        assert pa[m] == pa'[m - 1];
        if m <= j {
          assert b'[m - 1] == b[m - 1];
        } else {
          assert b'[m - 1] == b[m];
        }
      }
    }
  }

  /** `b` without its element at index `j`. */
  function RemoveAt(b: seq<Product>, j: nat): (r: seq<Product>)
    requires j < |b|
    ensures |r| == |b| - 1
    ensures forall m :: 0 <= m < |r| ==> r[m] == if m < j then b[m] else b[m + 1]
  {
    b[..j] + b[j + 1..]
  }

  lemma RemoveAtMultiset(b: seq<Product>, j: nat)
    requires j < |b|
    ensures multiset(RemoveAt(b, j)) == multiset(b) - multiset{b[j]}
  {
    assert b == b[..j] + [b[j]] + b[j + 1..];
  }

  lemma RemoveAtSorted(b: seq<Product>, j: nat)
    requires j < |b| && SortedByPrice(b)
    ensures SortedByPrice(RemoveAt(b, j))
  {
  }

  /** When `b[j]` is the first record of `a`, every record of `b` up to `j` has its price. */
  lemma LeadingPricesEqual(a: seq<Product>, b: seq<Product>, j: nat)
    requires multiset(a) == multiset(b)
    requires SortedByPrice(a) && SortedByPrice(b)
    requires 0 < |a| && j < |b| && b[j] == a[0]
    ensures forall m :: 0 <= m <= j ==> b[m].currentPrice == a[0].currentPrice
  {
    assert b[0] in multiset(a);
    var i :| 0 <= i < |a| && a[i] == b[0];
    assert PriceLe(a[0].currentPrice, b[0].currentPrice);
    forall m | 0 <= m <= j ensures b[m].currentPrice == a[0].currentPrice {
      assert PriceLe(b[0].currentPrice, b[m].currentPrice) || m == 0;
      assert PriceLe(b[m].currentPrice, b[j].currentPrice) || m == j;
    }
  }

  /** Records priced 50, unpriced and 30 rank as 30, 50, unpriced, whichever
      ranking is taken. */
  lemma RankThree(r: seq<Product>, s: seq<Product>)
    requires |s| == 3
    requires s[0].currentPrice == Some(50.0) && s[1].currentPrice == None && s[2].currentPrice == Some(30.0)
    requires IsRanking(r, s)
    ensures Prices(r) == [Some(30.0), Some(50.0), None]
  {
    var ranked := [s[2], s[0], s[1]];
    RotatedRanking(s);
    assert Prices(ranked) == [Some(30.0), Some(50.0), None];
    RankingPricesUnique(r, ranked, s);
  }

  /** The witness ranking for `RankThree`: the last record, then the first two. */
  lemma RotatedRanking(s: seq<Product>)
    requires |s| == 3
    requires s[0].currentPrice == Some(50.0) && s[1].currentPrice == None && s[2].currentPrice == Some(30.0)
    ensures IsRanking([s[2], s[0], s[1]], s)
  {
    assert s == [s[0], s[1], s[2]];
    assert multiset([s[2], s[0], s[1]]) == multiset(s);
  }
}
