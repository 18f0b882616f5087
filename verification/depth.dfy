/** The depth calculator: the notional value resting on each side of an order
    book within a two-percent band around a reference price. The scan of each
    side stops at the first level outside the band. */
module Depth {
  import opened Outcomes

  /** One price level of an order book: a quote price and a base amount. */
  datatype Level = Level(price: real, amount: real)

  /** An order book as the exchange returns it: bids (expected best first,
      i.e. descending) and asks (expected best first, i.e. ascending). */
  datatype Book = Book(bids: seq<Level>, asks: seq<Level>)

  datatype Side = Bid | Ask

  /** The band factors: bids count down to 98% of the price, asks up to 102%. */
  const LowerFactor: real := 0.98
  const UpperFactor: real := 1.02

  function Notional(l: Level): real {
    l.price * l.amount
  }

  /** The band edge of one side for a reference price. */
  function Bound(side: Side, price: real): real {
    match side
    case Bid => price * LowerFactor
    case Ask => price * UpperFactor
  }

  /** Whether a level price lies inside the band on the given side. */
  predicate InBand(side: Side, bound: real, p: real) {
    match side
    case Bid => p >= bound
    case Ask => p <= bound
  }

  /** Sum of the notionals of a sequence of levels, accumulated left to right. */
  function Total(levels: seq<Level>): real {
    if |levels| == 0 then 0.0
    else Total(levels[..|levels| - 1]) + Notional(levels[|levels| - 1])
  }

  /** Length of the longest prefix of `levels` whose prices all lie in the band. */
  function PrefixLen(levels: seq<Level>, side: Side, bound: real): (k: nat)
    ensures k <= |levels|
    ensures forall i :: 0 <= i < k ==> InBand(side, bound, levels[i].price)
    ensures k < |levels| ==> !InBand(side, bound, levels[k].price)
  {
    if |levels| == 0 then 0
    else if InBand(side, bound, levels[0].price) then 1 + PrefixLen(levels[1..], side, bound)
    else 0
  }

  /** Reference meaning of one side's depth: the total of the longest in-band prefix. */
  function PrefixTotal(levels: seq<Level>, side: Side, bound: real): real {
    Total(levels[..PrefixLen(levels, side, bound)])
  }

  /** The scan of one side: add levels while they are in the band, stop at the
      first one that is not. */
  function ScanSum(levels: seq<Level>, side: Side, bound: real): real {
    if |levels| == 0 then 0.0
    else if InBand(side, bound, levels[0].price) then Notional(levels[0]) + ScanSum(levels[1..], side, bound)
    else 0.0
  }

  /** Sum over EVERY in-band level, wherever it sits in the sequence. */
  function FilterTotal(levels: seq<Level>, side: Side, bound: real): real {
    if |levels| == 0 then 0.0
    else (if InBand(side, bound, levels[0].price) then Notional(levels[0]) else 0.0)
         + FilterTotal(levels[1..], side, bound)
  }

  /** Best-first ordering: bids descending, asks ascending. */
  ghost predicate BestFirst(side: Side, levels: seq<Level>) {
    match side
    case Bid => forall i, j :: 0 <= i < j < |levels| ==> levels[i].price >= levels[j].price
    case Ask => forall i, j :: 0 <= i < j < |levels| ==> levels[i].price <= levels[j].price
  }

  ghost predicate NonNegativeLevels(levels: seq<Level>) {
    forall i :: 0 <= i < |levels| ==> levels[i].price >= 0.0 && levels[i].amount >= 0.0
  }

  /** True when the calculator returns (0, 0) without scanning: no order book,
      or a reference price that is None or zero. */
  predicate Skipped(book: Option<Book>, price: Option<real>) {
    book.None? || price.None? || price.value == 0.0
  }

  /** The depth calculator, as a pure function. */
  function DepthOf(book: Option<Book>, price: Option<real>): (r: (real, real))
    ensures Skipped(book, price) ==> r == (0.0, 0.0)
    ensures !Skipped(book, price) ==>
      && r.0 == PrefixTotal(book.value.bids, Bid, price.value * LowerFactor)
      && r.1 == PrefixTotal(book.value.asks, Ask, price.value * UpperFactor)
  {
    if Skipped(book, price) then (0.0, 0.0)
    else
      var p := price.value;
      ScanIsPrefixTotal(book.value.bids, Bid, Bound(Bid, p));
      ScanIsPrefixTotal(book.value.asks, Ask, Bound(Ask, p));
      (ScanSum(book.value.bids, Bid, Bound(Bid, p)), ScanSum(book.value.asks, Ask, Bound(Ask, p)))
  }

  /** One side's `for ... : if in band: add, else: break` loop. */
  method ScanLevels(levels: seq<Level>, side: Side, bound: real) returns (sum: real)
    ensures sum == PrefixTotal(levels, side, bound)
  {
    sum := 0.0;
    var i := 0;
    while i < |levels|
      invariant i <= PrefixLen(levels, side, bound)
      invariant sum == Total(levels[..i])
    {
      if InBand(side, bound, levels[i].price) {
        assert levels[..i + 1][..i] == levels[..i];
        sum := sum + Notional(levels[i]);
        i := i + 1;
      } else {
        break;
      }
    }
  }

  /** The calculator as the source writes it: the early return, then one
      scanning loop per side. */
  method CalculateDepth(book: Option<Book>, price: Option<real>) returns (bidSum: real, askSum: real)
    ensures (bidSum, askSum) == DepthOf(book, price)
  {
    if book.None? || price.None? || price.value == 0.0 {
      return 0.0, 0.0;
    }
    var limitDown := price.value * LowerFactor;
    var limitUp := price.value * UpperFactor;
    bidSum := ScanLevels(book.value.bids, Bid, limitDown);
    askSum := ScanLevels(book.value.asks, Ask, limitUp);
  }

  /** Prepending a level adds its notional to the left-to-right total. */
  lemma {:induction false} TotalCons(l: Level, levels: seq<Level>)
    ensures Total([l] + levels) == Notional(l) + Total(levels)
    decreases |levels|
  {
    if |levels| == 0 {
      assert [l] + levels == [l];
      assert [l][..0] == [];
    } else {
      var n := |levels|;
      assert ([l] + levels)[..n] == [l] + levels[..n - 1];
      TotalCons(l, levels[..n - 1]);
    }
  }

  /** The early-exit scan sums exactly the longest in-band prefix. */
  lemma {:induction false} ScanIsPrefixTotal(levels: seq<Level>, side: Side, bound: real)
    ensures ScanSum(levels, side, bound) == PrefixTotal(levels, side, bound)
    decreases |levels|
  {
    if |levels| == 0 {
    } else if InBand(side, bound, levels[0].price) {
      var k := PrefixLen(levels[1..], side, bound);
      ScanIsPrefixTotal(levels[1..], side, bound);
      assert levels[..k + 1] == [levels[0]] + levels[1..][..k];
      TotalCons(levels[0], levels[1..][..k]);
    } else {
      assert levels[..0] == [];
    }
  }

  /** Levels appended after an out-of-band level never change the scan. */
  lemma {:induction false} ScanIgnoresTail(levels: seq<Level>, tail: seq<Level>, side: Side, bound: real, k: nat)
    requires k < |levels| && !InBand(side, bound, levels[k].price)
    ensures ScanSum(levels + tail, side, bound) == ScanSum(levels, side, bound)
    decreases |levels|
  {
    assert (levels + tail)[0] == levels[0];
    if k > 0 && InBand(side, bound, levels[0].price) {
      assert (levels + tail)[1..] == levels[1..] + tail;
      ScanIgnoresTail(levels[1..], tail, side, bound, k - 1);
    }
  }

  /** Bid depth ignores anything appended after the first bid below the band. */
  lemma BidsIgnoreLevelsAfterExit(bids: seq<Level>, asks: seq<Level>, extra: seq<Level>, price: real, k: nat)
    requires k < |bids| && bids[k].price < price * LowerFactor
    ensures DepthOf(Some(Book(bids + extra, asks)), Some(price)) == DepthOf(Some(Book(bids, asks)), Some(price))
  {
    ScanIgnoresTail(bids, extra, Bid, Bound(Bid, price), k);
  }

  /** Ask depth ignores anything appended after the first ask above the band. */
  lemma AsksIgnoreLevelsAfterExit(bids: seq<Level>, asks: seq<Level>, extra: seq<Level>, price: real, k: nat)
    requires k < |asks| && asks[k].price > price * UpperFactor
    ensures DepthOf(Some(Book(bids, asks + extra)), Some(price)) == DepthOf(Some(Book(bids, asks)), Some(price))
  {
    ScanIgnoresTail(asks, extra, Ask, Bound(Ask, price), k);
  }

  /** The bid result never reads the asks, and the ask result never reads the bids. */
  lemma SidesIndependent(bids: seq<Level>, asks: seq<Level>, bids': seq<Level>, asks': seq<Level>, price: Option<real>)
    ensures DepthOf(Some(Book(bids, asks)), price).0 == DepthOf(Some(Book(bids, asks')), price).0
    ensures DepthOf(Some(Book(bids, asks)), price).1 == DepthOf(Some(Book(bids', asks)), price).1
  {
  }

  lemma {:induction false} ScanNonNegative(levels: seq<Level>, side: Side, bound: real)
    requires NonNegativeLevels(levels)
    ensures ScanSum(levels, side, bound) >= 0.0
    decreases |levels|
  {
    if |levels| > 0 && InBand(side, bound, levels[0].price) {
      assert NonNegativeLevels(levels[1..]) by {
        forall i | 0 <= i < |levels| - 1 ensures levels[1..][i] == levels[i + 1] { }
      }
      ScanNonNegative(levels[1..], side, bound);
      assert Notional(levels[0]) >= 0.0;
    }
  }

  /** With non-negative prices and amounts on both sides, both depths are non-negative. */
  lemma DepthNonNegative(book: Option<Book>, price: Option<real>)
    requires book.Some? ==> NonNegativeLevels(book.value.bids) && NonNegativeLevels(book.value.asks)
    ensures DepthOf(book, price).0 >= 0.0 && DepthOf(book, price).1 >= 0.0
  {
    if !Skipped(book, price) {
      ScanNonNegative(book.value.bids, Bid, Bound(Bid, price.value));
      ScanNonNegative(book.value.asks, Ask, Bound(Ask, price.value));
    }
  }

  lemma {:induction false} FilterTotalNone(levels: seq<Level>, side: Side, bound: real)
    requires forall i :: 0 <= i < |levels| ==> !InBand(side, bound, levels[i].price)
    ensures FilterTotal(levels, side, bound) == 0.0
    decreases |levels|
  {
    if |levels| > 0 {
      FilterTotalNone(levels[1..], side, bound);
    }
  }

  /** On a best-first book the early exit loses nothing: the scan equals the
      sum over every in-band level. */
  lemma {:induction false} BestFirstScanIsFullFilter(levels: seq<Level>, side: Side, bound: real)
    requires BestFirst(side, levels)
    ensures ScanSum(levels, side, bound) == FilterTotal(levels, side, bound)
    decreases |levels|
  {
    if |levels| > 0 {
      var rest := levels[1..];
      if InBand(side, bound, levels[0].price) {
        assert BestFirst(side, rest);
        BestFirstScanIsFullFilter(rest, side, bound);
      } else {
        assert forall i :: 0 <= i < |rest| ==> !InBand(side, bound, rest[i].price) by {
          forall i | 0 <= i < |rest|
            ensures !InBand(side, bound, rest[i].price)
          {
            assert rest[i] == levels[i + 1];
          }
        }
        FilterTotalNone(rest, side, bound);
      }
    }
  }

  /** An out-of-order book is undercounted: the in-band bid at 99 sits behind
      the out-of-band bid at 97 and is never inspected. */
  lemma UnsortedBidsUndercount()
    ensures ScanSum([Level(100.0, 1.0), Level(97.0, 1.0), Level(99.0, 1.0)], Bid, 98.0) == 100.0
    ensures FilterTotal([Level(100.0, 1.0), Level(97.0, 1.0), Level(99.0, 1.0)], Bid, 98.0) == 199.0
  {
    var s := [Level(100.0, 1.0), Level(97.0, 1.0), Level(99.0, 1.0)];
    assert s[1..] == [Level(97.0, 1.0), Level(99.0, 1.0)];
    assert s[1..][1..] == [Level(99.0, 1.0)];
    assert s[1..][1..][1..] == [];
  }

  /** The worked example: bids within 98 sum to 100*1 + 99*2, asks within 102 to 101*1. */
  lemma WorkedExample()
    ensures DepthOf(Some(Book([Level(100.0, 1.0), Level(99.0, 2.0), Level(95.0, 3.0)],
                              [Level(101.0, 1.0), Level(103.0, 2.0), Level(110.0, 5.0)])),
                    Some(100.0)) == (298.0, 101.0)
  {
    var bids := [Level(100.0, 1.0), Level(99.0, 2.0), Level(95.0, 3.0)];
    var asks := [Level(101.0, 1.0), Level(103.0, 2.0), Level(110.0, 5.0)];
    assert bids[1..] == [Level(99.0, 2.0), Level(95.0, 3.0)];
    assert bids[1..][1..] == [Level(95.0, 3.0)];
    assert asks[1..] == [Level(103.0, 2.0), Level(110.0, 5.0)];
    assert ScanSum(bids, Bid, 98.0) == 298.0;
    assert ScanSum(asks, Ask, 102.0) == 101.0;
  }
}
