/** The per-exchange record builder: loads the exchange's market catalog once,
    then turns every configured pair into exactly one status record, isolating
    each pair's failures from the others. */
module Fetcher {
  import opened Outcomes
  import opened Depth

  datatype Status = Active | NotListed | Error

  /** The part of a ticker the builder reads: the last traded price, which an
      exchange may leave empty. */
  datatype Ticker = Ticker(last: Option<real>)

  /** An exchange client seen as an oracle for one collection cycle: its id,
      the outcome of loading its market catalog, and per symbol the outcome of
      fetching the ticker and the order book. */
  datatype Exchange = Exchange(
    id: string,
    loadMarkets: Call<set<string>>,
    fetchTicker: string -> Call<Ticker>,
    fetchOrderBook: string -> Call<Option<Book>>)

  /** One output row per (exchange, pair). */
  datatype Record = Record(
    exchange: string,
    symbol: string,
    status: Status,
    price: Option<real>,
    bidDepth: real,
    askDepth: real)

  /** The configured pairs, in display order. */
  const TargetPairs: seq<string> := ["XTER/USDT", "PAL/USDT"]

  predicate IsLowerAscii(c: char) {
    'a' <= c <= 'z'
  }

  function UpperChar(c: char): char {
    if IsLowerAscii(c) then (c as int - 32) as char else c
  }

  /** Upper-casing of an exchange id (ASCII letters only). */
  function Upper(s: string): (r: string)
    ensures |r| == |s|
    ensures forall i :: 0 <= i < |r| ==> !IsLowerAscii(r[i])
    ensures forall i :: 0 <= i < |s| && !IsLowerAscii(s[i]) ==> r[i] == s[i]
    ensures forall i :: 0 <= i < |s| && IsLowerAscii(s[i]) ==> r[i] as int == s[i] as int - 32
  {
    seq(|s|, i requires 0 <= i < |s| => UpperChar(s[i]))
  }

  lemma UpperIdempotent(s: string)
    ensures Upper(Upper(s)) == Upper(s)
  {
    var u := Upper(s);
    assert forall i :: 0 <= i < |u| ==> Upper(u)[i] == u[i];
  }

  /** The row emitted when a pair is not fetched successfully: price 0 and
      both depths 0. */
  function Placeholder(name: string, symbol: string, status: Status): Record {
    Record(name, symbol, status, Some(0.0), 0.0, 0.0)
  }

  /** The record for one pair, given the exchange's loaded catalog. */
  function PairRecord(name: string, markets: set<string>, ex: Exchange, symbol: string): (r: Record)
    ensures r.exchange == name && r.symbol == symbol
    ensures r.status == NotListed <==> symbol !in markets
    ensures r.status == Error <==>
      symbol in markets && (ex.fetchTicker(symbol).Raised? || ex.fetchOrderBook(symbol).Raised?)
    ensures r.status == Active <==>
      symbol in markets && ex.fetchTicker(symbol).Returned? && ex.fetchOrderBook(symbol).Returned?
    ensures r.status != Active ==> r.price == Some(0.0) && r.bidDepth == 0.0 && r.askDepth == 0.0
    ensures r.status == Active ==>
      && r.price == ex.fetchTicker(symbol).value.last
      && (r.bidDepth, r.askDepth) == DepthOf(ex.fetchOrderBook(symbol).value, r.price)
    ensures r.status == Active && r.price.None? ==> r.bidDepth == 0.0 && r.askDepth == 0.0
  {
    if symbol !in markets then Placeholder(name, symbol, NotListed)
    else match ex.fetchTicker(symbol)
      case Raised => Placeholder(name, symbol, Error)
      case Returned(ticker) =>
        match ex.fetchOrderBook(symbol)
        case Raised => Placeholder(name, symbol, Error)
        case Returned(book) =>
          var depth := DepthOf(book, ticker.last);
          Record(name, symbol, Active, ticker.last, depth.0, depth.1)
  }

  /** The loop over the configured pairs, appending one record per pair. */
  function BuildRecords(name: string, markets: set<string>, ex: Exchange, pairs: seq<string>): (rs: seq<Record>)
    ensures |rs| == |pairs|
    ensures forall i :: 0 <= i < |pairs| ==> rs[i] == PairRecord(name, markets, ex, pairs[i])
  {
    if |pairs| == 0 then []
    else BuildRecords(name, markets, ex, pairs[..|pairs| - 1]) + [PairRecord(name, markets, ex, pairs[|pairs| - 1])]
  }

  /** All records of one exchange: none when the catalog fails to load,
      otherwise one per configured pair, in order. */
  function FetchOneExchange(ex: Exchange, pairs: seq<string>): (rs: seq<Record>)
    ensures ex.loadMarkets.Raised? ==> rs == []
    ensures ex.loadMarkets.Returned? ==> |rs| == |pairs|
    ensures ex.loadMarkets.Returned? ==> forall i :: 0 <= i < |pairs| ==>
      && rs[i].exchange == Upper(ex.id)
      && rs[i].symbol == pairs[i]
      && rs[i] == PairRecord(Upper(ex.id), ex.loadMarkets.value, ex, pairs[i])
  {
    match ex.loadMarkets
    case Raised => []
    case Returned(markets) => BuildRecords(Upper(ex.id), markets, ex, pairs)
  }

  /** A pair's record depends only on that pair's own fetch outcomes: two
      exchanges that agree on id, catalog and the outcomes for `pairs[i]`
      produce the same i-th record, whatever they do for other pairs. */
  lemma PairIsolation(ex1: Exchange, ex2: Exchange, pairs: seq<string>, i: nat)
    requires ex1.id == ex2.id && ex1.loadMarkets == ex2.loadMarkets && ex1.loadMarkets.Returned?
    requires i < |pairs|
    requires ex1.fetchTicker(pairs[i]) == ex2.fetchTicker(pairs[i])
    requires ex1.fetchOrderBook(pairs[i]) == ex2.fetchOrderBook(pairs[i])
    ensures |FetchOneExchange(ex1, pairs)| == |FetchOneExchange(ex2, pairs)| == |pairs|
    ensures FetchOneExchange(ex1, pairs)[i] == FetchOneExchange(ex2, pairs)[i]
  {
  }

  /** The exchange `ex` with its ticker call made to raise for `symbol` only. */
  function WithTickerFault(ex: Exchange, symbol: string): Exchange {
    ex.(fetchTicker := s => if s == symbol then Raised else ex.fetchTicker(s))
  }

  /** Fault injection: a ticker failure on one symbol turns that symbol's
      listed records into errors and leaves every other record unchanged. */
  lemma TickerFaultIsolated(ex: Exchange, symbol: string, pairs: seq<string>)
    requires ex.loadMarkets.Returned?
    ensures FetchOneExchange(WithTickerFault(ex, symbol), pairs) != FetchOneExchange(ex, pairs) ==>
      symbol in pairs && symbol in ex.loadMarkets.value
    ensures forall i :: 0 <= i < |pairs| && pairs[i] != symbol ==>
      FetchOneExchange(WithTickerFault(ex, symbol), pairs)[i] == FetchOneExchange(ex, pairs)[i]
    ensures forall i :: 0 <= i < |pairs| && pairs[i] == symbol ==>
      FetchOneExchange(WithTickerFault(ex, symbol), pairs)[i].status
        == (if symbol in ex.loadMarkets.value then Error else NotListed)
  {
    var faulty := WithTickerFault(ex, symbol);
    var a, b := FetchOneExchange(faulty, pairs), FetchOneExchange(ex, pairs);
    forall i | 0 <= i < |pairs| && pairs[i] != symbol
      ensures a[i] == b[i]
    {
      PairIsolation(faulty, ex, pairs, i);
    }
    if symbol !in pairs || symbol !in ex.loadMarkets.value {
      forall i | 0 <= i < |pairs|
        ensures a[i] == b[i]
      {
        if pairs[i] == symbol {
          assert a[i].status == NotListed == b[i].status;
        }
      }
      assert a == b;
    }
  }

  /** Every record carries non-negative depths when every book the exchange
      returns has non-negative prices and amounts. */
  lemma DepthsNonNegative(ex: Exchange, pairs: seq<string>)
    requires forall s :: ex.fetchOrderBook(s).Returned? && ex.fetchOrderBook(s).value.Some? ==>
      NonNegativeLevels(ex.fetchOrderBook(s).value.value.bids) && NonNegativeLevels(ex.fetchOrderBook(s).value.value.asks)
    ensures forall r :: r in FetchOneExchange(ex, pairs) ==> r.bidDepth >= 0.0 && r.askDepth >= 0.0
  {
    var rs := FetchOneExchange(ex, pairs);
    forall r | r in rs
      ensures r.bidDepth >= 0.0 && r.askDepth >= 0.0
    {
      var i :| 0 <= i < |rs| && rs[i] == r;
      if r.status == Active {
        DepthNonNegative(ex.fetchOrderBook(pairs[i]).value, r.price);
      }
    }
  }
}
