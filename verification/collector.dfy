/** The collector: runs the per-exchange builder for every configured exchange
    and concatenates the results in the order the exchanges are configured. */
module Collector {
  import opened Fetcher

  /** The ids of the configured exchange clients, in display order. */
  const ExchangeIds: seq<string> := ["bybit", "bitget", "gateio", "mexc", "htx", "kucoin"]

  /** Number of exchanges whose catalog loads. */
  function LoadedCount(exs: seq<Exchange>): (n: nat)
    ensures n <= |exs|
    ensures n == |exs| <==> forall i :: 0 <= i < |exs| ==> exs[i].loadMarkets.Returned?
  {
    if |exs| == 0 then 0
    else LoadedCount(exs[..|exs| - 1]) + (if exs[|exs| - 1].loadMarkets.Returned? then 1 else 0)
  }

  /** The merged snapshot: the per-exchange lists concatenated in order. */
  function Collect(exs: seq<Exchange>, pairs: seq<string>): (out: seq<Record>)
    ensures forall j :: 0 <= j < |out| ==> out[j].symbol in pairs
  {
    if |exs| == 0 then []
    else
      var prev := Collect(exs[..|exs| - 1], pairs);
      var last := FetchOneExchange(exs[|exs| - 1], pairs);
      assert forall j :: 0 <= j < |last| ==> last[j].symbol == pairs[j];
      prev + last
  }

  /** One record per pair for every exchange whose catalog loads, none for the others. */
  lemma {:induction false} CollectLength(exs: seq<Exchange>, pairs: seq<string>)
    ensures |Collect(exs, pairs)| == LoadedCount(exs) * |pairs|
  {
    if |exs| > 0 {
      var init, last := exs[..|exs| - 1], exs[|exs| - 1];
      CollectLength(init, pairs);
      assert Collect(exs, pairs) == Collect(init, pairs) + FetchOneExchange(last, pairs);
      var loaded: nat := if last.loadMarkets.Returned? then 1 else 0;
      assert LoadedCount(exs) == LoadedCount(init) + loaded;
      assert |FetchOneExchange(last, pairs)| == loaded * |pairs|;
      Distribute(LoadedCount(init), loaded, |pairs|);
    }
  }

  lemma Distribute(a: nat, b: nat, c: nat)
    ensures (a + b) * c == a * c + b * c
  {
  }

  /** The snapshot served for the configured pairs. */
  function GetData(exs: seq<Exchange>): (out: seq<Record>)
    ensures forall j :: 0 <= j < |out| ==> out[j].symbol == "XTER/USDT" || out[j].symbol == "PAL/USDT"
  {
    Collect(exs, TargetPairs)
  }

  /** Collecting two lists of exchanges one after the other is collecting
      their concatenation. */
  lemma {:induction false} CollectAppend(a: seq<Exchange>, b: seq<Exchange>, pairs: seq<string>)
    ensures Collect(a + b, pairs) == Collect(a, pairs) + Collect(b, pairs)
    decreases |b|
  {
    if |b| == 0 {
      assert a + b == a;
    } else {
      var n := |b|;
      assert (a + b)[..|a + b| - 1] == a + b[..n - 1];
      assert (a + b)[|a + b| - 1] == b[n - 1];
      CollectAppend(a, b[..n - 1], pairs);
    }
  }

  /** Exchange k contributes exactly its own records, placed after those of
      the exchanges before it and before those of the exchanges after it. */
  lemma CollectSplitsAt(exs: seq<Exchange>, pairs: seq<string>, k: nat)
    requires k < |exs|
    ensures Collect(exs, pairs)
      == Collect(exs[..k], pairs) + FetchOneExchange(exs[k], pairs) + Collect(exs[k + 1..], pairs)
  {
    assert exs == exs[..k] + [exs[k]] + exs[k + 1..];
    CollectAppend(exs[..k] + [exs[k]], exs[k + 1..], pairs);
    CollectAppend(exs[..k], [exs[k]], pairs);
    assert [exs[k]][..0] == [];
  }

  /** When every catalog loads, there is one record per (exchange, pair). */
  lemma AllLoadedSize(exs: seq<Exchange>, pairs: seq<string>)
    requires forall i :: 0 <= i < |exs| ==> exs[i].loadMarkets.Returned?
    ensures |Collect(exs, pairs)| == |exs| * |pairs|
  {
    CollectLength(exs, pairs);
  }

  /** Replacing a loading exchange by one whose catalog fails drops exactly
      that exchange's records and leaves the others in place. */
  lemma CatalogFailureDropsOneExchange(exs: seq<Exchange>, pairs: seq<string>, k: nat, failing: Exchange)
    requires k < |exs| && exs[k].loadMarkets.Returned? && failing.loadMarkets.Raised?
    ensures Collect(exs[k := failing], pairs) == Collect(exs[..k], pairs) + Collect(exs[k + 1..], pairs)
    ensures |Collect(exs[k := failing], pairs)| + |pairs| == |Collect(exs, pairs)|
  {
    var exs' := exs[k := failing];
    assert exs'[..k] == exs[..k];
    assert exs'[k + 1..] == exs[k + 1..];
    CollectSplitsAt(exs', pairs, k);
    assert exs'[k] == failing;
    assert FetchOneExchange(failing, pairs) == [];
    var before, after := Collect(exs[..k], pairs), Collect(exs[k + 1..], pairs);
    assert Collect(exs', pairs) == before + [] + after;
    SplitLength(exs, pairs, k);
  }

  lemma SplitLength(exs: seq<Exchange>, pairs: seq<string>, k: nat)
    requires k < |exs| && exs[k].loadMarkets.Returned?
    ensures |Collect(exs, pairs)| == |Collect(exs[..k], pairs)| + |pairs| + |Collect(exs[k + 1..], pairs)|
  {
    CollectSplitsAt(exs, pairs, k);
  }

  /** The futures table after the builders finished in `order` (each entry an
      index into `exs`): every finished index holds its own exchange's list. */
  function Completed(exs: seq<Exchange>, pairs: seq<string>, order: seq<nat>): (done: map<nat, seq<Record>>)
    requires forall j :: 0 <= j < |order| ==> order[j] < |exs|
    ensures forall i :: i in done <==> i in order
    ensures forall i :: i in done ==> i < |exs| && done[i] == FetchOneExchange(exs[i], pairs)
  {
    if |order| == 0 then map[]
    else
      var i := order[|order| - 1];
      var prev := Completed(exs, pairs, order[..|order| - 1]);
      assert forall x :: x in order <==> x in order[..|order| - 1] || x == i;
      prev[i := FetchOneExchange(exs[i], pairs)]
  }

  /** Reading the first n futures in submission order and extending the output list. */
  function ReadFutures(done: map<nat, seq<Record>>, n: nat): seq<Record>
    requires forall i :: 0 <= i < n ==> i in done
  {
    if n == 0 then [] else ReadFutures(done, n - 1) + done[n - 1]
  }

  /** Whatever order the pool finishes the builders in, reading the futures in
      submission order yields the sequential snapshot. */
  lemma PoolOrderIrrelevant(exs: seq<Exchange>, pairs: seq<string>, order: seq<nat>)
    requires forall j :: 0 <= j < |order| ==> order[j] < |exs|
    requires forall i :: 0 <= i < |exs| ==> i in order
    ensures ReadFutures(Completed(exs, pairs, order), |exs|) == Collect(exs, pairs)
  {
    var done := Completed(exs, pairs, order);
    ReadPrefix(exs, pairs, done, |exs|);
    assert exs[..|exs|] == exs;
  }

  lemma {:induction false} ReadPrefix(exs: seq<Exchange>, pairs: seq<string>, done: map<nat, seq<Record>>, n: nat)
    requires n <= |exs|
    requires forall i :: 0 <= i < n ==> i in done && done[i] == FetchOneExchange(exs[i], pairs)
    ensures ReadFutures(done, n) == Collect(exs[..n], pairs)
  {
    if n > 0 {
      ReadPrefix(exs, pairs, done, n - 1);
      assert exs[..n][..n - 1] == exs[..n - 1];
    }
  }

  /** With the six configured exchanges all reachable, the snapshot holds twelve records. */
  lemma ConfiguredSnapshotSize(exs: seq<Exchange>)
    requires |exs| == |ExchangeIds|
    requires forall i :: 0 <= i < |exs| ==> exs[i].id == ExchangeIds[i]
    requires forall i :: 0 <= i < |exs| ==> exs[i].loadMarkets.Returned?
    ensures |GetData(exs)| == 12
  {
    AllLoadedSize(exs, TargetPairs);
  }

  /** The exchange names shown in the records. */
  lemma ExchangeNames()
    ensures Upper(ExchangeIds[0]) == "BYBIT" && Upper(ExchangeIds[4]) == "HTX"
  {
  }
}
