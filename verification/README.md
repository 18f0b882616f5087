# crypto-monitor collector, modelled in Dafny

The program polls several cryptocurrency exchanges for a fixed list of trading pairs and builds one record per (exchange, pair). Each record has a status (`Active`, `Not Listed`, `Error`), the last price, and the bid and ask depth. Depth is the notional value resting within 2% of the last price. This project models the three parts of `run.py` that do this work:

- `Depth` (depth.dfy): `calculate_depth`. Each side of the book is summed over the longest prefix of levels that lie inside the band. The scan stops at the first level outside the band. There are three forms: `ScanSum`, the early-exit scan as a recursive function; `ScanLevels`/`CalculateDepth`, the source's loops with `break`; and `PrefixTotal`, the reference meaning (the total of the longest in-band prefix). Lemmas connect all three.
- `Fetcher` (fetcher.dfy): `fetch_one_exchange`. The exchange client is an oracle value (`Exchange`). It holds the outcome of loading the market catalog and, per symbol, the outcome of `fetch_ticker` and `fetch_order_book`. Each outcome either returns or raises.
- `Collector` (collector.dfy): `get_data`. The per-exchange lists are concatenated in the order the exchanges are configured. The thread pool is modelled as builders that finish in an arbitrary order, with the futures then read in submission order.
- `Outcomes` (outcomes.dfy) holds `Option` (Python's `None`) and `Call` (returned or raised).

Numbers are `real`, and the band factors are the exact rationals 98/100 and 102/100. A falsy order book (`None` or `{}`) is `None`. A falsy price is `None` or `0.0`.

Behaviour of `run.py` worth noting:
- A negative last price is truthy in Python, so it is scanned with bands computed from the negative price. It does not give (0, 0).
- `Not Listed` and `Error` records carry price `0`, not an absent price.
- An `Active` record whose ticker has no last price carries an absent price and depths (0, 0).
- An exchange whose catalog fails contributes no records, so the snapshot holds fewer than exchanges × pairs records.

## Model

| member | source | states |
|---|---|---|
| Depth.PrefixLen | run.py:159-163 | the number of levels the scan accepts: every level before it is in the band, and the level at it (if any) is not, so it is the longest in-band prefix |
| Depth.ScanLevels | run.py:157-163 | the loop with `break` returns the total notional of the longest in-band prefix of one side |
| Depth.CalculateDepth | run.py:150-173 | the source's early return plus two scanning loops compute exactly `DepthOf` |
| Depth.DepthOf | run.py:150-173 | no book, or a price of None or zero, gives (0, 0); otherwise the bid depth is the total of the longest prefix of bids at or above 98% of the price, and the ask depth is the same for asks at or below 102% |
| Depth.ScanIsPrefixTotal | run.py:159-171 | `ScanSum`, the early-exit scan of one side (add while in band, stop at the first level outside), equals the total of the longest in-band prefix |
| Depth.ScanIgnoresTail | run.py:159-171 | levels appended after any out-of-band level never change a side's sum, even levels that would pass |
| Depth.BidsIgnoreLevelsAfterExit | run.py:157-163 | appending bids after a bid below 98% of the price leaves the result unchanged |
| Depth.AsksIgnoreLevelsAfterExit | run.py:165-171 | appending asks after an ask above 102% of the price leaves the result unchanged |
| Depth.SidesIndependent | run.py:157-171 | the bid depth does not depend on the asks, and the ask depth does not depend on the bids |
| Depth.DepthNonNegative | run.py:157-173 | with non-negative prices and amounts on both sides, both depths are non-negative for every price |
| Depth.BestFirstScanIsFullFilter | run.py:159-171 | on bids sorted descending (asks ascending) the early exit loses nothing: the scan equals the sum over every in-band level |
| Depth.UnsortedBidsUndercount | run.py:159-163 | on out-of-order bids (100, 97, 99) with the band edge at 98, the scan counts 100 while the in-band levels total 199 |
| Depth.WorkedExample | run.py:150-173 | bids (100,1),(99,2),(95,3) and asks (101,1),(103,2),(110,5) at price 100 give depths 298 and 101 |
| Fetcher.Upper | run.py:178 | the exchange name has the id's length, contains no lower-case ASCII letter, and changes only lower-case letters |
| Fetcher.UpperIdempotent | run.py:178 | upper-casing an already upper-cased name changes nothing |
| Fetcher.PairRecord | run.py:186-204 | a pair missing from the catalog is `Not Listed`; a listed pair whose ticker or book fetch raises is `Error`; both carry price 0 and depths 0; otherwise it is `Active` with the ticker's last price and the calculator's depths, so a missing last price gives depths 0 |
| Fetcher.BuildRecords | run.py:185-205 | the loop emits one record per configured pair, in order, and the i-th record is pair i's record |
| Fetcher.FetchOneExchange | run.py:175-205 | a failed catalog load gives the empty list; otherwise one record per pair, in order, each carrying that symbol and the upper-cased exchange id |
| Fetcher.PairIsolation | run.py:185-204 | two exchanges that agree on id, catalog and pair i's fetch outcomes give the same i-th record, whatever happens for other pairs |
| Fetcher.TickerFaultIsolated | run.py:188-202 | making the ticker raise for one symbol changes no other pair's record; that symbol's record becomes `Error` if listed and stays `Not Listed` otherwise; the output changes only if the symbol is configured and listed |
| Fetcher.DepthsNonNegative | run.py:193-199 | when every returned book has non-negative prices and amounts, every record's depths are non-negative |
| Collector.Collect | run.py:211-219 | each record's symbol is a configured pair (the concatenation order is stated by `CollectSplitsAt`) |
| Collector.GetData | run.py:211-219 | every served record is for `XTER/USDT` or `PAL/USDT` |
| Collector.CollectLength | run.py:216-218 | the snapshot holds (number of exchanges whose catalog loads) × (number of pairs) records |
| Collector.CollectAppend | run.py:216-218 | collecting two exchange lists in turn equals collecting their concatenation |
| Collector.CollectSplitsAt | run.py:216-218 | exchange k's records sit, unchanged, between those of the exchanges before it and after it |
| Collector.AllLoadedSize | run.py:216-218 | when every catalog loads there are exactly exchanges × pairs records |
| Collector.CatalogFailureDropsOneExchange | run.py:180-183 | if one exchange's catalog fails, its records disappear, the others stay in order, and the size drops by exactly the number of pairs |
| Collector.Completed | run.py:215-216 | every finished future holds its own exchange's list, and exactly the finished indices are present |
| Collector.ReadPrefix | run.py:217-218 | `ReadFutures`, extending the output with the first n futures read in submission order, gives the snapshot of the first n exchanges when each future holds its own exchange's list |
| Collector.PoolOrderIrrelevant | run.py:215-218 | whatever order the builders finish in, reading the futures in submission order gives the sequential snapshot |
| Collector.ConfiguredSnapshotSize | run.py:9-25 | with the six configured exchanges (ids `bybit` … `kucoin`, in order) all reachable and the two configured pairs, the snapshot holds 12 records |
| Collector.ExchangeNames | run.py:18-25 | the configured ids `bybit` and `htx` appear as `BYBIT` and `HTX` |

## Left out

- The HTML/CSS/JS page, the threshold colouring and the client-side skipping of `Not Listed` rows (run.py:28-148): presentation only.
- The Flask routes and startup (run.py:207-225): HTTP plumbing. `GetData` models only the body of `get_data`, not the JSON encoding.
- The ccxt clients (run.py:1, 18-25): foreign network code. Each client is an `Exchange` oracle fixed for one cycle. The `limit=200` argument of `fetch_order_book` is part of the oracle and is not checked.
- Collector.Completed: the thread pool (`max_workers=5`) is not simulated. It is modelled only through the order in which builders finish, and every order gives the same result. Latency is not modelled.
- Depth.DepthOf: float rounding in `price * 0.98`, `price * 1.02` and the sums is not modelled. Arithmetic is exact over `real`.
- Fetcher.Upper: only ASCII letters are upper-cased. Python's `str.upper` also maps non-ASCII letters. Exchange ids are ASCII.
- Fetcher.FetchOneExchange: the oracle gives one outcome per symbol. If a pair were configured twice, the source would fetch it twice and could get two different answers.
- Malformed responses (a missing `last` or `bids` key, levels that are not price/amount pairs, non-numeric fields) make the source raise inside the `try`. The model represents them as the oracle's `Raised` outcome, not as separate inputs.
- The catalog cached by the client between cycles (`exchange.markets`): each cycle's catalog outcome is an input.
- run.py sets no timeout on its clients, so none is modelled.
