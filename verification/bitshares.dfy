/** The Bitshares provider: collects the account's operation history page by page, keeps the
    amount-carrying operations up to a cutoff, resolves each asset through a memo cache, and
    sums the signed, precision-aligned amounts per asset. The explorer's history pages and its
    asset-metadata endpoint are inputs: `pages[i]` is the batch returned for page `i`, and
    `fetch` is the metadata endpoint. */
module Bitshares {
  import opened Results
  import opened Balances

  /** The name the report generator dispatches on. */
  const BlockchainType: string := "Bitshares"

  /** The chain's own currency, BTS. */
  const BtsAssetId: string := "1.3.0"

  /** Precision of every predefined asset. */
  const PredefinedPrecision: int := 5

  /** Assets known without asking the explorer: id to display name and platform id. */
  const PredefinedAssets: map<string, (string, string)> :=
    map[BtsAssetId := ("BTS", "20ce0468-917e-4097-abba-edf7c8600cfb")]

  datatype Amount = Amount(assetId: string, value: int)

  /** The part of an operation the replay reads; either field may be null. */
  datatype Operation = Operation(to: Option<string>, amount: Option<Amount>)

  datatype HistoryEntry = HistoryEntry(timestamp: int, op: Operation)

  /** An operation that carries an amount: what the replay folds. */
  datatype Transfer = Transfer(timestamp: int, to: Option<string>, amount: Amount)

  /** The asset endpoint's answer. */
  datatype AssetMeta = AssetMeta(symbol: string, precision: int)

  /** A resolved asset with the number of decimal places of its raw amounts. */
  datatype AssetInfo = AssetInfo(asset: Asset, precision: int)

  type AssetCache = map<string, AssetInfo>

  /** The outcome of one asset lookup: the answer, the cache afterwards, and whether the
      explorer was asked. */
  datatype Resolution = Resolution(info: AssetInfo, cache: AssetCache, fetched: bool)

  /** What the provider hands back: the balances and its cache for later calls. */
  datatype Report = Report(balances: BalanceMap, cache: AssetCache)

  /** Looks an asset up in the cache, then in the predefined table, then at the explorer,
      and remembers the answer. */
  function GetAssetInfo(cache: AssetCache, fetch: string -> AssetMeta, assetId: string): (r: Resolution)
    ensures r.cache == cache[assetId := r.info]
    ensures assetId in cache ==> r.info == cache[assetId] && !r.fetched
    ensures r.fetched <==> assetId !in cache && assetId !in PredefinedAssets
    ensures assetId !in cache && assetId in PredefinedAssets ==>
      r.info == AssetInfo(
        Asset(PredefinedAssets[assetId].0, assetId, Some(PredefinedAssets[assetId].1)), PredefinedPrecision)
    ensures r.fetched ==>
      r.info == AssetInfo(Asset(fetch(assetId).symbol, assetId, None), fetch(assetId).precision)
  {
    if assetId in cache then Resolution(cache[assetId], cache, false)
    else
      var info :=
        if assetId in PredefinedAssets then
          var data := PredefinedAssets[assetId];
          AssetInfo(Asset(data.0, assetId, Some(data.1)), PredefinedPrecision)
        else
          var meta := fetch(assetId);
          AssetInfo(Asset(meta.symbol, assetId, None), meta.precision);
      Resolution(info, cache[assetId := info], assetId !in PredefinedAssets)
  }

  /** The paging loop: append each batch, and stop right after the first empty one. */
  function CollectHistory(pages: seq<seq<HistoryEntry>>, page: nat, history: seq<HistoryEntry>)
    : Result<seq<HistoryEntry>, ReplayError>
    decreases |pages| - page
  {
    if page >= |pages| then Failure(OutOfPages)
    else
      var batch := pages[page];
      var collected := history + batch;
      if |batch| == 0 then Success(collected)
      else CollectHistory(pages, page + 1, collected)
  }

  /** The entries the replay reads: not after the cutoff and carrying an amount. */
  predicate Kept(e: HistoryEntry, at: int)
  {
    e.timestamp <= at && e.op.amount.Some?
  }

  function AsTransfer(e: HistoryEntry): Transfer
    requires e.op.amount.Some?
  {
    Transfer(e.timestamp, e.op.to, e.op.amount.value)
  }

  /** The kept entries of `history`, in history order. */
  function Eligible(history: seq<HistoryEntry>, at: int): (r: seq<Transfer>)
    ensures |r| <= |history|
    ensures forall e :: e in history && Kept(e, at) ==> AsTransfer(e) in r
    ensures forall t :: t in r ==> exists e :: e in history && Kept(e, at) && AsTransfer(e) == t
  {
    if |history| == 0 then []
    else
      var head := if Kept(history[0], at) then [AsTransfer(history[0])] else [];
      head + Eligible(history[1..], at)
  }

  predicate SortedByTimestampDescending(ts: seq<Transfer>)
  {
    forall i, j :: 0 <= i < j < |ts| ==> ts[i].timestamp >= ts[j].timestamp
  }

  /** Places `t` before the first element that is not later than it. */
  function Insert(t: Transfer, ts: seq<Transfer>): (r: seq<Transfer>)
    requires SortedByTimestampDescending(ts)
    ensures SortedByTimestampDescending(r)
    ensures multiset(r) == multiset(ts) + multiset{t}
    decreases |ts|
  {
    if |ts| == 0 then [t]
    else if ts[0].timestamp <= t.timestamp then
      assert ts == [ts[0]] + ts[1..];
      [t] + ts
    else
      var rest := Insert(t, ts[1..]);
      InsertBelowHead(t, ts, rest);
      [ts[0]] + rest
  }

  /** Every element inserted behind the head of a sorted sequence is no later than the head. */
  lemma InsertBelowHead(t: Transfer, ts: seq<Transfer>, rest: seq<Transfer>)
    requires |ts| > 0 && SortedByTimestampDescending(ts) && t.timestamp < ts[0].timestamp
    requires SortedByTimestampDescending(rest) && multiset(rest) == multiset(ts[1..]) + multiset{t}
    ensures SortedByTimestampDescending([ts[0]] + rest)
    ensures multiset([ts[0]] + rest) == multiset(ts) + multiset{t}
  {
    forall u | u in rest ensures u.timestamp <= ts[0].timestamp {
      assert u in multiset(rest);
      if u != t {
        assert u in multiset(ts[1..]);
        var k :| 0 <= k < |ts[1..]| && ts[1..][k] == u;
        assert ts[k + 1] == u;
      }
    }
    var r := [ts[0]] + rest;
    forall i, j | 0 <= i < j < |r| ensures r[i].timestamp >= r[j].timestamp {
      if i == 0 {
        assert r[j] == rest[j - 1];
        assert rest[j - 1] in rest;
      } else {
        assert r[i] == rest[i - 1] && r[j] == rest[j - 1];
      }
    }
    assert ts == [ts[0]] + ts[1..];
  }

  /** The entries reordered latest first; entries with equal timestamps keep their order. */
  function OrderByTimestampDescending(ts: seq<Transfer>): (r: seq<Transfer>)
    ensures SortedByTimestampDescending(r)
    ensures multiset(r) == multiset(ts)
  {
    if |ts| == 0 then []
    else
      var sorted := OrderByTimestampDescending(ts[1..]);
      assert ts == [ts[0]] + ts[1..];
      Insert(ts[0], sorted)
  }

  function Pow10(n: nat): (p: nat)
    ensures p >= 1
  {
    if n == 0 then 1 else 10 * Pow10(n - 1)
  }

  /** `10` raised to the precision, as an exact rational. */
  function Denominator(precision: int): (d: real)
    ensures d > 0.0
  {
    if precision >= 0 then Pow10(precision) as real else 1.0 / Pow10(-precision) as real
  }

  /** A raw amount in units of the asset. */
  function Aligned(value: int, precision: int): real
  {
    value as real / Denominator(precision)
  }

  /** The signed change one transfer makes: BTS amounts are floored to whole units first, and the
      amount counts as incoming only when the account is the exact recipient. */
  function BalanceChange(address: string, info: AssetInfo, t: Transfer): real
  {
    var aligned := Aligned(t.amount.value, info.precision);
    var amount := if info.asset.blockchainId == BtsAssetId then aligned.Floor as real else aligned;
    if t.to == Some(address) then amount else amount * -1.0
  }

  /** One transfer folded into the balances: resolve its asset, then add its signed change. */
  function Step(address: string, fetch: string -> AssetMeta, t: Transfer, cache: AssetCache, balances: BalanceMap)
    : Report
  {
    var resolved := GetAssetInfo(cache, fetch, t.amount.assetId);
    var sum := Get(balances, resolved.info.asset);
    var change := BalanceChange(address, resolved.info, t);
    Report(balances[resolved.info.asset := sum + change], resolved.cache)
  }

  /** Folds the transfers, in the given order, into the balances, threading the asset cache. */
  function Replay(address: string, fetch: string -> AssetMeta, ts: seq<Transfer>, cache: AssetCache, balances: BalanceMap)
    : Report
    decreases |ts|
  {
    if |ts| == 0 then Report(balances, cache)
    else
      var next := Step(address, fetch, ts[0], cache, balances);
      Replay(address, fetch, ts[1..], next.cache, next.balances)
  }

  /** The whole call: the history pages, the metadata endpoint and the cache in, the account's
      balances as of `at` and the updated cache out. */
  function GetBalances(
    address: string, at: int, pages: seq<seq<HistoryEntry>>, cache: AssetCache, fetch: string -> AssetMeta)
    : Result<Report, ReplayError>
  {
    match CollectHistory(pages, 0, [])
    case Failure(e) => Failure(e)
    case Success(history) =>
      Success(Replay(address, fetch, OrderByTimestampDescending(Eligible(history, at)), cache, map[]))
  }
}
