/** A closed-form account of what the Bitshares provider computes, and the lemmas that tie the
    paging loop, the asset cache and the ordered fold in module Bitshares to it. */
module BitsharesProofs {
  import opened Results
  import opened Balances
  import opened Bitshares
  import Text

  // ---------------------------------------------------------------------------------------
  // Pagination

  /** All batches of `pages`, in page order. */
  function Concat(pages: seq<seq<HistoryEntry>>): seq<HistoryEntry>
  {
    if |pages| == 0 then [] else Concat(pages[..|pages| - 1]) + pages[|pages| - 1]
  }

  function EmptyFrom(pages: seq<seq<HistoryEntry>>, i: nat): (r: Option<nat>)
    ensures r.Some? ==> i <= r.value < |pages| && pages[r.value] == []
    ensures r.Some? ==> forall m: nat :: i <= m < r.value ==> pages[m] != []
    ensures r.None? ==> forall m: nat :: i <= m < |pages| ==> pages[m] != []
    decreases |pages| - i
  {
    if i >= |pages| then None
    else if pages[i] == [] then Some(i)
    else EmptyFrom(pages, i + 1)
  }

  /** The first empty batch, if the supplied pages contain one. */
  function FirstEmpty(pages: seq<seq<HistoryEntry>>): (r: Option<nat>)
    ensures r.Some? ==> r.value < |pages| && pages[r.value] == [] && forall m: nat :: m < r.value ==> pages[m] != []
    ensures r.None? ==> forall m: nat :: m < |pages| ==> pages[m] != []
  {
    EmptyFrom(pages, 0)
  }

  lemma {:induction false} CollectHistoryFrom(pages: seq<seq<HistoryEntry>>, i: nat)
    requires i <= |pages|
    requires forall m: nat :: m < i ==> pages[m] != []
    ensures CollectHistory(pages, i, Concat(pages[..i])) ==
      match FirstEmpty(pages)
      case Some(k) => Success(Concat(pages[..k]))
      case None => Failure(OutOfPages)
    decreases |pages| - i
  {
    if i < |pages| {
      assert pages[..i + 1][..i] == pages[..i];
      assert Concat(pages[..i + 1]) == Concat(pages[..i]) + pages[i];
      if pages[i] == [] {
        assert FirstEmpty(pages) == Some(i);
        assert Concat(pages[..i]) + pages[i] == Concat(pages[..i]);
      } else {
        CollectHistoryFrom(pages, i + 1);
      }
    }
  }

  /** Pages 0, 1, 2, ... are read in order until the first empty batch; the history is every
      batch before it, in page order. Pages that never end in an empty batch give no history. */
  lemma CollectHistorySpec(pages: seq<seq<HistoryEntry>>)
    ensures CollectHistory(pages, 0, []) ==
      match FirstEmpty(pages)
      case Some(k) => Success(Concat(pages[..k]))
      case None => Failure(OutOfPages)
  {
    assert pages[..0] == [];
    CollectHistoryFrom(pages, 0);
  }

  /** Pages after the first empty batch are never read. */
  lemma LaterPagesIgnored(pages: seq<seq<HistoryEntry>>, extra: seq<seq<HistoryEntry>>)
    requires FirstEmpty(pages).Some?
    ensures CollectHistory(pages + extra, 0, []) == CollectHistory(pages, 0, [])
  {
    var k := FirstEmpty(pages).value;
    var longer := pages + extra;
    assert longer[k] == [];
    assert FirstEmpty(longer) == Some(k);
    assert longer[..k] == pages[..k];
    CollectHistorySpec(longer);
    CollectHistorySpec(pages);
  }

  // ---------------------------------------------------------------------------------------
  // Filtering

  lemma {:induction false} EligibleAppend(a: seq<HistoryEntry>, b: seq<HistoryEntry>, at: int)
    ensures Eligible(a + b, at) == Eligible(a, at) + Eligible(b, at)
    decreases |a|
  {
    if |a| == 0 {
      assert a + b == b;
    } else {
      assert (a + b)[1..] == a[1..] + b;
      EligibleAppend(a[1..], b, at);
    }
  }

  /** An entry after the cutoff, or without an amount, is dropped wherever it sits in the history. */
  lemma DroppedEntryIgnored(a: seq<HistoryEntry>, e: HistoryEntry, b: seq<HistoryEntry>, at: int)
    requires !Kept(e, at)
    ensures Eligible(a + [e] + b, at) == Eligible(a + b, at)
  {
    EligibleAppend(a + [e], b, at);
    EligibleAppend(a, [e], at);
    EligibleAppend(a, b, at);
    assert Eligible([e], at) == [] + Eligible([e][1..], at);
    assert [e][1..] == [];
  }

  /** A single entry yields its transfer when it is kept and nothing otherwise. With
      `EligibleAppend` this fixes the filter on every history, order and repetitions included. */
  lemma EligibleSingle(e: HistoryEntry, at: int)
    ensures Eligible([e], at) == if Kept(e, at) then [AsTransfer(e)] else []
  {
    assert [e][1..] == [];
  }

  /** The cutoff is inclusive: an amount-carrying entry stamped exactly `at` is kept, one a tick later is not. */
  lemma CutoffInclusive(e: HistoryEntry, at: int)
    requires e.op.amount.Some?
    ensures e.timestamp == at ==> Eligible([e], at) == [AsTransfer(e)]
    ensures e.timestamp == at + 1 ==> Eligible([e], at) == []
  {
    EligibleSingle(e, at);
  }

  /** A kept entry is kept in place: its transfer sits between those of the entries around it. */
  lemma KeptEntryInPlace(a: seq<HistoryEntry>, e: HistoryEntry, b: seq<HistoryEntry>, at: int)
    requires Kept(e, at)
    ensures Eligible(a + [e] + b, at) == Eligible(a, at) + [AsTransfer(e)] + Eligible(b, at)
  {
    EligibleAppend(a + [e], b, at);
    EligibleAppend(a, [e], at);
    EligibleSingle(e, at);
  }

  /** Repetitions are kept: an entry that occurs twice yields its transfer twice. */
  lemma RepeatedEntryCountsTwice(a: seq<HistoryEntry>, e: HistoryEntry, b: seq<HistoryEntry>, at: int)
    requires Kept(e, at)
    ensures Eligible(a + [e, e] + b, at) == Eligible(a, at) + [AsTransfer(e), AsTransfer(e)] + Eligible(b, at)
  {
    var t := AsTransfer(e);
    var rest := [e] + b;
    assert a + [e, e] + b == a + [e] + rest;
    KeptEntryInPlace(a, e, rest, at);
    EligibleAppend([e], b, at);
    EligibleSingle(e, at);
    assert Eligible(rest, at) == [t] + Eligible(b, at);
  }

  // ---------------------------------------------------------------------------------------
  // Asset resolution

  /** The answer a lookup of `assetId` gives against `cache`. */
  function Resolve(cache: AssetCache, fetch: string -> AssetMeta, assetId: string): AssetInfo
  {
    GetAssetInfo(cache, fetch, assetId).info
  }

  /** Every cached entry describes the asset it is stored under. */
  predicate WellFormedCache(cache: AssetCache)
  {
    forall id :: id in cache ==> cache[id].asset.blockchainId == id
  }

  /** A second lookup of the same asset asks nobody, gives the identical answer and leaves the cache as it was. */
  lemma ResolveTwice(cache: AssetCache, fetch: string -> AssetMeta, assetId: string)
    ensures
      var first := GetAssetInfo(cache, fetch, assetId);
      var second := GetAssetInfo(first.cache, fetch, assetId);
      !second.fetched && second.info == first.info && second.cache == first.cache
  {
  }

  /** A lookup changes what no other lookup answers: caching only remembers. */
  lemma ResolutionStable(cache: AssetCache, fetch: string -> AssetMeta, assetId: string, other: string)
    ensures Resolve(GetAssetInfo(cache, fetch, assetId).cache, fetch, other) == Resolve(cache, fetch, other)
  {
  }

  /** Lookups keep the cache well formed, and then resolve an id to an asset with that id;
      in particular BTS resolves to the predefined asset with precision 5. */
  lemma WellFormedResolution(cache: AssetCache, fetch: string -> AssetMeta, assetId: string)
    requires WellFormedCache(cache)
    ensures WellFormedCache(GetAssetInfo(cache, fetch, assetId).cache)
    ensures Resolve(cache, fetch, assetId).asset.blockchainId == assetId
    ensures assetId == BtsAssetId && assetId !in cache ==>
      Resolve(cache, fetch, assetId) ==
        AssetInfo(Asset("BTS", BtsAssetId, Some("20ce0468-917e-4097-abba-edf7c8600cfb")), 5)
  {
  }

  // ---------------------------------------------------------------------------------------
  // Reference sums

  function AssetOf(cache: AssetCache, fetch: string -> AssetMeta, t: Transfer): Asset
  {
    Resolve(cache, fetch, t.amount.assetId).asset
  }

  /** The net change the transfers of `ts` make to asset `a`. */
  function AssetSum(address: string, fetch: string -> AssetMeta, cache: AssetCache, ts: seq<Transfer>, a: Asset): real
  {
    if |ts| == 0 then 0.0
    else
      var t := ts[0];
      var change := if AssetOf(cache, fetch, t) == a then BalanceChange(address, Resolve(cache, fetch, t.amount.assetId), t) else 0.0;
      change + AssetSum(address, fetch, cache, ts[1..], a)
  }

  function AssetsOf(fetch: string -> AssetMeta, cache: AssetCache, ts: seq<Transfer>): set<Asset>
  {
    set t | t in ts :: AssetOf(cache, fetch, t)
  }

  function Ids(ts: seq<Transfer>): set<string>
  {
    set t | t in ts :: t.amount.assetId
  }

  /** `acc` with the net change of `ts` added to every asset. */
  function Accumulated(address: string, fetch: string -> AssetMeta, cache: AssetCache, acc: BalanceMap, ts: seq<Transfer>)
    : BalanceMap
  {
    map a | a in acc.Keys + AssetsOf(fetch, cache, ts) :: Get(acc, a) + AssetSum(address, fetch, cache, ts, a)
  }

  /** The balances `ts` alone produce. */
  function Totals(address: string, fetch: string -> AssetMeta, cache: AssetCache, ts: seq<Transfer>): BalanceMap
  {
    Accumulated(address, fetch, cache, map[], ts)
  }

  /** The cache after resolving every asset of `ts`. */
  function CacheAfter(fetch: string -> AssetMeta, cache: AssetCache, ts: seq<Transfer>): AssetCache
  {
    map id | id in cache.Keys + Ids(ts) :: Resolve(cache, fetch, id)
  }

  lemma {:induction false} AssetSumCongruent(
    address: string, fetch: string -> AssetMeta, c1: AssetCache, c2: AssetCache, ts: seq<Transfer>, a: Asset)
    requires forall id :: Resolve(c1, fetch, id) == Resolve(c2, fetch, id)
    ensures AssetSum(address, fetch, c1, ts, a) == AssetSum(address, fetch, c2, ts, a)
    decreases |ts|
  {
    if |ts| > 0 {
      AssetSumCongruent(address, fetch, c1, c2, ts[1..], a);
    }
  }

  /** An asset no transfer of `ts` resolves to is not changed by `ts`. */
  lemma {:induction false} AssetSumOutside(address: string, fetch: string -> AssetMeta, cache: AssetCache, ts: seq<Transfer>, a: Asset)
    requires a !in AssetsOf(fetch, cache, ts)
    ensures AssetSum(address, fetch, cache, ts, a) == 0.0
    decreases |ts|
  {
    if |ts| > 0 {
      assert ts[0] in ts;
      assert AssetsOf(fetch, cache, ts[1..]) <= AssetsOf(fetch, cache, ts) by {
        forall t | t in ts[1..] ensures t in ts { }
      }
      AssetSumOutside(address, fetch, cache, ts[1..], a);
    }
  }

  lemma AssetsOfCons(fetch: string -> AssetMeta, cache: AssetCache, ts: seq<Transfer>)
    requires |ts| > 0
    ensures AssetsOf(fetch, cache, ts) == {AssetOf(cache, fetch, ts[0])} + AssetsOf(fetch, cache, ts[1..])
    ensures Ids(ts) == {ts[0].amount.assetId} + Ids(ts[1..])
  {
    assert ts == [ts[0]] + ts[1..];
    forall u ensures u in ts <==> u == ts[0] || u in ts[1..] { }
  }

  /** Resolving the head of `ts` changes no answer for the rest. */
  lemma StepResolvesAlike(address: string, fetch: string -> AssetMeta, t: Transfer, cache: AssetCache, acc: BalanceMap)
    ensures forall id :: Resolve(Step(address, fetch, t, cache, acc).cache, fetch, id) == Resolve(cache, fetch, id)
  {
    forall id ensures Resolve(Step(address, fetch, t, cache, acc).cache, fetch, id) == Resolve(cache, fetch, id) {
      ResolutionStable(cache, fetch, t.amount.assetId, id);
    }
  }

  /** The balances after one step are the accumulation of that single transfer. */
  lemma StepBalances(address: string, fetch: string -> AssetMeta, ts: seq<Transfer>, cache: AssetCache, acc: BalanceMap, a: Asset)
    requires |ts| > 0
    ensures
      var next := Step(address, fetch, ts[0], cache, acc);
      Get(next.balances, a) + AssetSum(address, fetch, cache, ts[1..], a) == Get(acc, a) + AssetSum(address, fetch, cache, ts, a)
  {
  }

  /** One step of the fold: resolving the head changes no answer, so the rest is summed the same way. */
  lemma StepPreservesReference(address: string, fetch: string -> AssetMeta, ts: seq<Transfer>, cache: AssetCache, acc: BalanceMap)
    requires |ts| > 0
    ensures
      var next := Step(address, fetch, ts[0], cache, acc);
      Accumulated(address, fetch, next.cache, next.balances, ts[1..]) == Accumulated(address, fetch, cache, acc, ts)
  {
    var next := Step(address, fetch, ts[0], cache, acc);
    var left := Accumulated(address, fetch, next.cache, next.balances, ts[1..]);
    var right := Accumulated(address, fetch, cache, acc, ts);
    StepResolvesAlike(address, fetch, ts[0], cache, acc);
    StepKeys(address, fetch, ts, cache, acc);
    forall a | a in left.Keys ensures left[a] == right[a] {
      AssetSumCongruent(address, fetch, next.cache, cache, ts[1..], a);
      StepBalances(address, fetch, ts, cache, acc, a);
    }
    MapsEqual(left, right);
  }

  lemma StepKeys(address: string, fetch: string -> AssetMeta, ts: seq<Transfer>, cache: AssetCache, acc: BalanceMap)
    requires |ts| > 0
    ensures
      var next := Step(address, fetch, ts[0], cache, acc);
      next.balances.Keys + AssetsOf(fetch, next.cache, ts[1..]) == acc.Keys + AssetsOf(fetch, cache, ts)
  {
    var next := Step(address, fetch, ts[0], cache, acc);
    StepResolvesAlike(address, fetch, ts[0], cache, acc);
    AssetsOfCons(fetch, cache, ts);
    assert AssetsOf(fetch, next.cache, ts[1..]) == AssetsOf(fetch, cache, ts[1..]);
  }

  lemma MapsEqual<K, V>(m1: map<K, V>, m2: map<K, V>)
    requires m1.Keys == m2.Keys
    requires forall k :: k in m1 ==> m1[k] == m2[k]
    ensures m1 == m2
  {
  }

  /** One step of the fold leaves the eventual cache unchanged. */
  lemma StepPreservesCache(address: string, fetch: string -> AssetMeta, ts: seq<Transfer>, cache: AssetCache, acc: BalanceMap)
    requires |ts| > 0
    ensures CacheAfter(fetch, Step(address, fetch, ts[0], cache, acc).cache, ts[1..]) == CacheAfter(fetch, cache, ts)
  {
    var t := ts[0];
    var c' := Step(address, fetch, t, cache, acc).cache;
    forall id ensures Resolve(c', fetch, id) == Resolve(cache, fetch, id) {
      ResolutionStable(cache, fetch, t.amount.assetId, id);
    }
    AssetsOfCons(fetch, cache, ts);
  }

  /** The fold computes the reference: every asset's balance grows by its net change, and the
      cache ends up remembering every asset the transfers mention. */
  lemma {:induction false} ReplayMatchesAccumulated(
    address: string, fetch: string -> AssetMeta, ts: seq<Transfer>, cache: AssetCache, acc: BalanceMap)
    ensures Replay(address, fetch, ts, cache, acc) ==
      Report(Accumulated(address, fetch, cache, acc, ts), CacheAfter(fetch, cache, ts))
    decreases |ts|
  {
    if |ts| == 0 {
      assert Accumulated(address, fetch, cache, acc, ts) == acc;
      assert CacheAfter(fetch, cache, ts) == cache;
    } else {
      var next := Step(address, fetch, ts[0], cache, acc);
      ReplayMatchesAccumulated(address, fetch, ts[1..], next.cache, next.balances);
      StepPreservesReference(address, fetch, ts, cache, acc);
      StepPreservesCache(address, fetch, ts, cache, acc);
    }
  }

  // ---------------------------------------------------------------------------------------
  // Order independence

  lemma {:induction false} AssetSumAppend(
    address: string, fetch: string -> AssetMeta, cache: AssetCache, a: seq<Transfer>, b: seq<Transfer>, x: Asset)
    ensures AssetSum(address, fetch, cache, a + b, x) ==
      AssetSum(address, fetch, cache, a, x) + AssetSum(address, fetch, cache, b, x)
    decreases |a|
  {
    if |a| == 0 {
      assert a + b == b;
    } else {
      assert (a + b)[1..] == a[1..] + b;
      AssetSumAppend(address, fetch, cache, a[1..], b, x);
    }
  }

  /** Removing one occurrence of the same element from two permutations leaves permutations. */
  lemma RemoveMatching(ts: seq<Transfer>, us: seq<Transfer>, j: nat)
    requires multiset(ts) == multiset(us) && |ts| > 0 && j < |us| && us[j] == ts[0]
    ensures multiset(ts[1..]) == multiset(us[..j] + us[j + 1..])
  {
    var t := ts[0];
    assert us == us[..j] + [t] + us[j + 1..];
    assert ts == [t] + ts[1..];
    assert multiset(us) == multiset(us[..j]) + multiset{t} + multiset(us[j + 1..]);
    assert multiset(ts) == multiset{t} + multiset(ts[1..]);
    var rest := multiset(us[..j]) + multiset(us[j + 1..]);
    assert multiset(us[..j] + us[j + 1..]) == rest;
    assert multiset{t} + multiset(ts[1..]) == multiset{t} + rest;
    assert multiset(ts[1..]) == (multiset{t} + multiset(ts[1..])) - multiset{t};
    assert rest == (multiset{t} + rest) - multiset{t};
  }

  /** The sum over `us` is the sum without its element `j`, plus that element's share. */
  lemma AssetSumSplit(address: string, fetch: string -> AssetMeta, cache: AssetCache, us: seq<Transfer>, j: nat, x: Asset)
    requires j < |us|
    ensures AssetSum(address, fetch, cache, us, x) ==
      AssetSum(address, fetch, cache, us[..j] + us[j + 1..], x) + AssetSum(address, fetch, cache, [us[j]], x)
  {
    assert us == us[..j] + [us[j]] + us[j + 1..];
    AssetSumAppend(address, fetch, cache, us[..j], us[j + 1..], x);
    AssetSumAppend(address, fetch, cache, us[..j] + [us[j]], us[j + 1..], x);
    AssetSumAppend(address, fetch, cache, us[..j], [us[j]], x);
  }

  lemma {:induction false} AssetSumPermutation(
    address: string, fetch: string -> AssetMeta, cache: AssetCache, ts: seq<Transfer>, us: seq<Transfer>, x: Asset)
    requires multiset(ts) == multiset(us)
    ensures AssetSum(address, fetch, cache, ts, x) == AssetSum(address, fetch, cache, us, x)
    decreases |ts|
  {
    if |ts| == 0 {
      assert |us| == |multiset(us)| == 0;
    } else {
      var t := ts[0];
      assert t in multiset(us);
      var j :| 0 <= j < |us| && us[j] == t;
      RemoveMatching(ts, us, j);
      AssetSumPermutation(address, fetch, cache, ts[1..], us[..j] + us[j + 1..], x);
      AssetSumSplit(address, fetch, cache, us, j, x);
      assert [t] + ts[1..] == ts;
      AssetSumAppend(address, fetch, cache, [t], ts[1..], x);
    }
  }

  /** The reference sums see only which transfers there are, not their order. */
  lemma AccumulatedPermutation(
    address: string, fetch: string -> AssetMeta, cache: AssetCache, ts: seq<Transfer>, us: seq<Transfer>)
    requires multiset(ts) == multiset(us)
    ensures Accumulated(address, fetch, cache, map[], ts) == Accumulated(address, fetch, cache, map[], us)
    ensures CacheAfter(fetch, cache, ts) == CacheAfter(fetch, cache, us)
  {
    SameElements(ts, us);
    assert AssetsOf(fetch, cache, ts) == AssetsOf(fetch, cache, us);
    assert Ids(ts) == Ids(us);
    var left := Accumulated(address, fetch, cache, map[], ts);
    var right := Accumulated(address, fetch, cache, map[], us);
    forall x | x in left.Keys ensures left[x] == right[x] {
      AssetSumPermutation(address, fetch, cache, ts, us, x);
    }
  }

  /** Folding the same transfers in any order gives the same balances and the same cache. */
  lemma ReplayOrderIndependent(
    address: string, fetch: string -> AssetMeta, cache: AssetCache, ts: seq<Transfer>, us: seq<Transfer>)
    requires multiset(ts) == multiset(us)
    ensures Replay(address, fetch, ts, cache, map[]) == Replay(address, fetch, us, cache, map[])
  {
    ReplayMatchesAccumulated(address, fetch, ts, cache, map[]);
    ReplayMatchesAccumulated(address, fetch, us, cache, map[]);
    AccumulatedPermutation(address, fetch, cache, ts, us);
  }

  lemma SameElements(ts: seq<Transfer>, us: seq<Transfer>)
    requires multiset(ts) == multiset(us)
    ensures forall u :: u in ts <==> u in us
  {
    forall u ensures u in ts <==> u in us {
      assert u in ts <==> u in multiset(ts);
      assert u in us <==> u in multiset(us);
    }
  }

  /** Replaying latest first, as the provider does, gives what replaying in history order gives. */
  lemma DescendingOrderIrrelevant(address: string, fetch: string -> AssetMeta, cache: AssetCache, ts: seq<Transfer>)
    ensures Replay(address, fetch, OrderByTimestampDescending(ts), cache, map[]) == Replay(address, fetch, ts, cache, map[])
  {
    ReplayOrderIndependent(address, fetch, cache, OrderByTimestampDescending(ts), ts);
  }

  // ---------------------------------------------------------------------------------------
  // The whole call

  /** The call reports, for the history up to the first empty batch, each asset's net change
      over the kept entries, and the cache with every asset of those entries remembered. */
  lemma GetBalancesSpec(address: string, at: int, pages: seq<seq<HistoryEntry>>, cache: AssetCache, fetch: string -> AssetMeta)
    ensures FirstEmpty(pages).None? ==> GetBalances(address, at, pages, cache, fetch) == Failure(OutOfPages)
    ensures FirstEmpty(pages).Some? ==>
      var ts := Eligible(Concat(pages[..FirstEmpty(pages).value]), at);
      GetBalances(address, at, pages, cache, fetch) ==
        Success(Report(Totals(address, fetch, cache, ts), CacheAfter(fetch, cache, ts)))
  {
    CollectHistorySpec(pages);
    if FirstEmpty(pages).Some? {
      var ts := Eligible(Concat(pages[..FirstEmpty(pages).value]), at);
      DescendingOrderIrrelevant(address, fetch, cache, ts);
      ReplayMatchesAccumulated(address, fetch, ts, cache, map[]);
    }
  }

  /** A history with nothing kept gives an empty balance map. */
  lemma NothingKeptNoBalances(address: string, at: int, pages: seq<seq<HistoryEntry>>, cache: AssetCache, fetch: string -> AssetMeta)
    requires FirstEmpty(pages).Some?
    requires Eligible(Concat(pages[..FirstEmpty(pages).value]), at) == []
    ensures GetBalances(address, at, pages, cache, fetch).Success?
    ensures GetBalances(address, at, pages, cache, fetch).value.balances == map[]
  {
    GetBalancesSpec(address, at, pages, cache, fetch);
    assert AssetsOf(fetch, cache, []) == {};
  }

  /** An asset is reported exactly when some kept transfer resolves to it, with the sum of their changes. */
  lemma TotalsPerAsset(address: string, fetch: string -> AssetMeta, cache: AssetCache, ts: seq<Transfer>, a: Asset)
    ensures a in Totals(address, fetch, cache, ts) <==> exists t :: t in ts && AssetOf(cache, fetch, t) == a
    ensures a in Totals(address, fetch, cache, ts) ==> Totals(address, fetch, cache, ts)[a] == AssetSum(address, fetch, cache, ts, a)
  {
  }

  // ---------------------------------------------------------------------------------------
  // Scaling, flooring and direction

  /** `10^(a + b) == 10^a * 10^b`. */
  lemma {:induction false} Pow10Add(a: nat, b: nat)
    ensures Pow10(a + b) == Pow10(a) * Pow10(b)
    decreases a
  {
    if a > 0 {
      Pow10Add(a - 1, b);
      assert Pow10(a + b) == 10 * Pow10(a - 1 + b);
    }
  }

  /** The divisor is `10^precision`: a power of ten for a non-negative precision, and the
      reciprocal of one for a negative precision; one more digit of precision is ten times more. */
  lemma DenominatorIsPowerOfTen(precision: int)
    ensures precision >= 0 ==> Denominator(precision) == Pow10(precision) as real
    ensures precision < 0 ==> Denominator(precision) * Pow10(-precision) as real == 1.0
    ensures precision >= 0 ==> Denominator(precision + 1) == 10.0 * Denominator(precision)
  {
    if precision >= 0 {
      assert Pow10(precision + 1) == 10 * Pow10(precision);
    }
  }

  /** Scaling respects the number of digits: a raw amount `k` digits longer at a precision `k`
      larger is the same amount of the asset. */
  lemma AlignedRescale(value: int, precision: nat, k: nat)
    ensures Aligned(value * Pow10(k), precision + k) == Aligned(value, precision)
  {
    var a, b := Pow10(precision), Pow10(k);
    DenominatorProduct(precision, k);
    CancelIntFactor(value, a, b);
    assert Denominator(precision) == a as real;
  }

  lemma CancelIntFactor(v: int, a: nat, b: nat)
    requires a > 0 && b > 0
    ensures (v * b) as real / (a * b) as real == v as real / a as real
  {
    ProductAsReal(a, b);
    ProductAsReal(v, b);
    CancelFactor((v * b) as real, (a * b) as real, v as real, a as real, b as real);
  }

  lemma DenominatorProduct(precision: nat, k: nat)
    ensures Denominator(precision + k) == (Pow10(precision) * Pow10(k)) as real
  {
    Pow10Add(precision, k);
  }

  lemma ProductAsReal(x: int, y: int)
    ensures (x * y) as real == x as real * y as real
  {
  }

  lemma CancelFactor(x: real, big: real, v: real, d: real, f: real)
    requires d > 0.0 && f > 0.0 && x == v * f && big == d * f
    ensures x / big == v / d
  {
    assert (v / d) * big == x;
  }

  function Abs(x: real): real
  {
    if x < 0.0 then -x else x
  }

  /** Receiving and sending the same amount are exact opposites, whoever else the recipient is. */
  lemma IncomingOutgoingOpposite(address: string, info: AssetInfo, t: Transfer, other: Option<string>)
    requires other != Some(address)
    ensures BalanceChange(address, info, t.(to := other)) == -BalanceChange(address, info, t.(to := Some(address)))
    ensures BalanceChange(address, info, t.(to := Some(address))) + BalanceChange(address, info, t.(to := other)) == 0.0
  {
  }

  /** The recipient is compared exactly: the address spelled in capitals is someone else, so the
      amount counts as sent. */
  lemma CapitalisedRecipientOutgoing(address: string, info: AssetInfo, t: Transfer)
    requires Text.Upper(address) != address
    requires t.to == Some(Text.Upper(address))
    ensures BalanceChange(address, info, t) == -BalanceChange(address, info, t.(to := Some(address)))
  {
  }

  /** A BTS amount is rounded down to whole BTS: its size is at most the aligned amount and less
      than one BTS below it. */
  lemma BtsChangeFloorBound(address: string, info: AssetInfo, t: Transfer)
    requires info.asset.blockchainId == BtsAssetId && t.amount.value >= 0
    ensures Abs(BalanceChange(address, info, t)) <= Aligned(t.amount.value, info.precision)
      < Abs(BalanceChange(address, info, t)) + 1.0
  {
    var aligned := Aligned(t.amount.value, info.precision);
    assert aligned >= 0.0 by {
      assert Denominator(info.precision) > 0.0;
    }
    assert aligned.Floor >= 0;
  }

  /** Any other asset is not rounded: the change is the aligned amount itself, added when the
      account receives it and subtracted otherwise. */
  lemma OtherAssetUnrounded(address: string, info: AssetInfo, t: Transfer)
    requires info.asset.blockchainId != BtsAssetId
    ensures Abs(BalanceChange(address, info, t)) == Abs(Aligned(t.amount.value, info.precision))
    ensures t.to == Some(address) ==> BalanceChange(address, info, t) == Aligned(t.amount.value, info.precision)
    ensures t.to != Some(address) ==> BalanceChange(address, info, t) == -Aligned(t.amount.value, info.precision)
  {
  }

  /** A received amount never lowers the balance and a sent one never raises it, for every asset. */
  lemma ReceivedAddsSentSubtracts(address: string, info: AssetInfo, t: Transfer)
    requires t.amount.value >= 0
    ensures t.to == Some(address) ==> BalanceChange(address, info, t) >= 0.0
    ensures t.to != Some(address) ==> BalanceChange(address, info, t) <= 0.0
  {
    var aligned := Aligned(t.amount.value, info.precision);
    assert aligned >= 0.0 by {
      assert Denominator(info.precision) > 0.0;
    }
    assert aligned.Floor >= 0;
  }

  /** A BTS change is always a whole number of BTS. */
  lemma BtsChangeIsWhole(address: string, info: AssetInfo, t: Transfer)
    requires info.asset.blockchainId == BtsAssetId
    ensures BalanceChange(address, info, t) == BalanceChange(address, info, t).Floor as real
  {
    var k := Aligned(t.amount.value, info.precision).Floor;
    WholeIsWhole(k);
    WholeIsWhole(-k);
  }

  lemma WholeIsWhole(k: int)
    ensures (k as real).Floor == k
  {
  }

  /** 3544170000 raw BTS received is 35441 BTS, not 35442; 170000 raw BTS sent is -1, not -2. */
  lemma BtsFloorsBeforeSign(address: string, other: string)
    requires other != address
    ensures
      var bts := AssetInfo(Asset("BTS", BtsAssetId, Some("20ce0468-917e-4097-abba-edf7c8600cfb")), 5);
      && BalanceChange(address, bts, Transfer(0, Some(address), Amount(BtsAssetId, 3544170000))) == 35441.0
      && BalanceChange(address, bts, Transfer(0, Some(other), Amount(BtsAssetId, 170000))) == -1.0
  {
    assert Pow10(5) == 100000;
    assert Denominator(5) == 100000.0;
    assert (3544170000 as real / 100000.0).Floor == 35441;
    assert (170000 as real / 100000.0).Floor == 1;
  }

  /** Every BTS balance is a whole number, because every BTS change is. */
  lemma {:induction false} BtsSumIsWhole(address: string, fetch: string -> AssetMeta, cache: AssetCache, ts: seq<Transfer>, a: Asset)
    requires a.blockchainId == BtsAssetId
    ensures AssetSum(address, fetch, cache, ts, a) == AssetSum(address, fetch, cache, ts, a).Floor as real
    decreases |ts|
  {
    if |ts| == 0 {
      WholeIsWhole(0);
    } else {
      var t := ts[0];
      var info := Resolve(cache, fetch, t.amount.assetId);
      var change := if info.asset == a then BalanceChange(address, info, t) else 0.0;
      assert AssetSum(address, fetch, cache, ts, a) == change + AssetSum(address, fetch, cache, ts[1..], a);
      BtsSumIsWhole(address, fetch, cache, ts[1..], a);
      if info.asset == a {
        BtsChangeIsWhole(address, info, t);
      } else {
        WholeIsWhole(0);
      }
      SumOfWholes(change, AssetSum(address, fetch, cache, ts[1..], a));
    }
  }

  lemma SumOfWholes(x: real, y: real)
    requires x == x.Floor as real && y == y.Floor as real
    ensures x + y == (x + y).Floor as real
  {
    var m, n := x.Floor, y.Floor;
    assert x + y == (m + n) as real;
    WholeIsWhole(m + n);
  }

  lemma BtsBalanceIsWhole(address: string, fetch: string -> AssetMeta, cache: AssetCache, ts: seq<Transfer>, a: Asset)
    requires a in Totals(address, fetch, cache, ts) && a.blockchainId == BtsAssetId
    ensures Totals(address, fetch, cache, ts)[a] == Totals(address, fetch, cache, ts)[a].Floor as real
  {
    BtsSumIsWhole(address, fetch, cache, ts, a);
  }
}
