/** A closed-form account of what the EOS provider computes, and the lemmas that tie the
    page-by-page engine in module Eos to it. */
module EosProofs {
  import opened Results
  import opened Balances
  import opened Eos
  import Text
  import Retry

  /** All traces of `pages`, in page order. */
  function Flatten(pages: seq<TracePage>): seq<Trace>
  {
    if |pages| == 0 then [] else Flatten(pages[..|pages| - 1]) + pages[|pages| - 1].traces
  }

  /** The loop would stop right after page `n`: by then the traces read reach its declared total. */
  predicate StopsAt(pages: seq<TracePage>, n: nat)
  {
    n < |pages| && |Flatten(pages[..n + 1])| >= pages[n].traceCount
  }

  function StopFrom(pages: seq<TracePage>, i: nat): (r: Option<nat>)
    ensures r.Some? ==> i <= r.value && StopsAt(pages, r.value)
    ensures r.Some? ==> forall m: nat :: i <= m < r.value ==> !StopsAt(pages, m)
    ensures r.None? ==> forall m: nat :: i <= m < |pages| ==> !StopsAt(pages, m)
    decreases |pages| - i
  {
    if i >= |pages| then None
    else if StopsAt(pages, i) then Some(i)
    else StopFrom(pages, i + 1)
  }

  /** The first page after which the loop stops, if the supplied pages contain one. */
  function StopIndex(pages: seq<TracePage>): (r: Option<nat>)
    ensures r.Some? ==> StopsAt(pages, r.value) && forall m: nat :: m < r.value ==> !StopsAt(pages, m)
    ensures r.None? ==> forall m: nat :: m < |pages| ==> !StopsAt(pages, m)
  {
    StopFrom(pages, 0)
  }

  /** Every trace the loop reads: up to and including the stop page, or all pages if none stops it. */
  function TracesRead(pages: seq<TracePage>): seq<Trace>
  {
    match StopIndex(pages)
    case Some(n) => Flatten(pages[..n + 1])
    case None => Flatten(pages)
  }

  /** The status of the first trace that is not executed. */
  function FirstUnsupported(ts: seq<Trace>): Option<string>
  {
    if |ts| == 0 then None
    else if ts[0].status != ExecutedStatus then Some(ts[0].status)
    else FirstUnsupported(ts[1..])
  }

  /** The net change the eligible traces of `ts` make to key `k`. */
  function SignedSum(q: Query, ts: seq<Trace>, k: Key): real
  {
    if |ts| == 0 then 0.0
    else
      var change := if Eligible(q, ts[0]) && KeyOf(ts[0]) == k then SignedQuantity(q.address, ts[0]) else 0.0;
      change + SignedSum(q, ts[1..], k)
  }

  /** The keys that at least one eligible trace of `ts` carries. */
  function EligibleKeys(q: Query, ts: seq<Trace>): set<Key>
  {
    set t | t in ts && Eligible(q, t) :: KeyOf(t)
  }

  /** `acc` with the net change of `ts` added to every key. */
  function Accumulated(q: Query, acc: map<Key, real>, ts: seq<Trace>): map<Key, real>
  {
    map k | k in acc.Keys + EligibleKeys(q, ts) :: Get(acc, k) + SignedSum(q, ts, k)
  }

  /** The balances `ts` alone produce. */
  function Totals(q: Query, ts: seq<Trace>): map<Key, real>
  {
    Accumulated(q, map[], ts)
  }

  /** What the paging loop returns, stated without the loop. */
  function WalkSpec(q: Query, pages: seq<TracePage>): Result<map<Key, real>, ReplayError>
  {
    var ts := TracesRead(pages);
    match FirstUnsupported(ts)
    case Some(s) => Failure(UnsupportedStatus(s))
    case None => if StopIndex(pages).None? then Failure(OutOfPages) else Success(Totals(q, ts))
  }

  // ---------------------------------------------------------------------------------------
  // Facts about the reference definitions

  lemma {:induction false} FlattenAppend(a: seq<TracePage>, b: seq<TracePage>)
    ensures Flatten(a + b) == Flatten(a) + Flatten(b)
    decreases |b|
  {
    if |b| > 0 {
      var last := |b| - 1;
      assert (a + b)[..|a + b| - 1] == a + b[..last];
      FlattenAppend(a, b[..last]);
    } else {
      assert a + b == a;
    }
  }

  /** The traces of the first `i + 1` pages are those of the first `i` followed by page `i`'s. */
  lemma FlattenNextPage(pages: seq<TracePage>, i: nat)
    requires i < |pages|
    ensures Flatten(pages[..i + 1]) == Flatten(pages[..i]) + pages[i].traces
  {
    assert pages[..i + 1][..i] == pages[..i];
  }

  /** The first unsupported status of a concatenation is the first one of the left part, if any. */
  lemma {:induction false} FirstUnsupportedAppend(a: seq<Trace>, b: seq<Trace>)
    ensures FirstUnsupported(a + b) ==
      if FirstUnsupported(a).Some? then FirstUnsupported(a) else FirstUnsupported(b)
    decreases |a|
  {
    if |a| == 0 {
      assert a + b == b;
    } else {
      assert (a + b)[1..] == a[1..] + b;
      FirstUnsupportedAppend(a[1..], b);
    }
  }

  /** `FirstUnsupported` finds a trace that is not executed, and the first one; `None` means all are executed. */
  lemma {:induction false} FirstUnsupportedSpec(ts: seq<Trace>)
    ensures FirstUnsupported(ts).None? <==> forall i :: 0 <= i < |ts| ==> ts[i].status == ExecutedStatus
    ensures FirstUnsupported(ts).Some? ==>
      exists i :: 0 <= i < |ts| && ts[i].status == FirstUnsupported(ts).value && ts[i].status != ExecutedStatus
        && forall j :: 0 <= j < i ==> ts[j].status == ExecutedStatus
    decreases |ts|
  {
    if |ts| > 0 && ts[0].status == ExecutedStatus {
      FirstUnsupportedSpec(ts[1..]);
      if FirstUnsupported(ts).Some? {
        var i :| 0 <= i < |ts[1..]| && ts[1..][i].status == FirstUnsupported(ts).value
          && ts[1..][i].status != ExecutedStatus
          && forall j :: 0 <= j < i ==> ts[1..][j].status == ExecutedStatus;
        assert forall j :: 0 <= j < i + 1 ==> ts[j].status == ExecutedStatus by {
          forall j | 0 <= j < i + 1 ensures ts[j].status == ExecutedStatus {
            if j > 0 { assert ts[j] == ts[1..][j - 1]; }
          }
        }
        assert ts[i + 1] == ts[1..][i];
      }
    }
  }

  lemma {:induction false} SignedSumAppend(q: Query, a: seq<Trace>, b: seq<Trace>, k: Key)
    ensures SignedSum(q, a + b, k) == SignedSum(q, a, k) + SignedSum(q, b, k)
    decreases |a|
  {
    if |a| == 0 {
      assert a + b == b;
    } else {
      assert (a + b)[1..] == a[1..] + b;
      SignedSumAppend(q, a[1..], b, k);
    }
  }

  /** A key without an eligible trace in `ts` is not changed by `ts`. */
  lemma {:induction false} SignedSumOutsideKeys(q: Query, ts: seq<Trace>, k: Key)
    requires k !in EligibleKeys(q, ts)
    ensures SignedSum(q, ts, k) == 0.0
    decreases |ts|
  {
    if |ts| > 0 {
      assert ts[0] in ts;
      assert EligibleKeys(q, ts[1..]) <= EligibleKeys(q, ts) by {
        forall t | t in ts[1..] ensures t in ts { }
      }
      SignedSumOutsideKeys(q, ts[1..], k);
    }
  }

  lemma EligibleKeysAppend(q: Query, a: seq<Trace>, b: seq<Trace>)
    ensures EligibleKeys(q, a + b) == EligibleKeys(q, a) + EligibleKeys(q, b)
  {
    forall t ensures t in a + b <==> t in a || t in b { }
  }

  /** Accumulating two runs of traces one after the other is accumulating their concatenation. */
  lemma AccumulatedAppend(q: Query, acc: map<Key, real>, a: seq<Trace>, b: seq<Trace>)
    ensures Accumulated(q, Accumulated(q, acc, a), b) == Accumulated(q, acc, a + b)
  {
    EligibleKeysAppend(q, a, b);
    var left := Accumulated(q, Accumulated(q, acc, a), b);
    var right := Accumulated(q, acc, a + b);
    assert left.Keys == right.Keys;
    forall k | k in left.Keys ensures left[k] == right[k] {
      SignedSumAppend(q, a, b, k);
      if k !in acc && k !in EligibleKeys(q, a) {
        SignedSumOutsideKeys(q, a, k);
      }
    }
  }

  /** The per-trace update of the engine is accumulation of a single trace. */
  lemma StepIsAccumulated(q: Query, acc: map<Key, real>, t: Trace)
    ensures Step(q, acc, t) == Accumulated(q, acc, [t])
  {
    assert forall u :: u in [t] <==> u == t;
    var left := Step(q, acc, t);
    var right := Accumulated(q, acc, [t]);
    assert left.Keys == right.Keys;
    forall k | k in left.Keys ensures left[k] == right[k] {
      assert SignedSum(q, [t], k) == (if Eligible(q, t) && KeyOf(t) == k then SignedQuantity(q.address, t) else 0.0) + SignedSum(q, [t][1..], k);
      assert [t][1..] == [];
    }
  }

  // ---------------------------------------------------------------------------------------
  // The engine against the reference

  /** One page: fail with the first status that is not executed, else add its traces' net changes. */
  lemma {:induction false} ReplayPageSpec(q: Query, ts: seq<Trace>, acc: map<Key, real>)
    ensures ReplayPage(q, ts, acc) ==
      match FirstUnsupported(ts)
      case Some(s) => Failure(UnsupportedStatus(s))
      case None => Success(Accumulated(q, acc, ts))
    decreases |ts|
  {
    if |ts| == 0 {
      assert Accumulated(q, acc, ts) == acc;
    } else if ts[0].status == ExecutedStatus {
      var next := Step(q, acc, ts[0]);
      ReplayPageSpec(q, ts[1..], next);
      if FirstUnsupported(ts[1..]).None? {
        StepIsAccumulated(q, acc, ts[0]);
        AccumulatedAppend(q, acc, [ts[0]], ts[1..]);
        assert [ts[0]] + ts[1..] == ts;
      }
    }
  }

  /** With no stop before page `i`, the traces read start with all traces of pages 0 to `i`;
      they end there exactly when the loop stops at page `i`. */
  lemma TracesReadThrough(pages: seq<TracePage>, i: nat) returns (rest: seq<Trace>)
    requires i < |pages|
    requires forall m: nat :: m < i ==> !StopsAt(pages, m)
    ensures TracesRead(pages) == Flatten(pages[..i + 1]) + rest
    ensures StopsAt(pages, i) ==> StopIndex(pages) == Some(i) && rest == []
  {
    var r := StopIndex(pages);
    if r.Some? {
      assert pages[..r.value + 1] == pages[..i + 1] + pages[i + 1..r.value + 1];
      FlattenAppend(pages[..i + 1], pages[i + 1..r.value + 1]);
      rest := Flatten(pages[i + 1..r.value + 1]);
      if StopsAt(pages, i) {
        assert pages[i + 1..i + 1] == [];
      }
    } else {
      assert pages == pages[..i + 1] + pages[i + 1..];
      FlattenAppend(pages[..i + 1], pages[i + 1..]);
      rest := Flatten(pages[i + 1..]);
    }
  }

  /** Past the last supplied page with no stop, the loop has read everything and runs out. */
  lemma WalkPagesAtEnd(q: Query, pages: seq<TracePage>, acc: map<Key, real>)
    requires forall m: nat :: m < |pages| ==> !StopsAt(pages, m)
    requires FirstUnsupported(Flatten(pages)).None?
    ensures WalkPages(q, pages, |pages|, |Flatten(pages)|, acc) == WalkSpec(q, pages)
  {
  }

  lemma {:induction false} WalkPagesFrom(q: Query, pages: seq<TracePage>, i: nat, acc: map<Key, real>)
    requires i <= |pages|
    requires forall m: nat :: m < i ==> !StopsAt(pages, m)
    requires FirstUnsupported(Flatten(pages[..i])).None?
    requires acc == Totals(q, Flatten(pages[..i]))
    ensures WalkPages(q, pages, i, |Flatten(pages[..i])|, acc) == WalkSpec(q, pages)
    decreases |pages| - i
  {
    if i == |pages| {
      assert pages[..i] == pages;
      WalkPagesAtEnd(q, pages, acc);
    } else {
      var prefix := Flatten(pages[..i]);
      var ts := pages[i].traces;
      FlattenNextPage(pages, i);
      ReplayPageSpec(q, ts, acc);
      FirstUnsupportedAppend(prefix, ts);
      var rest := TracesReadThrough(pages, i);
      FirstUnsupportedAppend(prefix + ts, rest);
      if FirstUnsupported(ts).None? {
        AccumulatedAppend(q, map[], prefix, ts);
        if |prefix| + |ts| < pages[i].traceCount {
          assert forall m: nat :: m < i + 1 ==> !StopsAt(pages, m);
          WalkPagesFrom(q, pages, i + 1, Totals(q, prefix + ts));
        }
      }
    }
  }

  /** The paging loop computes exactly the reference: the first unsupported status among the
      traces read, else running out of pages, else the totals of everything read. */
  lemma WalkPagesMatchesSpec(q: Query, pages: seq<TracePage>)
    ensures WalkPages(q, pages, 0, 0, map[]) == WalkSpec(q, pages)
  {
    assert pages[..0] == [];
    assert Totals(q, []) == map[];
    WalkPagesFrom(q, pages, 0, map[]);
  }

  /** Pages past the one the loop stops at are never read and cannot change the outcome. */
  lemma LaterPagesIgnored(q: Query, pages: seq<TracePage>, extra: seq<TracePage>)
    requires StopIndex(pages).Some?
    ensures WalkPages(q, pages + extra, 0, 0, map[]) == WalkPages(q, pages, 0, 0, map[])
  {
    var n := StopIndex(pages).value;
    var longer := pages + extra;
    forall m: nat | m < |pages| ensures StopsAt(longer, m) == StopsAt(pages, m) {
      assert longer[..m + 1] == pages[..m + 1];
    }
    assert StopsAt(longer, n);
    assert StopIndex(longer) == Some(n);
    assert longer[..n + 1] == pages[..n + 1];
    WalkPagesMatchesSpec(q, longer);
    WalkPagesMatchesSpec(q, pages);
  }

  // ---------------------------------------------------------------------------------------
  // The whole call

  /** Any trace read that is not executed fails the whole call, whatever its time or token
      contract, and no balances are returned. */
  lemma UnsupportedStatusFailsCall(
    address: string, at: int, symbolList: seq<TokenEntry>, pages: seq<TracePage>,
    genesis: GenesisResponse, i: nat)
    requires i < |TracesRead(pages)| && TracesRead(pages)[i].status != ExecutedStatus
    ensures FirstUnsupported(TracesRead(pages)).Some?
    ensures GetBalances(address, at, symbolList, pages, genesis) ==
      Failure(UnsupportedStatus(FirstUnsupported(TracesRead(pages)).value))
  {
    FirstUnsupportedSpec(TracesRead(pages));
    WalkPagesMatchesSpec(Query(address, at, TokenCodes(symbolList)), pages);
  }

  /** Supplied pages that never reach the declared trace count end the call without balances. */
  lemma OutOfPagesWhenNoStop(
    address: string, at: int, symbolList: seq<TokenEntry>, pages: seq<TracePage>, genesis: GenesisResponse)
    requires forall m: nat :: m < |pages| ==> !StopsAt(pages, m)
    requires forall t :: t in Flatten(pages) ==> t.status == ExecutedStatus
    ensures GetBalances(address, at, symbolList, pages, genesis) == Failure(OutOfPages)
  {
    FirstUnsupportedSpec(Flatten(pages));
    WalkPagesMatchesSpec(Query(address, at, TokenCodes(symbolList)), pages);
  }

  /** Without a genesis balance, the call reports the per-key totals of the traces read. */
  lemma ReplayedBalancesReported(
    address: string, at: int, symbolList: seq<TokenEntry>, pages: seq<TracePage>, genesis: GenesisResponse)
    requires StopIndex(pages).Some?
    requires forall t :: t in TracesRead(pages) ==> t.status == ExecutedStatus
    requires genesis.status.Some?
    ensures GetBalances(address, at, symbolList, pages, genesis) ==
      Success(ToAssets(Totals(Query(address, at, TokenCodes(symbolList)), TracesRead(pages))))
  {
    FirstUnsupportedSpec(TracesRead(pages));
    WalkPagesMatchesSpec(Query(address, at, TokenCodes(symbolList)), pages);
  }

  /** For the reference address, the genesis balance less the correction joins the native token total. */
  lemma GenesisCorrectionApplied(
    at: int, symbolList: seq<TokenEntry>, pages: seq<TracePage>, genesis: GenesisResponse)
    requires StopIndex(pages).Some?
    requires forall t :: t in TracesRead(pages) ==> t.status == ExecutedStatus
    requires genesis.status.None?
    ensures
      var totals := Totals(Query(GenesisReferenceAddress, at, TokenCodes(symbolList)), TracesRead(pages));
      GetBalances(GenesisReferenceAddress, at, symbolList, pages, genesis) ==
        Success(ToAssets(totals[NativeKey := Get(totals, NativeKey) + genesis.balanceTotal - GenesisCorrection]))
  {
    FirstUnsupportedSpec(TracesRead(pages));
    WalkPagesMatchesSpec(Query(GenesisReferenceAddress, at, TokenCodes(symbolList)), pages);
  }

  /** A genesis balance for any other address is refused rather than corrected by guesswork. */
  lemma GenesisGuardRejects(
    address: string, at: int, symbolList: seq<TokenEntry>, pages: seq<TracePage>, genesis: GenesisResponse)
    requires StopIndex(pages).Some?
    requires forall t :: t in TracesRead(pages) ==> t.status == ExecutedStatus
    requires genesis.status.None? && address != GenesisReferenceAddress
    ensures GetBalances(address, at, symbolList, pages, genesis) == Failure(UnverifiedGenesis(address))
  {
    FirstUnsupportedSpec(TracesRead(pages));
    WalkPagesMatchesSpec(Query(address, at, TokenCodes(symbolList)), pages);
  }

  // ---------------------------------------------------------------------------------------
  // What a single trace contributes

  /** A key is reported exactly when some eligible trace carries it, with the net of those traces. */
  lemma TotalsPerKey(q: Query, ts: seq<Trace>, k: Key)
    ensures k in Totals(q, ts) <==> exists t :: t in ts && Eligible(q, t) && KeyOf(t) == k
    ensures k in Totals(q, ts) ==> Totals(q, ts)[k] == SignedSum(q, ts, k)
  {
  }

  /** A trace after the cutoff, or of an unlisted token contract, leaves the totals unchanged
      wherever it sits in the history. */
  lemma IneligibleTraceIgnored(q: Query, a: seq<Trace>, t: Trace, b: seq<Trace>)
    requires !Eligible(q, t)
    ensures Totals(q, a + [t] + b) == Totals(q, a + b)
  {
    StepIsAccumulated(q, Totals(q, a), t);
    AccumulatedAppend(q, map[], a, [t]);
    AccumulatedAppend(q, map[], a + [t], b);
    AccumulatedAppend(q, map[], a, b);
  }

  /** The cutoff is inclusive: a listed trace stamped exactly `at` counts, one a tick later does not. */
  lemma CutoffInclusive(q: Query, t: Trace)
    requires t.code in q.tokenCodes
    ensures t.timestamp == q.at ==> Totals(q, [t]) == map[KeyOf(t) := SignedQuantity(q.address, t)]
    ensures t.timestamp == q.at + 1 ==> Totals(q, [t]) == map[]
  {
    StepIsAccumulated(q, map[], t);
  }

  /** An eligible trace adds its quantity when the account is the receiver, compared ignoring
      case, and subtracts it in every other case, whoever the sender is. */
  lemma DirectionFollowsReceiver(q: Query, acc: map<Key, real>, t: Trace)
    requires Eligible(q, t)
    ensures Text.EqualsIgnoreCase(q.address, t.receiver) ==>
      Accumulated(q, acc, [t])[KeyOf(t)] == Get(acc, KeyOf(t)) + t.quantity
    ensures !Text.EqualsIgnoreCase(q.address, t.receiver) ==>
      Accumulated(q, acc, [t])[KeyOf(t)] == Get(acc, KeyOf(t)) - t.quantity
  {
    StepIsAccumulated(q, acc, t);
  }

  /** A receiver spelled in capitals is still the account. */
  lemma CapitalisedReceiverIncoming(q: Query, acc: map<Key, real>, t: Trace)
    requires Eligible(q, t) && t.receiver == Text.Upper(q.address)
    ensures Accumulated(q, acc, [t])[KeyOf(t)] == Get(acc, KeyOf(t)) + t.quantity
  {
    Text.UpperSpellingMatches(q.address);
    Text.EqualsIgnoreCaseCharwise(q.address, t.receiver);
    DirectionFollowsReceiver(q, acc, t);
  }

  // ---------------------------------------------------------------------------------------
  // Retry decisions

  /** The genesis request is retried until it is a success or says the account has no genesis
      balance; a delivered error status therefore leaves the balances as they are. */
  lemma GenesisPolicyDelivers(g: GenesisResponse, attempt: nat, address: string, balances: map<Key, real>)
    ensures Retry.Decide(Retry.Returned(g), attempt, GenesisRejected).Deliver? <==>
      g.status.None? || g.message == NotGenesisAccountMessage
    ensures Retry.Decide(Retry.Returned(g), attempt, GenesisRejected).Deliver? && g.status.Some? ==>
      ApplyGenesis(address, g, balances) == Success(balances)
  {
  }

  /** Token-list and trace-page responses are delivered exactly when their error code is zero;
      a fault is always retried after at most five seconds. */
  lemma ParkPolicyDelivers<T>(r: ParkResponse<T>, attempt: nat)
    ensures Retry.Decide(Retry.Returned(r), attempt, ParkRejected).Deliver? <==> r.errNo == 0
    ensures Retry.Decide(Retry.Faulted, attempt, ParkRejected<T>) ==
      Retry.WaitAndRetry(Retry.BackoffSeconds(attempt))
  {
  }
}
