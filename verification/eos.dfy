/** The EOS provider: replays an account's token-transfer traces, page by page, up to a cutoff,
    then adds the account's genesis balance. The explorer responses arrive as already-typed
    values: `pages[i]` is the accepted response for page number `i + 1`. */
module Eos {
  import opened Results
  import opened Balances
  import Text

  /** The name the report generator dispatches on. */
  const BlockchainType: string := "Eos"

  const NativeCode: string := "eosio.token"
  const NativeSymbol: string := "EOS"
  const NativePlatformId: string := "782e7e92-2ce0-4b21-b425-6096983351af"
  const ExecutedStatus: string := "executed"
  const NotGenesisAccountMessage: string := "Not a genesis account"

  /** The one address whose genesis balance has been checked against the explorer. */
  const GenesisReferenceAddress: string := "hezdemrzhege"

  /** Subtracted from the reported genesis balance of the reference address. */
  const GenesisCorrection: real := 10.0

  /** Balances are accumulated per token contract and symbol. */
  datatype Key = Key(code: string, symbol: string)

  const NativeKey: Key := Key(NativeCode, NativeSymbol)

  /** One token-transfer trace of the account's history. */
  datatype Trace = Trace(
    status: string,
    timestamp: int,
    code: string,
    symbol: string,
    sender: string,
    receiver: string,
    quantity: real)

  /** One page of traces and the server's declared total number of traces. */
  datatype TracePage = TracePage(traces: seq<Trace>, traceCount: int)

  /** One entry of the account's token list. */
  datatype TokenEntry = TokenEntry(code: string, symbol: string)

  /** The genesis endpoint's answer: a null status means the account has a genesis balance. */
  datatype GenesisResponse = GenesisResponse(status: Option<string>, message: string, balanceTotal: real)

  /** What one call filters and signs traces by. */
  datatype Query = Query(address: string, at: int, tokenCodes: set<string>)

  /** A genesis response is requested again unless it is a success or the explicit
      "not a genesis account" answer. */
  predicate GenesisRejected(g: GenesisResponse)
  {
    g.status.Some? && g.message != NotGenesisAccountMessage
  }

  /** A token-list or trace-page response of the account explorer, with its error code. */
  datatype ParkResponse<T> = ParkResponse(errNo: int, errMsg: string, data: T)

  /** Token-list and trace-page responses are requested again on any explorer error code. */
  predicate ParkRejected<T>(r: ParkResponse<T>)
  {
    r.errNo != 0
  }

  /** The token contracts the account is known to hold; only their transfers are counted. */
  function TokenCodes(symbolList: seq<TokenEntry>): (codes: set<string>)
    ensures forall e :: e in symbolList ==> e.code in codes
    ensures forall c :: c in codes ==> exists e :: e in symbolList && e.code == c
  {
    set e | e in symbolList :: e.code
  }

  /** A trace counts when it is not after the cutoff and belongs to a listed token contract. */
  predicate Eligible(q: Query, t: Trace)
  {
    t.timestamp <= q.at && t.code in q.tokenCodes
  }

  function KeyOf(t: Trace): Key
  {
    Key(t.code, t.symbol)
  }

  /** The quantity, positive when the account received it and negative otherwise. */
  function SignedQuantity(address: string, t: Trace): real
  {
    if Text.EqualsIgnoreCase(address, t.receiver) then t.quantity else -t.quantity
  }

  /** Folds one executed trace into the running balances. */
  function Step(q: Query, balances: map<Key, real>, t: Trace): map<Key, real>
  {
    if t.timestamp > q.at then balances
    else if t.code !in q.tokenCodes then balances
    else balances[KeyOf(t) := Get(balances, KeyOf(t)) + SignedQuantity(q.address, t)]
  }

  /** Reads the traces of one page in order; the first trace that is not executed stops everything. */
  function ReplayPage(q: Query, traces: seq<Trace>, balances: map<Key, real>): Result<map<Key, real>, ReplayError>
    decreases |traces|
  {
    if |traces| == 0 then Success(balances)
    else if traces[0].status != ExecutedStatus then Failure(UnsupportedStatus(traces[0].status))
    else ReplayPage(q, traces[1..], Step(q, balances, traces[0]))
  }

  /** The paging loop: `read` counts every trace read so far, filtered or not; the loop stops
      after the first page at which that count reaches the page's declared total. */
  function WalkPages(q: Query, pages: seq<TracePage>, page: nat, read: int, balances: map<Key, real>)
    : Result<map<Key, real>, ReplayError>
    decreases |pages| - page
  {
    if page >= |pages| then Failure(OutOfPages)
    else
      match ReplayPage(q, pages[page].traces, balances)
      case Failure(e) => Failure(e)
      case Success(next) =>
        var readNow := read + |pages[page].traces|;
        if readNow >= pages[page].traceCount then Success(next)
        else WalkPages(q, pages, page + 1, readNow, next)
  }

  /** Adds the genesis balance, less the fixed correction, to the native token; refuses to do
      so for any address other than the reference one. */
  function ApplyGenesis(address: string, genesis: GenesisResponse, balances: map<Key, real>)
    : (r: Result<map<Key, real>, ReplayError>)
    ensures genesis.status.Some? ==> r == Success(balances)
    ensures genesis.status.None? && address != GenesisReferenceAddress ==>
      r == Failure(UnverifiedGenesis(address))
    ensures genesis.status.None? && address == GenesisReferenceAddress ==>
      && r.Success?
      && r.value.Keys == balances.Keys + {NativeKey}
      && r.value[NativeKey] == Get(balances, NativeKey) + genesis.balanceTotal - GenesisCorrection
      && forall k :: k in balances && k != NativeKey ==> r.value[k] == balances[k]
  {
    if genesis.status.Some? then Success(balances)
    else
      var genesisBalance := genesis.balanceTotal - GenesisCorrection;
      if address != GenesisReferenceAddress then Failure(UnverifiedGenesis(address))
      else Success(balances[NativeKey := Get(balances, NativeKey) + genesisBalance])
  }

  /** The reported asset of a balance key: the native token carries its platform id. */
  function BalancesKey(k: Key): (a: Asset)
    ensures a.name == k.symbol && a.blockchainId == k.code
    ensures a.platformId.Some? <==> k.code == NativeCode
    ensures a.platformId.Some? ==> a.platformId.value == NativePlatformId
  {
    if k.code == NativeCode then Asset(k.symbol, k.code, Some(NativePlatformId))
    else Asset(k.symbol, k.code, None)
  }

  /** Re-keys the balances by asset, carrying every balance over unchanged. */
  function ToAssets(balances: map<Key, real>): (r: BalanceMap)
    ensures forall k :: k in balances ==> BalancesKey(k) in r && r[BalancesKey(k)] == balances[k]
    ensures forall a :: a in r ==> exists k :: k in balances && BalancesKey(k) == a
    ensures |r| == |balances|
  {
    var r := map k | k in balances :: BalancesKey(k) := balances[k];
    assert r.Keys == set k | k in balances :: BalancesKey(k);
    BalancesKeySetSize(balances.Keys);
    r
  }

  /** Distinct keys map to distinct assets, so re-keying loses no balance. */
  lemma BalancesKeyInjective(k1: Key, k2: Key)
    ensures BalancesKey(k1) == BalancesKey(k2) ==> k1 == k2
  {
  }

  lemma {:induction false} BalancesKeySetSize(keys: set<Key>)
    ensures |set k | k in keys :: BalancesKey(k)| == |keys|
    decreases |keys|
  {
    if keys != {} {
      var k :| k in keys;
      var rest := keys - {k};
      BalancesKeySetSize(rest);
      assert (set x | x in keys :: BalancesKey(x)) == (set x | x in rest :: BalancesKey(x)) + {BalancesKey(k)};
      assert BalancesKey(k) !in (set x | x in rest :: BalancesKey(x));
    }
  }

  /** The whole call: the token list, the trace pages and the genesis response in, the
      account's balances as of `at` out. */
  function GetBalances(
    address: string,
    at: int,
    symbolList: seq<TokenEntry>,
    pages: seq<TracePage>,
    genesis: GenesisResponse): Result<BalanceMap, ReplayError>
  {
    var q := Query(address, at, TokenCodes(symbolList));
    match WalkPages(q, pages, 0, 0, map[])
    case Failure(e) => Failure(e)
    case Success(balances) =>
      match ApplyGenesis(address, genesis, balances)
      case Failure(e) => Failure(e)
      case Success(withGenesis) => Success(ToAssets(withGenesis))
  }
}
