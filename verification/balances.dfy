/** The vocabulary every balance provider shares: assets, balance maps and the ways a replay fails. */
module Balances {
  import opened Results

  /** Identity of a monetary unit: its display name, the blockchain's own identifier for it,
      and an optional identifier in the platform-wide asset catalogue. Equality is structural. */
  datatype Asset = Asset(name: string, blockchainId: string, platformId: Option<string>)

  /** The result of one point-in-time balance computation. */
  type BalanceMap = map<Asset, real>

  /** Why a replay produced no balance map at all. */
  datatype ReplayError =
    | UnsupportedStatus(status: string)   // a trace whose status the replay does not know how to net
    | UnverifiedGenesis(address: string)  // the genesis correction was asked for an address it was not checked on
    | OutOfPages                          // the supplied pages ended before the paging loop would stop

  /** The balance stored under `k`, or zero when there is none yet. */
  function Get<K>(m: map<K, real>, k: K): real
  {
    if k in m then m[k] else 0.0
  }
}
