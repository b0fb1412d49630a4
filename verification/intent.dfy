/** The vault intent the host loads with APPROVE_VAULT_INTENT, and the protocol constants. */
module Intents {
  import opened Octets

  const MAX_VAULTS: nat := 10
  const MAX_KEEPERS: nat := 32
  const MAX_CHALLENGERS: nat := 32
  const PATH_LEN: nat := 5
  const DUST_LIMIT: U64 := 546
  const HARDENED: nat := 0x8000_0000
  const PREPEGIN_MAX_FEE_LIMIT: U64 := 1_0000_0000
  const TIMELOCK_MIN: nat := 72
  const TIMELOCK_MAX: nat := 1008
  const HTLC_REFUND_TIMELOCK_MAX: nat := 4320
  const PAYOUT_TIMELOCK_MIN: nat := 90
  const PAYOUT_TIMELOCK_MAX: nat := 4032
  const MAX_BASE_FEE_RATE: nat := 10000

  type Path = p: seq<U32> | |p| == PATH_LEN witness [0, 0, 0, 0, 0]

  /** The 13 fields of the P1=0x00 payload. */
  datatype Scalars = Scalars(
    structureType: Byte,
    version: Byte,
    coinType: U32,
    baseFeeRate: U64,
    pegInCsv: U16,
    payoutTimelock: U16,
    prePegInTxid: Bytes32,
    refundTimelock: U16,
    path: Path,
    keeperCount: Byte,
    challengerCount: Byte,
    vaultCount: Byte,
    prePegInMaxFee: U64)

  /** One P1=0x01 record. */
  datatype Group = Group(
    htlcVout: Byte,
    provider: Bytes32,
    amount: U64,
    commission: U64,
    claimValue: U64,
    pegInMaxFee: U64)

  const ZERO_SCALARS :=
    Scalars(0, 0, 0, 0, 0, 0, ZERO32, 0, [0, 0, 0, 0, 0], 0, 0, 0, 0)
  const ZERO_GROUP := Group(0, ZERO32, 0, 0, 0, 0)

  type GroupArray = g: seq<Group> | |g| == MAX_VAULTS witness Fill(ZERO_GROUP, MAX_VAULTS)
  type KeyArray = k: seq<Bytes32> | |k| == 32 witness Fill(ZERO32, 32)

  const ZERO_GROUPS: GroupArray := Fill(ZERO_GROUP, MAX_VAULTS)
  const ZERO_KEYS: KeyArray := Fill(ZERO32, 32)

  /** vault_intent_t: fixed arrays, of which the counts say how much is in use. */
  datatype Intent = Intent(
    scalars: Scalars,
    depositor: Bytes32,
    groups: GroupArray,
    keeperPks: KeyArray,
    challengerPks: KeyArray)
  {
    function V(): nat { scalars.vaultCount as nat }
    function N(): nat { scalars.keeperCount as nat }
    function M(): nat { scalars.challengerCount as nat }

    predicate InRange() {
      1 <= V() <= MAX_VAULTS && 1 <= N() <= MAX_KEEPERS && 1 <= M() <= MAX_CHALLENGERS
    }

    function Keepers(): seq<Bytes32>
      requires N() <= MAX_KEEPERS
    {
      keeperPks[..N()]
    }

    function Challengers(): seq<Bytes32>
      requires M() <= MAX_CHALLENGERS
    {
      challengerPks[..M()]
    }
  }

  const ZERO_INTENT := Intent(ZERO_SCALARS, ZERO32, ZERO_GROUPS, ZERO_KEYS, ZERO_KEYS)

  /** x | HARDENED */
  function Harden(x: U32): U32 {
    if x < HARDENED then x + HARDENED else x
  }

  /** m/86'/coin'/account'/change/index with account at most 100 and index at most 10000:
      what the device will later sign for. */
  predicate CheckBip86Path(path: seq<U32>, coinType: U32) {
    && |path| == 5
    && path[0] == 86 + HARDENED
    && path[1] == Harden(coinType)
    && HARDENED <= path[2] <= HARDENED + 100
    && path[3] <= 1
    && path[4] <= 10000
  }

  /** The ranges every scalar of an accepted intent lies in. */
  predicate ValidScalars(s: Scalars, coinType: U32) {
    && s.structureType == 1
    && s.version == 1
    && s.coinType == coinType
    && 1 <= s.baseFeeRate <= MAX_BASE_FEE_RATE
    && TIMELOCK_MIN <= s.pegInCsv <= TIMELOCK_MAX
    && PAYOUT_TIMELOCK_MIN < s.payoutTimelock < PAYOUT_TIMELOCK_MAX
    && TIMELOCK_MIN <= s.refundTimelock <= HTLC_REFUND_TIMELOCK_MAX
    && CheckBip86Path(s.path, coinType)
    && 1 <= s.keeperCount as nat <= MAX_KEEPERS
    && 1 <= s.challengerCount as nat <= MAX_CHALLENGERS
    && 1 <= s.vaultCount as nat <= MAX_VAULTS
    && 1 <= s.prePegInMaxFee <= PREPEGIN_MAX_FEE_LIMIT
  }

  /** What one accepted group satisfies by itself. */
  predicate ValidGroup(g: Group) {
    && g.commission >= DUST_LIMIT
    && g.claimValue >= DUST_LIMIT
    && g.amount > g.commission + 2 * DUST_LIMIT
  }
}
