/** The accounts of the system as one value: what every instruction reads and changes. */
module Accounts {
  import opened Machine

  /** Program ids. `Other` stands for any further program: a foreign adapter or a protocol. */
  datatype Program = Dispatcher | Kamino | MarginFi | Jupiter | Maple | Drift | Other(id: nat) {
    /** One of the five adapters in this repository. */
    predicate IsReference() {
      Kamino? || MarginFi? || Jupiter? || Maple? || Drift?
    }
  }

  /** Program-derived addresses are injective in their seeds, so the seeds stand for the address. */
  datatype PositionId = PositionId(owner: nat, program: Program)
  datatype MarketId = MarketId(program: Program, index: nat)

  /** USDC token accounts. Pools and vaults are signed for by programs, wallets by their owner. */
  datatype UsdcAccount =
    | Wallet(owner: nat, index: nat)
    | Pool(position: PositionId)
    | Vault(market: MarketId)

  datatype Registry = Registry(admin: nat, adapterCount: U32)
  datatype AdapterEntry = AdapterEntry(program: Program, version: nat, name: seq<Byte>, isActive: bool)
  datatype Position = Position(owner: nat, program: Program)

  /** The standard header of an adapter's state account. */
  datatype AdapterState = AdapterState(position: PositionId, program: Program, totalShares: U64)

  /** The position's share account at the protocol, in the market pinned when it was opened. */
  datatype Holding = Holding(market: nat, amount: U128)

  /** The token account at a position's associated address for a market's share token. Initialize creates it
      for the market it pins, and anyone may have created it before. */
  datatype ShareAccount = ShareAccount(position: PositionId, market: nat)

  /** What the adapters read to price shares; each program reads its own fields. */
  datatype Prices = Prices(available: U64, borrowedSf: U128, aum: U128, sqrtPrice: U128, shareValue: I128)

  /** The accounts of a protocol that a position pinned: the recorded share supply and the prices read
      from them. Nobody here checks one against the other. */
  datatype Market = Market(supply: U128, prices: Prices)

  datatype ReturnData = ReturnData(program: Program, data: seq<Byte>)

  datatype Event =
    | AdapterWhitelisted(program: Program, name: seq<Byte>, version: nat)
    | AdapterPaused(program: Program, isActive: bool)
    | PositionOpened(position: PositionId)
    | Deposited(position: PositionId, amountIn: nat, sharesMinted: nat)
    | Withdrawn(position: PositionId, sharesBurned: nat, amountOut: nat)
    | ValueRead(position: PositionId, value: nat)
    | AdapterDepositEvent(position: PositionId, amountIn: nat, sharesMinted: nat)
    | AdapterWithdrawEvent(position: PositionId, sharesBurned: nat, amountOut: nat)
    | AdapterValueEvent(position: PositionId, value: nat)

  datatype World = World(
    registry: Option<Registry>,
    entries: map<Program, AdapterEntry>,
    positions: map<PositionId, Position>,
    states: map<PositionId, AdapterState>,
    holdings: map<PositionId, Holding>,
    markets: map<MarketId, Market>,
    usdc: map<UsdcAccount, nat>,
    taken: set<ShareAccount>, // share accounts that others created
    log: seq<Event>,
    ret: Option<ReturnData>
  )

  /** The instructions sysvar: the transaction's top-level programs and the index now executing. */
  datatype Transaction = Transaction(programs: seq<Program>, current: nat)

  function MarketOf(w: World, pos: PositionId): MarketId
    requires pos in w.holdings
  {
    MarketId(pos.program, w.holdings[pos].market)
  }
}
