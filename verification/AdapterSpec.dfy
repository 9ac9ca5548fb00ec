/** The four adapter instructions as functions on the accounts, for every adapter program. */
module AdapterSpec {
  import opened Machine
  import opened Accounts
  import opened Protocol
  import opened AdapterInterface
  import KlendCpi
  import JupCpi
  import DriftCpi
  import OrcaCpi
  import MarginfiCpi

  // Protocol calls per instruction: klend is refreshed first, Drift requests before it removes,
  // MarginFi and Drift open their own accounts.
  function InitializeCalls(program: Program): nat {
    match program case MarginFi => 1 case Drift => 2 case Other(_) => 1 case _ => 0
  }

  function DepositCalls(program: Program): nat {
    match program case Kamino => 2 case _ => 1
  }

  function WithdrawCalls(program: Program): nat {
    match program case Kamino => 2 case Drift => 2 case _ => 1
  }

  function ValueCalls(program: Program): nat {
    match program case Kamino => 1 case Other(_) => 1 case _ => 0
  }

  /** The checks every handler opens with. */
  function Guard(tx: Transaction, data: seq<Byte>): Result<(), AdapterError> {
    if |data| > MAX_ADAPTER_DATA_LEN then Err(AdapterDataTooLarge)
    else if !CalledByDispatcher(tx) then Err(Unauthorized)
    else Ok(())
  }

  /** The account that holds a position's shares exists already, made by initialize or by somebody else. */
  predicate ShareAccountExists(w: World, pos: PositionId, market: nat) {
    pos in w.holdings || (HoldsTokens(pos.program) && ShareAccount(pos, market) in w.taken)
  }

  function Initialize(w: World, tx: Transaction, pos: PositionId, market: nat, data: seq<Byte>, cpis: seq<Cpi>)
    : Result<World, AdapterError>
  {
    if pos in w.states || ShareAccountExists(w, pos, market) then Err(AccountExists)
    else
      var w0 := w.(holdings := w.holdings[pos := Holding(market, 0)]);
      if pos.program.IsReference() then
        var _ :- Guard(tx, data);
        var w1 :- InvokeAll(w0, pos, true, cpis, InitializeCalls(pos.program));
        Ok(w1.(states := w1.states[pos := AdapterState(pos, pos.program, 0)]))
      else Foreign(w0, pos, true, cpis)
  }

  /** A program outside this repository does one thing the accounts let it do; the dispatcher itself
      does not implement the adapter instructions. */
  function Foreign(w: World, pos: PositionId, signed: bool, cpis: seq<Cpi>): Result<World, AdapterError> {
    if pos.program.Other? then InvokeAll(w, pos, signed, cpis, 1) else Err(CpiFailed)
  }

  /** Shares booked by a deposit: MarginFi books the principal, the others the measured change. */
  function SharesMinted(program: Program, amount: U64, before: U128, after: U128): Result<U64, AdapterError> {
    if program.MarginFi? then Ok(amount)
    else if after < before then Err(MathOverflow)
    else ToU64(after - before)
  }

  function Deposit(w: World, tx: Transaction, pos: PositionId, amount: U64, data: seq<Byte>, cpis: seq<Cpi>)
    : Result<World, AdapterError>
  {
    if !pos.program.IsReference() then Foreign(w, pos, true, cpis)
    else if pos !in w.states || pos !in w.holdings then Err(AccountMissing)
    else if amount == 0 then Err(ZeroAmount)
    else
      var _ :- Guard(tx, data);
      var w1 :- InvokeAll(w, pos, true, cpis, DepositCalls(pos.program));
      if pos !in w1.states || pos !in w1.holdings then Err(AccountMissing)
      else
        var minted :- SharesMinted(pos.program, amount, w.holdings[pos].amount, w1.holdings[pos].amount);
        var total :- ToU64(w1.states[pos].totalShares + minted);
        Ok(w1.(states := w1.states[pos := w1.states[pos].(totalShares := total)],
               ret := Some(U64Return(pos.program, minted)),
               log := w1.log + [AdapterDepositEvent(pos, amount, minted)]))
  }

  /** Booked shares after redeeming: MarginFi closes the position at or above what is booked. */
  function SharesLeft(program: Program, booked: U64, shares: U64): Result<U64, AdapterError> {
    if program.MarginFi? && shares >= booked then Ok(0)
    else if booked < shares then Err(MathOverflow)
    else Ok(booked - shares)
  }

  function Withdraw(w: World, tx: Transaction, pos: PositionId, shares: U64, data: seq<Byte>, cpis: seq<Cpi>)
    : Result<World, AdapterError>
  {
    if !pos.program.IsReference() then Foreign(w, pos, true, cpis)
    else if pos !in w.states || Pool(pos) !in w.usdc then Err(AccountMissing)
    else if shares == 0 then Err(ZeroAmount)
    else if |data| > MAX_ADAPTER_DATA_LEN then Err(AdapterDataTooLarge)
    else if !pos.program.MarginFi? && shares > w.states[pos].totalShares then Err(InsufficientShares)
    else
      var _ :- Guard(tx, data);
      var w1 :- InvokeAll(w, pos, true, cpis, WithdrawCalls(pos.program));
      if pos !in w1.states || Pool(pos) !in w1.usdc then Err(AccountMissing)
      else if w1.usdc[Pool(pos)] < w.usdc[Pool(pos)] then Err(MathOverflow)
      else
        var amountOut :- ToU64(w1.usdc[Pool(pos)] - w.usdc[Pool(pos)]);
        var left :- SharesLeft(pos.program, w1.states[pos].totalShares, shares);
        Ok(w1.(states := w1.states[pos := w1.states[pos].(totalShares := left)],
               ret := Some(U64Return(pos.program, amountOut)),
               log := w1.log + [AdapterWithdrawEvent(pos, shares, amountOut)]))
  }

  /** The position's value from the accounts. Kamino prices the booked shares, the others what the
      position holds at the protocol; Drift divides the balance of the vault account it is handed. */
  function ValueOf(w: World, pos: PositionId, vaultBalance: U64): Result<U64, AdapterError> {
    if pos !in w.states || pos !in w.holdings || MarketOf(w, pos) !in w.markets then Err(AccountMissing)
    else
      var market, held := w.markets[MarketOf(w, pos)], w.holdings[pos].amount;
      match pos.program
      case Kamino =>
        KlendCpi.CollateralValue(market.prices.available, market.prices.borrowedSf, market.supply,
                                 w.states[pos].totalShares)
      case MarginFi =>
        MarginfiCpi.SharesToUsdc(if held < TWO127 then held else TWO127 - 1, market.prices.shareValue)
      case Jupiter =>
        var balance :- ToU64(held);
        JupCpi.LpValue(market.prices.aum, market.supply, balance)
      case Maple =>
        var balance :- ToU64(held);
        OrcaCpi.SpotValue(market.prices.sqrtPrice, balance)
      case Drift =>
        DriftCpi.StakeValue(held, market.supply, vaultBalance)
      case _ => Err(AccountMissing)
  }

  /** The position does not sign a value read. */
  function CurrentValue(w: World, tx: Transaction, pos: PositionId, data: seq<Byte>, vaultBalance: U64, cpis: seq<Cpi>)
    : Result<World, AdapterError>
  {
    if !pos.program.IsReference() then Foreign(w, pos, false, cpis)
    else if pos !in w.states then Err(AccountMissing)
    else
      var _ :- Guard(tx, data);
      var w1 :- InvokeAll(w, pos, false, cpis, ValueCalls(pos.program));
      var value :- ValueOf(w1, pos, vaultBalance);
      Ok(w1.(ret := Some(U64Return(pos.program, value)),
             log := w1.log + [AdapterValueEvent(pos, value)]))
  }

  /** What an instruction learns from its own account list: the market it pins, the vault it is shown. */
  datatype Extra = Extra(market: nat, vaultBalance: U64)

  /** An adapter program's whole behaviour. */
  function Processed(w: World, tx: Transaction, pos: PositionId, ix: Instruction, extra: Extra, cpis: seq<Cpi>)
    : Result<World, AdapterError>
  {
    match ix
    case Initialize(data) => Initialize(w, tx, pos, extra.market, data, cpis)
    case Deposit(n, data) => Deposit(w, tx, pos, n, data, cpis)
    case Withdraw(n, data) => Withdraw(w, tx, pos, n, data, cpis)
    case CurrentValue(data) => CurrentValue(w, tx, pos, data, extra.vaultBalance, cpis)
  }
}
