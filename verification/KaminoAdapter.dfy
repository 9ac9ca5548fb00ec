/** The kamino-usdc program: the reserve is refreshed, then entered, left or read. */
module KaminoAdapter {
  import opened Machine
  import opened Accounts
  import opened Protocol
  import opened Chain
  import opened AdapterInterface
  import AdapterSpec
  import KlendCpi

  method Initialize(ledger: Ledger, tx: Transaction, pos: PositionId, market: nat, data: seq<Byte>, cpis: seq<Cpi>)
    returns (r: Result<(), AdapterError>)
    requires pos.program.Kamino?
    modifies ledger
    ensures Agrees(r, ledger.View(), AdapterSpec.Initialize(old(ledger.View()), tx, pos, market, data, cpis))
  {
    if pos in ledger.states || pos in ledger.holdings { return Err(AccountExists); }
    if ShareAccount(pos, market) in ledger.taken { return Err(AccountExists); }
    ledger.holdings := ledger.holdings[pos := Holding(market, 0)];
    if |data| > MAX_ADAPTER_DATA_LEN { return Err(AdapterDataTooLarge); }
    if !CalledByDispatcher(tx) { return Err(Unauthorized); }
    ledger.states := ledger.states[pos := AdapterState(pos, Kamino, 0)];
    return Ok(());
  }

  method Deposit(ledger: Ledger, tx: Transaction, pos: PositionId, amount: U64, data: seq<Byte>, cpis: seq<Cpi>)
    returns (r: Result<(), AdapterError>)
    requires pos.program.Kamino?
    modifies ledger
    ensures Agrees(r, ledger.View(), AdapterSpec.Deposit(old(ledger.View()), tx, pos, amount, data, cpis))
  {
    hide Invoke, InvokeAll, CalledByDispatcher, U64Return, ToU64;
    TwoCalls(ledger.View(), pos, true, cpis);
    if pos !in ledger.states || pos !in ledger.holdings { return Err(AccountMissing); }
    if amount == 0 { return Err(ZeroAmount); }
    if |data| > MAX_ADAPTER_DATA_LEN { return Err(AdapterDataTooLarge); }
    if !CalledByDispatcher(tx) { return Err(Unauthorized); }
    var sharesBefore := ledger.holdings[pos].amount;
    var _ :- ledger.Invoke(pos, true, CpiAt(cpis, 0)); // refresh_reserve
    var _ :- ledger.Invoke(pos, true, CpiAt(cpis, 1)); // deposit_reserve_liquidity
    if pos !in ledger.states || pos !in ledger.holdings { return Err(AccountMissing); }
    var sharesAfter := ledger.holdings[pos].amount;
    if sharesAfter < sharesBefore { return Err(MathOverflow); }
    var minted :- ToU64(sharesAfter - sharesBefore);
    var total :- ToU64(ledger.states[pos].totalShares + minted);
    ledger.states := ledger.states[pos := ledger.states[pos].(totalShares := total)];
    ledger.SetU64Return(Kamino, minted);
    ledger.Emit(AdapterDepositEvent(pos, amount, minted));
    return Ok(());
  }

  method Withdraw(ledger: Ledger, tx: Transaction, pos: PositionId, shares: U64, data: seq<Byte>, cpis: seq<Cpi>)
    returns (r: Result<(), AdapterError>)
    requires pos.program.Kamino?
    modifies ledger
    ensures Agrees(r, ledger.View(), AdapterSpec.Withdraw(old(ledger.View()), tx, pos, shares, data, cpis))
  {
    hide Invoke, InvokeAll, CalledByDispatcher, U64Return, ToU64;
    TwoCalls(ledger.View(), pos, true, cpis);
    if pos !in ledger.states || Pool(pos) !in ledger.usdc { return Err(AccountMissing); }
    if shares == 0 { return Err(ZeroAmount); }
    if |data| > MAX_ADAPTER_DATA_LEN { return Err(AdapterDataTooLarge); }
    if shares > ledger.states[pos].totalShares { return Err(InsufficientShares); }
    if !CalledByDispatcher(tx) { return Err(Unauthorized); }
    var usdcBefore := ledger.usdc[Pool(pos)];
    var _ :- ledger.Invoke(pos, true, CpiAt(cpis, 0)); // refresh_reserve
    var _ :- ledger.Invoke(pos, true, CpiAt(cpis, 1)); // redeem_reserve_collateral
    if pos !in ledger.states || Pool(pos) !in ledger.usdc { return Err(AccountMissing); }
    var usdcAfter := ledger.usdc[Pool(pos)];
    if usdcAfter < usdcBefore { return Err(MathOverflow); }
    var amountOut :- ToU64(usdcAfter - usdcBefore);
    if ledger.states[pos].totalShares < shares { return Err(MathOverflow); }
    ledger.states := ledger.states[pos := ledger.states[pos].(totalShares := ledger.states[pos].totalShares - shares)];
    ledger.SetU64Return(Kamino, amountOut);
    ledger.Emit(AdapterWithdrawEvent(pos, shares, amountOut));
    return Ok(());
  }

  method CurrentValue(ledger: Ledger, tx: Transaction, pos: PositionId, data: seq<Byte>, vaultBalance: U64, cpis: seq<Cpi>)
    returns (r: Result<(), AdapterError>)
    requires pos.program.Kamino?
    modifies ledger
    ensures Agrees(r, ledger.View(), AdapterSpec.CurrentValue(old(ledger.View()), tx, pos, data, vaultBalance, cpis))
  {
    hide Invoke, InvokeAll, CalledByDispatcher, KlendCpi.CollateralValue;
    OneCall(ledger.View(), pos, false, cpis);
    if pos !in ledger.states { return Err(AccountMissing); }
    if |data| > MAX_ADAPTER_DATA_LEN { return Err(AdapterDataTooLarge); }
    if !CalledByDispatcher(tx) { return Err(Unauthorized); }
    var _ :- ledger.Invoke(pos, false, CpiAt(cpis, 0)); // refresh_reserve
    if pos !in ledger.states || pos !in ledger.holdings { return Err(AccountMissing); }
    var id := MarketId(Kamino, ledger.holdings[pos].market);
    if id !in ledger.markets { return Err(AccountMissing); }
    var shares := ledger.states[pos].totalShares;
    var reserve := ledger.markets[id];
    var value :- KlendCpi.CollateralValue(reserve.prices.available, reserve.prices.borrowedSf, reserve.supply, shares);
    ledger.SetU64Return(Kamino, value);
    ledger.Emit(AdapterValueEvent(pos, value));
    return Ok(());
  }

  /** The program's entry point for a decoded instruction. */
  method Entry(ledger: Ledger, tx: Transaction, pos: PositionId, ix: Instruction, extra: AdapterSpec.Extra, cpis: seq<Cpi>)
    returns (r: Result<(), AdapterError>)
    requires pos.program.Kamino?
    modifies ledger
    ensures Agrees(r, ledger.View(), AdapterSpec.Processed(old(ledger.View()), tx, pos, ix, extra, cpis))
  {
    hide AdapterSpec.Initialize, AdapterSpec.Deposit, AdapterSpec.Withdraw, AdapterSpec.CurrentValue;
    match ix
    case Initialize(data) => r := Initialize(ledger, tx, pos, extra.market, data, cpis);
    case Deposit(n, data) => r := Deposit(ledger, tx, pos, n, data, cpis);
    case Withdraw(n, data) => r := Withdraw(ledger, tx, pos, n, data, cpis);
    case CurrentValue(data) => r := CurrentValue(ledger, tx, pos, data, extra.vaultBalance, cpis);
  }
}
