/** The drift-if program: insurance-fund stake, removed by a request and a removal in one go. */
module DriftAdapter {
  import opened Machine
  import opened Accounts
  import opened Protocol
  import opened Chain
  import opened AdapterInterface
  import AdapterSpec
  import DriftCpi

  method Initialize(ledger: Ledger, tx: Transaction, pos: PositionId, market: nat, data: seq<Byte>, cpis: seq<Cpi>)
    returns (r: Result<(), AdapterError>)
    requires pos.program.Drift?
    modifies ledger
    ensures Agrees(r, ledger.View(), AdapterSpec.Initialize(old(ledger.View()), tx, pos, market, data, cpis))
  {
    hide Invoke, InvokeAll, CalledByDispatcher;
    if pos in ledger.states || pos in ledger.holdings { return Err(AccountExists); }
    ledger.holdings := ledger.holdings[pos := Holding(market, 0)];
    if |data| > MAX_ADAPTER_DATA_LEN { return Err(AdapterDataTooLarge); }
    if !CalledByDispatcher(tx) { return Err(Unauthorized); }
    TwoCalls(ledger.View(), pos, true, cpis);
    var _ :- ledger.Invoke(pos, true, CpiAt(cpis, 0)); // init_user_stats
    var _ :- ledger.Invoke(pos, true, CpiAt(cpis, 1)); // init_if_stake
    ledger.states := ledger.states[pos := AdapterState(pos, Drift, 0)];
    return Ok(());
  }

  method Deposit(ledger: Ledger, tx: Transaction, pos: PositionId, amount: U64, data: seq<Byte>, cpis: seq<Cpi>)
    returns (r: Result<(), AdapterError>)
    requires pos.program.Drift?
    modifies ledger
    ensures Agrees(r, ledger.View(), AdapterSpec.Deposit(old(ledger.View()), tx, pos, amount, data, cpis))
  {
    hide Invoke, InvokeAll, CalledByDispatcher, U64Return, ToU64;
    OneCall(ledger.View(), pos, true, cpis);
    if pos !in ledger.states || pos !in ledger.holdings { return Err(AccountMissing); }
    if amount == 0 { return Err(ZeroAmount); }
    if |data| > MAX_ADAPTER_DATA_LEN { return Err(AdapterDataTooLarge); }
    if !CalledByDispatcher(tx) { return Err(Unauthorized); }
    var sharesBefore := ledger.holdings[pos].amount;
    var _ :- ledger.Invoke(pos, true, CpiAt(cpis, 0)); // add_stake
    if pos !in ledger.states || pos !in ledger.holdings { return Err(AccountMissing); }
    var sharesAfter := ledger.holdings[pos].amount;
    if sharesAfter < sharesBefore { return Err(MathOverflow); }
    var minted :- ToU64(sharesAfter - sharesBefore);
    var total :- ToU64(ledger.states[pos].totalShares + minted);
    ledger.states := ledger.states[pos := ledger.states[pos].(totalShares := total)];
    ledger.SetU64Return(Drift, minted);
    ledger.Emit(AdapterDepositEvent(pos, amount, minted));
    return Ok(());
  }

  method Withdraw(ledger: Ledger, tx: Transaction, pos: PositionId, shares: U64, data: seq<Byte>, cpis: seq<Cpi>)
    returns (r: Result<(), AdapterError>)
    requires pos.program.Drift?
    modifies ledger
    ensures Agrees(r, ledger.View(), AdapterSpec.Withdraw(old(ledger.View()), tx, pos, shares, data, cpis))
  {
    hide Invoke, InvokeAll, CalledByDispatcher, U64Return, ToU64;
    TwoCalls(ledger.View(), pos, true, cpis);
    if pos !in ledger.states || Pool(pos) !in ledger.usdc { return Err(AccountMissing); }
    if shares == 0 { return Err(ZeroAmount); }
    if |data| > MAX_ADAPTER_DATA_LEN { return Err(AdapterDataTooLarge); }
    if shares > ledger.states[pos].totalShares { return Err(InsufficientShares); }
    if !CalledByDispatcher(tx) { return Err(Unauthorized); }
    var usdcBefore := ledger.usdc[Pool(pos)];
    var _ :- ledger.Invoke(pos, true, CpiAt(cpis, 0)); // request_remove
    var _ :- ledger.Invoke(pos, true, CpiAt(cpis, 1)); // remove_stake
    if pos !in ledger.states || Pool(pos) !in ledger.usdc { return Err(AccountMissing); }
    var usdcAfter := ledger.usdc[Pool(pos)];
    if usdcAfter < usdcBefore { return Err(MathOverflow); }
    var amountOut :- ToU64(usdcAfter - usdcBefore);
    if ledger.states[pos].totalShares < shares { return Err(MathOverflow); }
    ledger.states := ledger.states[pos := ledger.states[pos].(totalShares := ledger.states[pos].totalShares - shares)];
    ledger.SetU64Return(Drift, amountOut);
    ledger.Emit(AdapterWithdrawEvent(pos, shares, amountOut));
    return Ok(());
  }

  method CurrentValue(ledger: Ledger, tx: Transaction, pos: PositionId, data: seq<Byte>, vaultBalance: U64, cpis: seq<Cpi>)
    returns (r: Result<(), AdapterError>)
    requires pos.program.Drift?
    modifies ledger
    ensures Agrees(r, ledger.View(), AdapterSpec.CurrentValue(old(ledger.View()), tx, pos, data, vaultBalance, cpis))
  {
    hide CalledByDispatcher, DriftCpi.StakeValue;
    if pos !in ledger.states { return Err(AccountMissing); }
    if |data| > MAX_ADAPTER_DATA_LEN { return Err(AdapterDataTooLarge); }
    if !CalledByDispatcher(tx) { return Err(Unauthorized); }
    if pos !in ledger.states || pos !in ledger.holdings { return Err(AccountMissing); }
    var id := MarketId(Drift, ledger.holdings[pos].market);
    if id !in ledger.markets { return Err(AccountMissing); }
    var value :- DriftCpi.StakeValue(ledger.holdings[pos].amount, ledger.markets[id].supply, vaultBalance);
    ledger.SetU64Return(Drift, value);
    ledger.Emit(AdapterValueEvent(pos, value));
    return Ok(());
  }

  /** The program's entry point for a decoded instruction. */
  method Entry(ledger: Ledger, tx: Transaction, pos: PositionId, ix: Instruction, extra: AdapterSpec.Extra, cpis: seq<Cpi>)
    returns (r: Result<(), AdapterError>)
    requires pos.program.Drift?
    modifies ledger
    ensures Agrees(r, ledger.View(), AdapterSpec.Processed(old(ledger.View()), tx, pos, ix, extra, cpis))
  {
    hide AdapterSpec.Initialize, AdapterSpec.Deposit, AdapterSpec.Withdraw, AdapterSpec.CurrentValue;
    match ix
    case Initialize(data) => r := Initialize(ledger, tx, pos, extra.market, data, cpis);
    case Deposit(n, data) => r := Deposit(ledger, tx, pos, n, data, cpis);
    case Withdraw(n, data) => r := Withdraw(ledger, tx, pos, n, data, cpis);
    case CurrentValue(data) => r := CurrentValue(ledger, tx, pos, data, extra.vaultBalance, cpis);
  }
}
