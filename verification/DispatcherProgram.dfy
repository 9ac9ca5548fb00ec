/** The dispatcher program: its seven instructions in place, its calls into adapters over the wire, and
    the transactions around them. */
module DispatcherProgram {
  import opened Machine
  import opened Accounts
  import opened Protocol
  import opened Chain
  import opened Routing
  import opened DispatcherSpec
  import AdapterInterface
  import AdapterSpec
  import CrossCall

  /** A handler's result and accounts agree with the specification's outcome. */
  ghost predicate Settles(r: Result<nat, DispatcherError>, after: World, spec: Outcome) {
    if spec.Ok? then r == Ok(spec.value.1) && after == spec.value.0 else r == Err(spec.error)
  }

  // ----- governance -----

  method InitializeRegistryHandler(ledger: Ledger, signer: nat) returns (r: Result<nat, DispatcherError>)
    modifies ledger
    ensures Settles(r, ledger.View(), HandleInitializeRegistry(old(ledger.View()), signer))
  {
    if ledger.registry.Some? { return Err(DispatcherError.AccountExists); }
    ledger.registry := Some(Registry(signer, 0));
    return Ok(0);
  }

  method WhitelistAdapterHandler(ledger: Ledger, signer: nat, program: Program, name: seq<Byte>, version: nat, executable: bool)
    returns (r: Result<nat, DispatcherError>)
    modifies ledger
    ensures Settles(r, ledger.View(), HandleWhitelistAdapter(old(ledger.View()), signer, program, name, version, executable))
  {
    if ledger.registry.None? { return Err(DispatcherError.AccountMissing); }
    var registry := ledger.registry.value;
    if registry.admin != signer { return Err(DispatcherError.Unauthorized); }
    if program in ledger.entries { return Err(DispatcherError.AccountExists); }
    if !executable { return Err(DispatcherError.NotExecutable); }
    if |name| > MAX_NAME_LEN { return Err(DispatcherError.NameTooLong); }
    if version != AdapterInterface.ADAPTER_INTERFACE_VERSION { return Err(DispatcherError.VersionMismatch); }
    if registry.adapterCount >= MAX_ADAPTERS { return Err(DispatcherError.RegistryFull); }
    ledger.entries := ledger.entries[program := AdapterEntry(program, version, name, true)];
    if registry.adapterCount + 1 >= 0x1_0000_0000 { return Err(DispatcherError.MathOverflow); }
    ledger.registry := Some(registry.(adapterCount := registry.adapterCount + 1));
    ledger.Emit(AdapterWhitelisted(program, name, version));
    return Ok(0);
  }

  method PauseAdapterHandler(ledger: Ledger, signer: nat, program: Program, paused: bool)
    returns (r: Result<nat, DispatcherError>)
    modifies ledger
    ensures Settles(r, ledger.View(), HandlePauseAdapter(old(ledger.View()), signer, program, paused))
  {
    if ledger.registry.None? || program !in ledger.entries { return Err(DispatcherError.AccountMissing); }
    if ledger.registry.value.admin != signer { return Err(DispatcherError.Unauthorized); }
    ledger.entries := ledger.entries[program := ledger.entries[program].(isActive := !paused)];
    ledger.Emit(AdapterPaused(program, ledger.entries[program].isActive));
    return Ok(0);
  }

  // ----- routes -----

  method RouteInitialize(ledger: Ledger, tx: Transaction, pos: PositionId, owner: nat, market: nat,
                         remaining: seq<AccountInfo>, cpis: seq<Cpi>)
    returns (r: Result<(), DispatcherError>)
    modifies ledger
    ensures Agrees(r, ledger.View(), Routed(AdapterSpec.Initialize(old(ledger.View()), tx, pos, market, [], cpis)))
  {
    hide AdapterSpec.Initialize, AdapterInterface.Encoding;
    var metas, infos := InitializeAccounts(
      AccountInfo(ProgramKey(pos.program), false, false), AccountInfo(InstructionsSysvar, false, false),
      AccountInfo(PositionKey(pos), false, true), AccountInfo(StateKey(pos), false, true),
      AccountInfo(UserKey(owner), true, true), AccountInfo(SystemProgram, false, false), remaining);
    var ix := AdapterInterface.Initialize([]);
    var data := AdapterInterface.Encode(ix);
    CrossCall.WireCarries(ledger.View(), tx, pos, ix, metas, AdapterSpec.Extra(market, 0), cpis);
    hide CrossCall.Called;
    var called := CrossCall.Call(ledger, tx, pos.program, metas, data, AdapterSpec.Extra(market, 0), cpis);
    if called.Err? { return Err(DispatcherError.AdapterMismatch); }
    return Ok(());
  }

  /** Deposit and withdraw share the account prefix and differ in the bytes. */
  method RouteFundMovement(ledger: Ledger, tx: Transaction, pos: PositionId, ix: AdapterInterface.Instruction,
                           remaining: seq<AccountInfo>, cpis: seq<Cpi>)
    returns (r: Result<nat, DispatcherError>)
    requires (ix.Deposit? || ix.Withdraw?) && ix.data == []
    modifies ledger
    ensures Settles(r, ledger.View(),
              RoutedValue(AdapterSpec.Processed(old(ledger.View()), tx, pos, ix, AdapterSpec.Extra(0, 0), cpis), pos.program))
  {
    hide AdapterSpec.Processed, AdapterInterface.Encoding, AdapterInterface.GetU64Return;
    var metas, infos := FundMovementAccounts(
      AccountInfo(ProgramKey(pos.program), false, false), AccountInfo(InstructionsSysvar, false, false),
      AccountInfo(PositionKey(pos), false, true), AccountInfo(PoolKey(pos), false, true),
      AccountInfo(StateKey(pos), false, true), remaining);
    var data := AdapterInterface.Encode(ix);
    CrossCall.WireCarries(ledger.View(), tx, pos, ix, metas, AdapterSpec.Extra(0, 0), cpis);
    hide CrossCall.Called;
    var called := CrossCall.Call(ledger, tx, pos.program, metas, data, AdapterSpec.Extra(0, 0), cpis);
    if called.Err? { return Err(DispatcherError.AdapterMismatch); }
    var value := AdapterInterface.GetU64Return(ledger.ret, pos.program);
    if value.None? { return Err(DispatcherError.MissingReturnData); }
    return Ok(value.value);
  }

  method RouteCurrentValue(ledger: Ledger, tx: Transaction, pos: PositionId, vaultBalance: U64,
                           remaining: seq<AccountInfo>, cpis: seq<Cpi>)
    returns (r: Result<nat, DispatcherError>)
    modifies ledger
    ensures Settles(r, ledger.View(),
              RoutedValue(AdapterSpec.CurrentValue(old(ledger.View()), tx, pos, [], vaultBalance, cpis), pos.program))
    ensures r.Ok? ==> r.value < TWO64
  {
    hide AdapterSpec.CurrentValue, AdapterInterface.Encoding, AdapterInterface.GetU64Return;
    var metas, infos := CurrentValueAccounts(
      AccountInfo(ProgramKey(pos.program), false, false), AccountInfo(InstructionsSysvar, false, false),
      AccountInfo(PositionKey(pos), false, false), AccountInfo(StateKey(pos), false, false), remaining);
    var ix := AdapterInterface.CurrentValue([]);
    var data := AdapterInterface.Encode(ix);
    CrossCall.WireCarries(ledger.View(), tx, pos, ix, metas, AdapterSpec.Extra(0, vaultBalance), cpis);
    hide CrossCall.Called;
    var called := CrossCall.Call(ledger, tx, pos.program, metas, data, AdapterSpec.Extra(0, vaultBalance), cpis);
    if called.Err? { return Err(DispatcherError.AdapterMismatch); }
    var value := AdapterInterface.GetU64Return(ledger.ret, pos.program);
    if value.None? { return Err(DispatcherError.MissingReturnData); }
    return Ok(value.value);
  }

  // ----- routed instructions -----

  method OpenPositionHandler(ledger: Ledger, tx: Transaction, owner: nat, program: Program, market: nat,
                             remaining: seq<AccountInfo>, cpis: seq<Cpi>)
    returns (r: Result<nat, DispatcherError>)
    modifies ledger
    ensures Settles(r, ledger.View(), HandleOpenPosition(old(ledger.View()), tx, owner, program, market, cpis))
  {
    hide AdapterSpec.Initialize;
    var pos := PositionId(owner, program);
    if program !in ledger.entries { return Err(DispatcherError.AccountMissing); }
    if !ledger.entries[program].isActive { return Err(DispatcherError.AdapterInactive); }
    if pos in ledger.positions || Pool(pos) in ledger.usdc { return Err(DispatcherError.AccountExists); }
    if ledger.entries[program].version != AdapterInterface.ADAPTER_INTERFACE_VERSION {
      return Err(DispatcherError.VersionMismatch);
    }
    ledger.usdc := ledger.usdc[Pool(pos) := 0];
    ledger.positions := ledger.positions[pos := Position(owner, program)];
    var _ :- RouteInitialize(ledger, tx, pos, owner, market, remaining, cpis);
    ledger.Emit(PositionOpened(pos));
    return Ok(0);
  }

  /** The account constraints that deposit and withdraw declare alike. */
  method CheckFundMovement(ledger: Ledger, pos: PositionId, owner: nat, wallet: UsdcAccount)
    returns (r: Result<(), DispatcherError>)
    ensures r == FundMovement(ledger.View(), pos, owner, wallet)
    ensures r.Ok? ==> pos.program in ledger.entries
  {
    if pos.program !in ledger.entries || pos !in ledger.positions { return Err(DispatcherError.AccountMissing); }
    if Pool(pos) !in ledger.usdc || wallet !in ledger.usdc { return Err(DispatcherError.AccountMissing); }
    if !ledger.entries[pos.program].isActive { return Err(DispatcherError.AdapterInactive); }
    if ledger.positions[pos].program != pos.program { return Err(DispatcherError.AdapterMismatch); }
    if ledger.positions[pos].owner != owner { return Err(DispatcherError.Unauthorized); }
    if !wallet.Wallet? || wallet.owner != owner { return Err(DispatcherError.WrongTokenOwner); }
    return Ok(());
  }

  /** The pool is funded first; then the adapter is told the amount. */
  method DepositHandler(ledger: Ledger, tx: Transaction, owner: nat, program: Program, wallet: UsdcAccount, amount: U64,
                        remaining: seq<AccountInfo>, cpis: seq<Cpi>)
    returns (r: Result<nat, DispatcherError>)
    modifies ledger
    ensures Settles(r, ledger.View(), HandleDeposit(old(ledger.View()), tx, owner, program, wallet, amount, cpis))
  {
    hide AdapterSpec.Deposit, FundMovement, RoutedValue, Transfer;
    var pos := PositionId(owner, program);
    var _ :- CheckFundMovement(ledger, pos, owner, wallet);
    if amount == 0 { return Err(DispatcherError.ZeroAmount); }
    if ledger.entries[program].version != AdapterInterface.ADAPTER_INTERFACE_VERSION {
      return Err(DispatcherError.VersionMismatch);
    }
    var funded := ledger.TransferTokens(wallet, Pool(pos), amount);
    if funded.Err? { return Err(TokenFailed(funded.error)); }
    var ix := AdapterInterface.Deposit(amount, []);
    var shares :- RouteFundMovement(ledger, tx, pos, ix, remaining, cpis);
    ledger.Emit(Deposited(pos, amount, shares));
    return Ok(shares);
  }

  /** The adapter redeems into the pool; then the pool pays the owner what the adapter reported. */
  method WithdrawHandler(ledger: Ledger, tx: Transaction, owner: nat, program: Program, wallet: UsdcAccount, shares: U64,
                         remaining: seq<AccountInfo>, cpis: seq<Cpi>)
    returns (r: Result<nat, DispatcherError>)
    modifies ledger
    ensures Settles(r, ledger.View(), HandleWithdraw(old(ledger.View()), tx, owner, program, wallet, shares, cpis))
  {
    hide AdapterSpec.Withdraw, FundMovement, RoutedValue, Transfer;
    var pos := PositionId(owner, program);
    var _ :- CheckFundMovement(ledger, pos, owner, wallet);
    if shares == 0 { return Err(DispatcherError.ZeroAmount); }
    if ledger.entries[program].version != AdapterInterface.ADAPTER_INTERFACE_VERSION {
      return Err(DispatcherError.VersionMismatch);
    }
    var ix := AdapterInterface.Withdraw(shares, []);
    var amountOut :- RouteFundMovement(ledger, tx, pos, ix, remaining, cpis);
    if amountOut > 0 {
      var paid := ledger.TransferTokens(Pool(pos), wallet, amountOut);
      if paid.Err? { return Err(TokenFailed(paid.error)); }
    }
    ledger.Emit(Withdrawn(pos, shares, amountOut));
    return Ok(amountOut);
  }

  /** Read-only, and re-emitted under the dispatcher's own id. */
  method CurrentValueHandler(ledger: Ledger, tx: Transaction, owner: nat, program: Program, vaultBalance: U64,
                             remaining: seq<AccountInfo>, cpis: seq<Cpi>)
    returns (r: Result<nat, DispatcherError>)
    modifies ledger
    ensures Settles(r, ledger.View(), HandleCurrentValue(old(ledger.View()), tx, owner, program, vaultBalance, cpis))
  {
    hide AdapterSpec.CurrentValue, RoutedValue, AdapterInterface.U64Return;
    var pos := PositionId(owner, program);
    if program !in ledger.entries || pos !in ledger.positions { return Err(DispatcherError.AccountMissing); }
    if !ledger.entries[program].isActive { return Err(DispatcherError.AdapterInactive); }
    if ledger.positions[pos].program != program { return Err(DispatcherError.AdapterMismatch); }
    if ledger.entries[program].version != AdapterInterface.ADAPTER_INTERFACE_VERSION {
      return Err(DispatcherError.VersionMismatch);
    }
    var value :- RouteCurrentValue(ledger, tx, pos, vaultBalance, remaining, cpis);
    ledger.SetU64Return(Dispatcher, value);
    ledger.Emit(ValueRead(pos, value));
    return Ok(value);
  }

  // ----- the environment -----

  method EnvironmentHandler(ledger: Ledger, a: Action) returns (r: Result<nat, DispatcherError>)
    requires a.CreateTokenAccount? || a.MoveUsdc? || a.MoveMarket? || a.MoveShares? || a.CreateShareAccount?
    modifies ledger
    ensures Settles(r, ledger.View(), Handle(old(ledger.View()), a))
  {
    match a {
      case CreateTokenAccount(account) =>
        if account in ledger.usdc { return Err(DispatcherError.AccountExists); }
        ledger.usdc := ledger.usdc[account := 0];
      case MoveUsdc(from, to, quantity) =>
        if from.Pool? { return Err(DispatcherError.Unauthorized); }
        var moved := ledger.TransferTokens(from, to, quantity);
        if moved.Err? { return Err(TokenFailed(moved.error)); }
      case MoveMarket(id, supply, prices) =>
        if supply >= ShareCap(id.program) { return Err(TokenFailed(Overflow)); }
        ledger.markets := ledger.markets[id := Market(supply, prices)];
      case MoveShares(pos, held) =>
        if pos !in ledger.holdings { return Err(DispatcherError.AccountMissing); }
        if held >= ShareCap(pos.program) { return Err(TokenFailed(Overflow)); }
        if HoldsTokens(pos.program) && held < ledger.holdings[pos].amount { return Err(TokenFailed(InsufficientFunds)); }
        ledger.holdings := ledger.holdings[pos := ledger.holdings[pos].(amount := held)];
      case CreateShareAccount(pos, market) =>
        if !HoldsTokens(pos.program) { return Err(DispatcherError.Unauthorized); }
        if ShareAccount(pos, market) in ledger.taken { return Err(DispatcherError.AccountExists); }
        if pos in ledger.holdings && ledger.holdings[pos].market == market { return Err(DispatcherError.AccountExists); }
        ledger.taken := ledger.taken + {ShareAccount(pos, market)};
    }
    return Ok(0);
  }

  // ----- transactions -----

  method Dispatch(ledger: Ledger, a: Action, remaining: seq<AccountInfo>) returns (r: Result<nat, DispatcherError>)
    modifies ledger
    ensures Settles(r, ledger.View(), Handle(old(ledger.View()), a))
  {
    hide HandleInitializeRegistry, HandleWhitelistAdapter, HandlePauseAdapter, HandleOpenPosition, HandleDeposit,
      HandleWithdraw, HandleCurrentValue;
    match a
    case InitializeRegistry(signer) => r := InitializeRegistryHandler(ledger, signer);
    case WhitelistAdapter(signer, program, name, version, executable) =>
      r := WhitelistAdapterHandler(ledger, signer, program, name, version, executable);
    case PauseAdapter(signer, program, paused) => r := PauseAdapterHandler(ledger, signer, program, paused);
    case OpenPosition(tx, owner, program, market, cpis) =>
      r := OpenPositionHandler(ledger, tx, owner, program, market, remaining, cpis);
    case Deposit(tx, owner, program, wallet, amount, cpis) =>
      r := DepositHandler(ledger, tx, owner, program, wallet, amount, remaining, cpis);
    case Withdraw(tx, owner, program, wallet, shares, cpis) =>
      r := WithdrawHandler(ledger, tx, owner, program, wallet, shares, remaining, cpis);
    case CurrentValue(tx, owner, program, vaultBalance, cpis) =>
      r := CurrentValueHandler(ledger, tx, owner, program, vaultBalance, remaining, cpis);
    case _ => r := EnvironmentHandler(ledger, a);
  }

  /** One transaction: a failed instruction leaves no trace, whatever it had already changed. */
  method Execute(ledger: Ledger, a: Action, remaining: seq<AccountInfo>) returns (r: Result<nat, DispatcherError>)
    modifies ledger
    ensures ledger.View() == Step(old(ledger.View()), a)
    ensures r.Ok? <==> Handle(old(ledger.View()), a).Ok?
    ensures r.Err? ==> ledger.View() == old(ledger.View())
  {
    hide Handle;
    var before := ledger.View();
    r := Dispatch(ledger, a, remaining);
    if r.Ok? {
      ledger.ret := None;
    } else {
      ledger.Restore(before);
    }
  }

  /** A whole run, so that every theorem about Run is one about these programs. */
  method ExecuteAll(ledger: Ledger, actions: seq<Action>, remaining: seq<seq<AccountInfo>>)
    requires |remaining| == |actions|
    modifies ledger
    ensures ledger.View() == Run(old(ledger.View()), actions)
  {
    hide Step;
    assert actions[0..] == actions;
    for i := 0 to |actions|
      invariant Run(ledger.View(), actions[i..]) == Run(old(ledger.View()), actions)
    {
      assert actions[i..][0] == actions[i] && actions[i..][1..] == actions[i + 1..];
      var _ := Execute(ledger, actions[i], remaining[i]);
    }
  }
}
