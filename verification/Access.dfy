/** Who may do what, and with which error the others are turned away. */
module Access {
  import opened Machine
  import opened Accounts
  import opened Protocol
  import opened DispatcherSpec
  import opened Effects
  import opened Inversion
  import opened PauseBracket
  import AdapterInterface
  import AdapterSpec
  import ProtocolCalls

  // ----- governance -----

  /** The registry is created once, by anyone, who becomes its admin. */
  lemma InitializeSucceedsIff(w: World, a: Action)
    requires a.InitializeRegistry?
    ensures Handle(w, a).Ok? <==> w.registry.None?
    ensures Handle(w, a).Ok? ==> Handle(w, a).value.0 == w.(registry := Some(Registry(a.signer, 0)))
    ensures Handle(w, a).Err? ==> Handle(w, a).error == DispatcherError.AccountExists
  {}

  /** Whitelisting succeeds exactly for the registry's admin, for a program without an entry that is
      executable, with a name of at most 32 bytes and version 1, while fewer than 256 are counted; it adds
      that one active entry and counts it. */
  lemma WhitelistSucceedsIff(w: World, a: Action)
    requires a.WhitelistAdapter?
    ensures Handle(w, a).Ok? <==>
      && w.registry.Some? && w.registry.value.admin == a.signer
      && a.program !in w.entries && a.executable && |a.name| <= 32 && a.version == 1
      && w.registry.value.adapterCount < 256
    ensures Handle(w, a).Ok? ==>
      Handle(w, a).value.0 == w.(
        registry := Some(Registry(w.registry.value.admin, w.registry.value.adapterCount + 1)),
        entries := w.entries[a.program := AdapterEntry(a.program, 1, a.name, true)],
        log := w.log + [AdapterWhitelisted(a.program, a.name, 1)])
  {}

  /** The error of the first check that fails. */
  lemma WhitelistRefusals(w: World, a: Action)
    requires a.WhitelistAdapter? && Handle(w, a).Err?
    ensures Handle(w, a).error == (
      if w.registry.None? then DispatcherError.AccountMissing
      else if a.signer != w.registry.value.admin then DispatcherError.Unauthorized
      else if a.program in w.entries then DispatcherError.AccountExists
      else if !a.executable then DispatcherError.NotExecutable
      else if |a.name| > 32 then DispatcherError.NameTooLong
      else if a.version != 1 then DispatcherError.VersionMismatch
      else DispatcherError.RegistryFull)
  {}

  /** Pausing and unpausing succeed exactly for the admin and an existing entry, of which they set the switch. */
  lemma PauseSucceedsIff(w: World, a: Action)
    requires a.PauseAdapter?
    ensures Handle(w, a).Ok? <==> w.registry.Some? && a.program in w.entries && w.registry.value.admin == a.signer
    ensures Handle(w, a).Ok? ==>
      Handle(w, a).value.0 == w.(
        entries := w.entries[a.program := w.entries[a.program].(isActive := !a.paused)],
        log := w.log + [AdapterPaused(a.program, !a.paused)])
    ensures Handle(w, a).Err? ==>
      Handle(w, a).error ==
        if w.registry.Some? && a.program in w.entries then DispatcherError.Unauthorized else DispatcherError.AccountMissing
  {}

  predicate Governs(a: Action, admin: nat) {
    (a.WhitelistAdapter? || a.PauseAdapter?) && a.signer == admin
  }

  /** No step adds, removes or changes an entry but the admin's own whitelisting or pausing. */
  lemma OnlyAdminChangesEntries(w: World, a: Action)
    requires Step(w, a).entries != w.entries
    ensures w.registry.Some? && Governs(a, w.registry.value.admin)
  {
    if a.WhitelistAdapter? {
      WhitelistSucceedsIff(w, a);
    } else if a.PauseAdapter? {
      PauseSucceedsIff(w, a);
    } else if Handle(w, a).Ok? {
      if a.Routed() { RoutedEntries(w, a); }
      else if Environment(a) { EnvironmentSteps(w, a); }
      else { GovernanceSteps(w, a); }
    }
    hide Handle;
  }

  /** Over any run in which the admin signs no governance instruction the entries stay as they are, whatever
      everybody else tries. */
  lemma {:induction false} EntriesNeedTheAdmin(w: World, actions: seq<Action>, admin: nat)
    requires Admin(w, admin)
    requires forall a | a in actions :: !Governs(a, admin)
    ensures Run(w, actions).entries == w.entries
    decreases |actions|
  {
    hide Step;
    if actions != [] {
      StepKeepsAdmin(w, actions[0], admin);
      if Step(w, actions[0]).entries != w.entries { OnlyAdminChangesEntries(w, actions[0]); }
      EntriesNeedTheAdmin(Step(w, actions[0]), actions[1..], admin);
    }
  }

  // ----- routed instructions -----

  /** What a routed instruction finds wrong with its own accounts and arguments, in the order of its checks. */
  function FirstRefusal(w: World, a: Action): Option<DispatcherError>
    requires a.Routed()
  {
    var pos := PositionId(a.owner, a.program);
    if a.program !in w.entries then Some(DispatcherError.AccountMissing)
    else if a.OpenPosition? then
      if !w.entries[a.program].isActive then Some(DispatcherError.AdapterInactive)
      else if pos in w.positions || Pool(pos) in w.usdc then Some(DispatcherError.AccountExists)
      else if w.entries[a.program].version != 1 then Some(DispatcherError.VersionMismatch)
      else None
    else if pos !in w.positions then Some(DispatcherError.AccountMissing)
    else if (a.Deposit? || a.Withdraw?) && (Pool(pos) !in w.usdc || a.wallet !in w.usdc) then Some(DispatcherError.AccountMissing)
    else if !w.entries[a.program].isActive then Some(DispatcherError.AdapterInactive)
    else if w.positions[pos].program != a.program then Some(DispatcherError.AdapterMismatch)
    else if (a.Deposit? || a.Withdraw?) && w.positions[pos].owner != a.owner then Some(DispatcherError.Unauthorized)
    else if (a.Deposit? || a.Withdraw?) && (!a.wallet.Wallet? || a.wallet.owner != a.owner) then
      Some(DispatcherError.WrongTokenOwner)
    else if (a.Deposit? && a.amount == 0) || (a.Withdraw? && a.shares == 0) then Some(DispatcherError.ZeroAmount)
    else if w.entries[a.program].version != 1 then Some(DispatcherError.VersionMismatch)
    else None
  }

  /** A refused instruction fails with that error before a token moves or an adapter is called; past its own
      checks it fails only because a transfer does or the adapter does, and then says so. */
  lemma RoutedRefusals(w: World, a: Action)
    requires a.Routed()
    ensures FirstRefusal(w, a).Some? ==> Handle(w, a) == Err(FirstRefusal(w, a).value)
    ensures FirstRefusal(w, a).None? && Handle(w, a).Err? ==>
      || Handle(w, a).error == DispatcherError.AdapterMismatch
      || (!a.OpenPosition? && Handle(w, a).error == DispatcherError.MissingReturnData)
      || ((a.Deposit? || a.Withdraw?) && Handle(w, a).error.TokenFailed?)
  {
    hide AdapterSpec.Initialize, AdapterSpec.Deposit, AdapterSpec.Withdraw, AdapterSpec.CurrentValue, Transfer,
      AdapterInterface.GetU64Return;
  }

  /** The slot holds eight bytes that the program itself returned. */
  predicate Returned(w: World, program: Program) {
    w.ret.Some? && w.ret.value.program == program && |w.ret.value.data| == 8
  }

  /** How a number comes back: a failed adapter is AdapterMismatch, one that did not leave eight bytes of its own is
      MissingReturnData, and of the others the bytes' value is taken. */
  lemma ComesBack(r: Result<World, AdapterError>, program: Program)
    ensures r.Err? ==> RoutedValue(r, program) == Err(DispatcherError.AdapterMismatch)
    ensures r.Ok? && !Returned(r.value, program) ==> RoutedValue(r, program) == Err(DispatcherError.MissingReturnData)
    ensures r.Ok? && Returned(r.value, program) ==> RoutedValue(r, program) == Ok((r.value, LeValue(r.value.ret.value.data)))
  {}

  /** A redemption or a value read that passes its own checks fails as its adapter's answer says. */
  lemma AnswerRefusals(w: World, a: Action)
    requires (a.Withdraw? || a.CurrentValue?) && FirstRefusal(w, a).None?
    ensures var pos := PositionId(a.owner, a.program);
      var r := if a.Withdraw? then AdapterSpec.Withdraw(w, a.tx, pos, a.shares, [], a.cpis)
               else AdapterSpec.CurrentValue(w, a.tx, pos, [], a.vaultBalance, a.cpis);
      && (r.Err? ==> Handle(w, a) == Err(DispatcherError.AdapterMismatch))
      && (r.Ok? && !Returned(r.value, a.program) ==> Handle(w, a) == Err(DispatcherError.MissingReturnData))
  {
    var pos := PositionId(a.owner, a.program);
    ComesBack(if a.Withdraw? then AdapterSpec.Withdraw(w, a.tx, pos, a.shares, [], a.cpis)
              else AdapterSpec.CurrentValue(w, a.tx, pos, [], a.vaultBalance, a.cpis), a.program);
    hide AdapterSpec.Withdraw, AdapterSpec.CurrentValue, RoutedValue, Returned;
  }

  /** A deposit its owner cannot cover fails with the token program's error. */
  lemma UncoveredDeposit(w: World, a: Action)
    requires a.Deposit? && FirstRefusal(w, a).None? && a.amount > w.usdc[a.wallet]
    ensures Handle(w, a) == Err(TokenFailed(InsufficientFunds))
  {
    hide AdapterSpec.Deposit;
  }

  /** The errors an adapter's own checks give, first to last. */
  lemma AdapterRefusals(w: World, tx: Transaction, pos: PositionId, n: U64, data: seq<Byte>, cpis: seq<Cpi>)
    requires pos.program.IsReference() && pos in w.states && pos in w.holdings && Pool(pos) in w.usdc
    ensures n == 0 ==>
      AdapterSpec.Deposit(w, tx, pos, n, data, cpis) == Err(AdapterError.ZeroAmount) == AdapterSpec.Withdraw(w, tx, pos, n, data, cpis)
    ensures n > 0 && |data| > 256 ==>
      AdapterSpec.Deposit(w, tx, pos, n, data, cpis) == Err(AdapterDataTooLarge) == AdapterSpec.Withdraw(w, tx, pos, n, data, cpis)
    ensures n > w.states[pos].totalShares && |data| <= 256 && !pos.program.MarginFi? ==>
      AdapterSpec.Withdraw(w, tx, pos, n, data, cpis) == Err(InsufficientShares)
    ensures n > 0 && |data| <= 256 && !(tx.current < |tx.programs| && tx.programs[tx.current] == Dispatcher) ==>
      AdapterSpec.Deposit(w, tx, pos, n, data, cpis) == Err(AdapterError.Unauthorized)
    ensures |data| > 256 ==> AdapterSpec.CurrentValue(w, tx, pos, data, n, cpis) == Err(AdapterDataTooLarge)
    ensures |data| <= 256 && !(tx.current < |tx.programs| && tx.programs[tx.current] == Dispatcher) ==>
      AdapterSpec.CurrentValue(w, tx, pos, data, n, cpis) == Err(AdapterError.Unauthorized)
    ensures 0 < n <= w.states[pos].totalShares && |data| <= 256
            && !(tx.current < |tx.programs| && tx.programs[tx.current] == Dispatcher) ==>
      AdapterSpec.Withdraw(w, tx, pos, n, data, cpis) == Err(AdapterError.Unauthorized)
  {
    hide InvokeAll;
  }

  /** Past its checks, an adapter fails with CpiFailed when a protocol call does and with MathOverflow when what it
      measured cannot be booked or returned. */
  lemma AdapterFailures(w: World, tx: Transaction, pos: PositionId, n: U64, data: seq<Byte>, cpis: seq<Cpi>)
    requires pos.program.IsReference() && pos in w.states && pos in w.holdings && Pool(pos) in w.usdc
    requires 0 < n && |data| <= 256 && tx.current < |tx.programs| && tx.programs[tx.current] == Dispatcher
    ensures var r, d := ProtocolCalls.DepositCalls(w, pos, cpis), AdapterSpec.Deposit(w, tx, pos, n, data, cpis);
      && (r.Err? ==> d == Err(CpiFailed))
      && (r.Ok? && d.Err? ==> d == Err(AdapterError.MathOverflow))
    ensures pos.program.MarginFi? || n <= w.states[pos].totalShares ==>
      var r, d := ProtocolCalls.RedemptionCalls(w, pos, cpis), AdapterSpec.Withdraw(w, tx, pos, n, data, cpis);
      && (r.Err? ==> d == Err(CpiFailed))
      && (r.Ok? && d.Err? ==> d == Err(AdapterError.MathOverflow))
  {
    ProtocolCalls.CallsAre(w, pos, cpis);
    var deposits, redeems := AdapterSpec.DepositCalls(pos.program), AdapterSpec.WithdrawCalls(pos.program);
    if InvokeAll(w, pos, true, cpis, deposits).Ok? { InvokeAllKeeps(w, pos, true, cpis, deposits); }
    if InvokeAll(w, pos, true, cpis, redeems).Ok? { InvokeAllKeeps(w, pos, true, cpis, redeems); }
    CallsFailOneWay(w, pos, cpis);
    hide InvokeAll, ProtocolCalls.DepositCalls, ProtocolCalls.RedemptionCalls;
  }

  lemma CallsFailOneWay(w: World, pos: PositionId, cpis: seq<Cpi>)
    ensures ProtocolCalls.DepositCalls(w, pos, cpis).Err? ==> ProtocolCalls.DepositCalls(w, pos, cpis) == Err(CpiFailed)
    ensures ProtocolCalls.RedemptionCalls(w, pos, cpis).Err? ==> ProtocolCalls.RedemptionCalls(w, pos, cpis) == Err(CpiFailed)
  {}

  /** Without its accounts an adapter does nothing. */
  lemma AdapterNeedsAccounts(w: World, tx: Transaction, pos: PositionId, n: U64, data: seq<Byte>, cpis: seq<Cpi>)
    requires pos.program.IsReference() && pos !in w.states
    ensures AdapterSpec.Deposit(w, tx, pos, n, data, cpis) == Err(AdapterError.AccountMissing)
    ensures AdapterSpec.Withdraw(w, tx, pos, n, data, cpis) == Err(AdapterError.AccountMissing)
    ensures AdapterSpec.CurrentValue(w, tx, pos, data, n, cpis) == Err(AdapterError.AccountMissing)
  {}

  // ----- everybody else -----

  /** What others may do between instructions: nothing that takes from a pool or a token account, but their own
      transfers, new accounts, rewritten markets, and share accounts of protocols that say anything. */
  lemma EnvironmentSucceedsIff(w: World, a: Action)
    requires Environment(a)
    ensures Handle(w, a).Ok? <==>
      match a
      case CreateTokenAccount(account) => account !in w.usdc
      case MoveUsdc(from, to, quantity) =>
        && !from.Pool? && from in w.usdc && to in w.usdc && quantity <= w.usdc[from]
        && (from == to || w.usdc[to] + quantity < 0x1_0000_0000_0000_0000)
      case MoveMarket(id, supply, _) => supply < ProtocolCalls.Width(id.program)
      case MoveShares(pos, held) =>
        && pos in w.holdings && held < ProtocolCalls.Width(pos.program)
        && (pos.program.Kamino? || pos.program.Jupiter? || pos.program.Maple? ==> held >= w.holdings[pos].amount)
      case CreateShareAccount(pos, market) =>
        && (pos.program.Kamino? || pos.program.Jupiter? || pos.program.Maple?)
        && ShareAccount(pos, market) !in w.taken
        && !(pos in w.holdings && w.holdings[pos].market == market)
      case _ => false
  {
    if a.MoveUsdc? { TransferSucceedsIff(w.usdc, a.from, a.to, a.quantity); }
    hide Transfer;
  }
}
