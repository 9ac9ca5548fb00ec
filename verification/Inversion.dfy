/** A successful routed instruction, taken apart: the accounts before the adapter runs, the accounts
    it leaves, and what the dispatcher adds. The theorems reason from these facts alone. */
module Inversion {
  import opened Machine
  import opened Accounts
  import opened Protocol
  import opened DispatcherSpec
  import opened Effects
  import AdapterInterface
  import AdapterSpec

  ghost predicate SameTables(w: World, w1: World) {
    && w1.registry == w.registry && w1.entries == w.entries && w1.positions == w.positions
    && w.usdc.Keys <= w1.usdc.Keys && w1.holdings.Keys == w.holdings.Keys
    && w1.states.Keys == w.states.Keys
    && (forall p | p in w.states :: w1.states[p] == w.states[p].(totalShares := w1.states[p].totalShares))
  }

  function Funded(w: World, a: Action): World
    requires a.Deposit?
  {
    var t := Transfer(w.usdc, a.wallet, Pool(PositionId(a.owner, a.program)), a.amount);
    if t.Ok? then w.(usdc := t.value) else w
  }

  lemma DepositSteps(w: World, a: Action)
    requires a.Deposit? && Handle(w, a).Ok?
    ensures var pos, (w', v), w0 := PositionId(a.owner, a.program), Handle(w, a).value, Funded(w, a);
      && pos in w.positions && a.program in w.entries && w.entries[a.program].isActive
      && a.wallet == Wallet(a.owner, a.wallet.index) && a.amount > 0
      && Transfer(w.usdc, a.wallet, Pool(pos), a.amount) == Ok(w0.usdc)
      && var r := AdapterSpec.Deposit(w0, a.tx, pos, a.amount, [], a.cpis);
      && r.Ok?
      && AdapterEffect(w0, r.value, pos)
      && AdapterInterface.GetU64Return(r.value.ret, a.program) == Some(v)
      && w' == r.value.(log := r.value.log + [Deposited(pos, a.amount, v)])
      && SameTables(w, w')
  {
    hide AdapterSpec.Deposit, AdapterInterface.GetU64Return;
    DepositEffect(Funded(w, a), a.tx, PositionId(a.owner, a.program), a.amount, [], a.cpis);
  }

  lemma WithdrawSteps(w: World, a: Action)
    requires a.Withdraw? && Handle(w, a).Ok?
    ensures var pos, (w', v) := PositionId(a.owner, a.program), Handle(w, a).value;
      && pos in w.positions && a.program in w.entries && w.entries[a.program].isActive
      && a.wallet == Wallet(a.owner, a.wallet.index) && a.shares > 0
      && var r := AdapterSpec.Withdraw(w, a.tx, pos, a.shares, [], a.cpis);
      && r.Ok?
      && AdapterEffect(w, r.value, pos)
      && AdapterInterface.GetU64Return(r.value.ret, a.program) == Some(v)
      && w' == r.value.(usdc := w'.usdc, log := r.value.log + [Withdrawn(pos, a.shares, v)])
      && (if v > 0 then Transfer(r.value.usdc, Pool(pos), a.wallet, v) else Ok(r.value.usdc)) == Ok(w'.usdc)
      && SameTables(w, w')
  {
    hide AdapterSpec.Withdraw, AdapterInterface.GetU64Return;
    WithdrawEffect(w, a.tx, PositionId(a.owner, a.program), a.shares, [], a.cpis);
  }

  /** A token failure of a withdrawal is that of its payout. */
  lemma WithdrawTokenFailure(w: World, a: Action)
    requires a.Withdraw? && Handle(w, a).Err? && Handle(w, a).error.TokenFailed?
    ensures var pos := PositionId(a.owner, a.program);
      var r := AdapterSpec.Withdraw(w, a.tx, pos, a.shares, [], a.cpis);
      && r.Ok?
      && AdapterEffect(w, r.value, pos)
      && AdapterInterface.GetU64Return(r.value.ret, a.program).Some?
      && Transfer(r.value.usdc, Pool(pos), a.wallet, AdapterInterface.GetU64Return(r.value.ret, a.program).value)
         == Err(Handle(w, a).error.why)
  {
    hide AdapterSpec.Withdraw, AdapterInterface.GetU64Return, Transfer;
    var pos := PositionId(a.owner, a.program);
    assert FundMovement(w, pos, a.owner, a.wallet).Ok?;
    assert SameVersion(w, a.program).Ok?;
    WithdrawEffect(w, a.tx, pos, a.shares, [], a.cpis);
  }

  lemma ValueSteps(w: World, a: Action)
    requires a.CurrentValue? && Handle(w, a).Ok?
    ensures var pos, (w', v) := PositionId(a.owner, a.program), Handle(w, a).value;
      && pos in w.positions && a.program in w.entries && w.entries[a.program].isActive
      && var r := AdapterSpec.CurrentValue(w, a.tx, pos, [], a.vaultBalance, a.cpis);
      && r.Ok?
      && AdapterEffect(w, r.value, pos)
      && AdapterInterface.GetU64Return(r.value.ret, a.program) == Some(v)
      && w' == r.value.(log := r.value.log + [ValueRead(pos, v)],
                        ret := Some(AdapterInterface.U64Return(Dispatcher, v)))
      && SameTables(w, w')
  {
    hide AdapterSpec.CurrentValue, AdapterInterface.GetU64Return;
    CurrentValueEffect(w, a.tx, PositionId(a.owner, a.program), [], a.vaultBalance, a.cpis);
  }

  /** The accounts an adapter's initialize starts from, with the position and its empty pool created. */
  function Opened(w: World, a: Action): World
    requires a.OpenPosition?
  {
    var pos := PositionId(a.owner, a.program);
    w.(positions := w.positions[pos := Position(a.owner, a.program)], usdc := w.usdc[Pool(pos) := 0])
  }

  lemma OpenSteps(w: World, a: Action)
    requires a.OpenPosition? && Handle(w, a).Ok?
    ensures var pos, (w', v), w0 := PositionId(a.owner, a.program), Handle(w, a).value, Opened(w, a);
      && pos !in w.positions && Pool(pos) !in w.usdc && pos !in w.states
      && !AdapterSpec.ShareAccountExists(w, pos, a.market)
      && a.program in w.entries && w.entries[a.program].isActive && v == 0
      && var w00 := w0.(holdings := w0.holdings[pos := Holding(a.market, 0)]);
      && OnlyProtocol(w00, w'.(states := w.states, log := w.log), pos)
      && w'.states == (if a.program.IsReference() then w.states[pos := AdapterState(pos, a.program, 0)] else w.states)
      && w'.log == w.log + [PositionOpened(pos)]
  {
    hide AdapterSpec.Initialize;
    InitializeEffect(Opened(w, a), a.tx, PositionId(a.owner, a.program), a.market, [], a.cpis);
  }

  predicate Environment(a: Action) {
    a.CreateTokenAccount? || a.MoveUsdc? || a.MoveMarket? || a.MoveShares? || a.CreateShareAccount?
  }

  lemma EnvironmentSteps(w: World, a: Action)
    requires Environment(a) && Handle(w, a).Ok?
    ensures var w' := Handle(w, a).value.0;
      && SameTables(w, w') && w'.states == w.states && w'.log == w.log
      && (a.CreateTokenAccount? ==>
            a.account !in w.usdc && w' == w.(usdc := w.usdc[a.account := 0]))
      && (a.MoveUsdc? ==>
            !a.from.Pool? && Transfer(w.usdc, a.from, a.to, a.quantity) == Ok(w'.usdc) && w' == w.(usdc := w'.usdc))
      && (a.MoveMarket? ==>
            a.supply < ShareCap(a.id.program) && w' == w.(markets := w.markets[a.id := Market(a.supply, a.prices)]))
      && (a.CreateShareAccount? ==> w' == w.(taken := w.taken + {ShareAccount(a.position, a.market)}))
      && (a.MoveShares? ==>
            && a.position in w.holdings && a.held < ShareCap(a.position.program)
            && (HoldsTokens(a.position.program) ==> a.held >= w.holdings[a.position].amount)
            && w' == w.(holdings := w.holdings[a.position := w.holdings[a.position].(amount := a.held)]))
  {}

  lemma GovernanceSteps(w: World, a: Action)
    requires !a.Routed() && !Environment(a) && Handle(w, a).Ok?
    ensures var w' := Handle(w, a).value.0;
      && w' == w.(registry := w'.registry, entries := w'.entries, log := w'.log)
      && (a.InitializeRegistry? ==>
            w.registry.None? && w'.registry == Some(Registry(a.signer, 0)) && w'.entries == w.entries && w'.log == w.log)
      && (a.WhitelistAdapter? ==>
            && w.registry.Some? && a.program !in w.entries && |a.name| <= 32
            && w.registry.value.adapterCount < 256
            && w'.registry == Some(w.registry.value.(adapterCount := w.registry.value.adapterCount + 1))
            && w'.entries == w.entries[a.program := AdapterEntry(a.program, 1, a.name, true)]
            && w'.log == w.log + [AdapterWhitelisted(a.program, a.name, a.version)])
      && (a.PauseAdapter? ==>
            && w.registry.Some? && a.program in w.entries && w'.registry == w.registry
            && w'.entries == w.entries[a.program := w.entries[a.program].(isActive := !a.paused)]
            && w'.log == w.log + [AdapterPaused(a.program, !a.paused)])
  {}
}
