/** USDC is neither created nor destroyed, by any step of any run. */
module Conservation {
  import opened Machine
  import opened Arithmetic
  import opened Accounts
  import opened Protocol
  import opened DispatcherSpec
  import opened Effects
  import opened Inversion
  import AdapterInterface
  import AdapterSpec

  lemma TransferConserves(usdc: map<UsdcAccount, nat>, from: UsdcAccount, to: UsdcAccount, amount: nat)
    ensures Transfer(usdc, from, to, amount).Ok? ==> Sum(Transfer(usdc, from, to, amount).value) == Sum(usdc)
    ensures Sum(usdc) < TWO64 ==> Transfer(usdc, from, to, amount) != Err(Overflow)
  {
    if from in usdc && to in usdc && usdc[from] >= amount && from != to {
      SumAtLeastTwo(usdc, from, to);
      SumUpdate(usdc, from, usdc[from] - amount);
      SumUpdate(usdc[from := usdc[from] - amount], to, usdc[to] + amount);
    }
  }

  lemma ProtocolConserves(w: World, w1: World, pos: PositionId)
    requires OnlyProtocol(w, w1, pos)
    ensures Sum(w1.usdc) == Sum(w.usdc)
  {
    if w1.usdc != w.usdc {
      var pool, vault := Pool(pos), Vault(MarketOf(w, pos));
      SumUpdate(w.usdc, pool, w1.usdc[pool]);
      SumUpdate(w.usdc[pool := w1.usdc[pool]], vault, w1.usdc[vault]);
      assert w1.usdc == w.usdc[pool := w1.usdc[pool]][vault := w1.usdc[vault]];
    }
  }

  /** With under 2^64 in circulation, a call whose balances stay non-negative never meets the u64 limit. */
  lemma CallNeverOverflows(w: World, pos: PositionId, flow: int)
    requires Sum(w.usdc) < TWO64 && pos in w.holdings
    requires Pool(pos) in w.usdc && Vault(MarketOf(w, pos)) in w.usdc
    requires w.usdc[Pool(pos)] + flow >= 0 && w.usdc[Vault(MarketOf(w, pos))] - flow >= 0
    ensures w.usdc[Pool(pos)] + flow < TWO64 && w.usdc[Vault(MarketOf(w, pos))] - flow < TWO64
  {
    SumAtLeastTwo(w.usdc, Pool(pos), Vault(MarketOf(w, pos)));
  }

  lemma RoutedConserves(w: World, a: Action)
    requires a.Routed() && Handle(w, a).Ok?
    ensures Sum(Handle(w, a).value.0.usdc) == Sum(w.usdc)
  {
    hide Handle, Transfer, AdapterSpec.Deposit, AdapterSpec.Withdraw, AdapterSpec.CurrentValue;
    var pos, w' := PositionId(a.owner, a.program), Handle(w, a).value.0;
    match a
    case OpenPosition(_, _, _, market, _) =>
      OpenSteps(w, a);
      var w0 := Opened(w, a);
      SumUpdate(w.usdc, Pool(pos), 0);
      ProtocolConserves(w0.(holdings := w0.holdings[pos := Holding(market, 0)]),
                        w'.(states := w.states, log := w.log), pos);
    case Deposit(tx, _, _, wallet, amount, cpis) =>
      DepositSteps(w, a);
      TransferConserves(w.usdc, wallet, Pool(pos), amount);
      var w0 := Funded(w, a);
      var w1 := AdapterSpec.Deposit(w0, tx, pos, amount, [], cpis).value;
      ProtocolConserves(w0, w1.(states := w0.states, log := w0.log), pos);
    case Withdraw(tx, _, _, wallet, shares, cpis) =>
      WithdrawSteps(w, a);
      var w1 := AdapterSpec.Withdraw(w, tx, pos, shares, [], cpis).value;
      ProtocolConserves(w, w1.(states := w.states, log := w.log), pos);
      TransferConserves(w1.usdc, Pool(pos), wallet, Handle(w, a).value.1);
    case CurrentValue(tx, _, _, vaultBalance, cpis) =>
      ValueSteps(w, a);
      var w1 := AdapterSpec.CurrentValue(w, tx, pos, [], vaultBalance, cpis).value;
      ProtocolConserves(w, w1.(states := w.states, log := w.log), pos);
  }

  lemma StepConserves(w: World, a: Action)
    ensures Sum(Step(w, a).usdc) == Sum(w.usdc)
  {
    hide Handle;
    if Handle(w, a).Ok? {
      if a.Routed() {
        RoutedConserves(w, a);
      } else if Environment(a) {
        EnvironmentSteps(w, a);
        if a.CreateTokenAccount? { SumUpdate(w.usdc, a.account, 0); }
        if a.MoveUsdc? { TransferConserves(w.usdc, a.from, a.to, a.quantity); }
      } else {
        GovernanceSteps(w, a);
      }
    }
  }

  /** Conservation over whole runs. */
  lemma {:induction false} RunConserves(w: World, actions: seq<Action>)
    ensures Sum(Run(w, actions).usdc) == Sum(w.usdc)
    decreases |actions|
  {
    if actions != [] {
      StepConserves(w, actions[0]);
      RunConserves(Step(w, actions[0]), actions[1..]);
    }
  }

  /** In every state of a run that started with under 2^64 in circulation, no transfer the dispatcher
      makes or a wallet or vault owner makes overflows its destination. */
  lemma NoOverflow(w: World, actions: seq<Action>, a: Action)
    requires Sum(w.usdc) < TWO64
    requires a.Deposit? || a.Withdraw? || a.MoveUsdc?
    ensures Handle(Run(w, actions), a) != Err(TokenFailed(Overflow))
  {
    RunConserves(w, actions);
    NoOverflowNow(Run(w, actions), a);
  }

  lemma NoOverflowNow(w: World, a: Action)
    requires Sum(w.usdc) < TWO64
    requires a.Deposit? || a.Withdraw? || a.MoveUsdc?
    ensures Handle(w, a) != Err(TokenFailed(Overflow))
  {
    hide AdapterSpec.Withdraw, AdapterSpec.Deposit, HandleWithdraw, Transfer, AdapterInterface.GetU64Return;
    match a
    case Deposit(_, owner, program, wallet, amount, _) =>
      TransferConserves(w.usdc, wallet, Pool(PositionId(owner, program)), amount);
    case MoveUsdc(from, to, amount) =>
      TransferConserves(w.usdc, from, to, amount);
    case Withdraw(tx, owner, program, wallet, shares, cpis) =>
      var pos := PositionId(owner, program);
      if Handle(w, a).Err? && Handle(w, a).error.TokenFailed? {
        WithdrawTokenFailure(w, a);
        var w1 := AdapterSpec.Withdraw(w, tx, pos, shares, [], cpis).value;
        ProtocolConserves(w, w1.(states := w.states, log := w.log), pos);
        TransferConserves(w1.usdc, Pool(pos), wallet, AdapterInterface.GetU64Return(w1.ret, program).value);
      }
  }
}
