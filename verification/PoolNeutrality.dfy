/** What deposits and withdrawals do to the position's pool, whatever the protocol does. */
module PoolNeutrality {
  import opened Machine
  import opened Accounts
  import opened Protocol
  import opened DispatcherSpec
  import opened Effects
  import opened Inversion
  import opened Governance
  import opened ReturnChannel
  import AdapterSpec

  function Balance(w: World, a: UsdcAccount): nat {
    if a in w.usdc then w.usdc[a] else 0
  }

  /** The vault of the market the position is in. */
  function VaultOf(w: World, pos: PositionId): UsdcAccount
    requires pos in w.holdings
  {
    Vault(MarketOf(w, pos))
  }

  lemma TransferBalances(w: World, from: UsdcAccount, to: UsdcAccount, amount: nat, w1: World)
    requires Transfer(w.usdc, from, to, amount) == Ok(w1.usdc) && from != to
    ensures Balance(w1, from) == Balance(w, from) - amount
    ensures Balance(w1, to) == Balance(w, to) + amount
    ensures forall x | x != from && x != to :: Balance(w1, x) == Balance(w, x)
  {}

  lemma ProtocolBalances(w: World, w1: World, pos: PositionId)
    requires OnlyProtocol(w, w1, pos) && pos in w.holdings
    ensures pos in w1.holdings && VaultOf(w1, pos) == VaultOf(w, pos)
    ensures Balance(w1, Pool(pos)) + Balance(w1, VaultOf(w, pos)) == Balance(w, Pool(pos)) + Balance(w, VaultOf(w, pos))
    ensures forall x | x != Pool(pos) && x != VaultOf(w, pos) :: Balance(w1, x) == Balance(w, x)
  {
    assert w1.usdc.Keys == w.usdc.Keys;
  }

  /** For any adapter: the owner receives what the adapter reports, the vault loses what the protocol
      paid, and the pool absorbs the difference. So the pool is left as it was exactly when the adapter
      reports what was paid, which every adapter of this repository does. */
  lemma WithdrawSettles(w: World, a: Action)
    requires RegistryInv(w) && a.Withdraw? && Handle(w, a).Ok?
    ensures var pos, (w', v) := PositionId(a.owner, a.program), Handle(w, a).value;
      && pos in w.holdings
      && var paid := Balance(w, VaultOf(w, pos)) - Balance(w', VaultOf(w, pos));
      && Balance(w', a.wallet) == Balance(w, a.wallet) + v
      && Balance(w', Pool(pos)) - Balance(w, Pool(pos)) == paid - v
      && (Balance(w', Pool(pos)) == Balance(w, Pool(pos)) <==> v == paid)
      && (a.program.IsReference() ==> v == paid)
      && (forall x | x != a.wallet && x != Pool(pos) && x != VaultOf(w, pos) :: Balance(w', x) == Balance(w, x))
  {
    hide Handle, AdapterSpec.Withdraw, Transfer, OnlyProtocol;
    var pos := PositionId(a.owner, a.program);
    var (w', v) := Handle(w, a).value;
    WithdrawSteps(w, a);
    var w1 := AdapterSpec.Withdraw(w, a.tx, pos, a.shares, [], a.cpis).value;
    ProtocolBalances(w, w1.(states := w.states, log := w.log), pos);
    if v > 0 { TransferBalances(w1, Pool(pos), a.wallet, v, w'); }
    if a.program.IsReference() { WithdrawReturns(w, a); }
  }

  /** The owner pays `amount`, the vault gains what the protocol took, and the pool keeps the rest. */
  lemma DepositSettles(w: World, a: Action)
    requires RegistryInv(w) && a.Deposit? && Handle(w, a).Ok?
    ensures var pos, (w', v) := PositionId(a.owner, a.program), Handle(w, a).value;
      && pos in w.holdings
      && var taken := Balance(w', VaultOf(w, pos)) - Balance(w, VaultOf(w, pos));
      && Balance(w', a.wallet) == Balance(w, a.wallet) - a.amount
      && Balance(w', Pool(pos)) - Balance(w, Pool(pos)) == a.amount - taken
      && (Balance(w', Pool(pos)) >= Balance(w, Pool(pos)) <==> taken <= a.amount)
      && (forall x | x != a.wallet && x != Pool(pos) && x != VaultOf(w, pos) :: Balance(w', x) == Balance(w, x))
  {
    hide Handle, AdapterSpec.Deposit, Transfer, OnlyProtocol;
    var pos, w0 := PositionId(a.owner, a.program), Funded(w, a);
    DepositSteps(w, a);
    TransferBalances(w, a.wallet, Pool(pos), a.amount, w0);
    var w1 := AdapterSpec.Deposit(w0, a.tx, pos, a.amount, [], a.cpis).value;
    ProtocolBalances(w0, w1.(states := w0.states, log := w0.log), pos);
  }

  /** The protocol's side of a position's deposit: it takes at most the amount it was asked to take. */
  ghost predicate TakesAtMostAmount(w: World, a: Action, pos: PositionId) {
    a.Deposit? && PositionId(a.owner, a.program) == pos && Handle(w, a).Ok? && pos in w.holdings ==>
      Balance(Handle(w, a).value.0, VaultOf(w, pos)) - Balance(w, VaultOf(w, pos)) <= a.amount
  }

  ghost predicate RunTakesAtMostAmount(w: World, actions: seq<Action>, pos: PositionId)
    decreases |actions|
  {
    actions == [] || (TakesAtMostAmount(w, actions[0], pos) && RunTakesAtMostAmount(Step(w, actions[0]), actions[1..], pos))
  }

  lemma ValueKeepsPool(w: World, a: Action, pos: PositionId)
    requires a.CurrentValue? && Handle(w, a).Ok? && Pool(pos) in w.usdc
    ensures Balance(Handle(w, a).value.0, Pool(pos)) >= Balance(w, Pool(pos))
  {
    hide Handle, AdapterSpec.ValueOf;
    ValueSteps(w, a);
    UnsignedCalls(w, PositionId(a.owner, a.program), a.cpis,
                  if a.program.IsReference() then AdapterSpec.ValueCalls(a.program) else 1);
  }

  /** Without the position's signature nothing leaves its pool or share account. */
  lemma {:induction false} UnsignedCalls(w: World, pos: PositionId, cpis: seq<Cpi>, n: nat)
    requires InvokeAll(w, pos, false, cpis, n).Ok?
    ensures Balance(InvokeAll(w, pos, false, cpis, n).value, Pool(pos)) >= Balance(w, Pool(pos))
    ensures pos in w.holdings ==> (
      && pos in InvokeAll(w, pos, false, cpis, n).value.holdings
      && InvokeAll(w, pos, false, cpis, n).value.holdings[pos].amount >= w.holdings[pos].amount)
  {
    if n > 0 { UnsignedCalls(w, pos, cpis, n - 1); }
  }

  lemma DepositKeepsDust(w: World, a: Action, pos: PositionId)
    requires RegistryInv(w) && a.Deposit? && Handle(w, a).Ok? && TakesAtMostAmount(w, a, pos)
    ensures Balance(Handle(w, a).value.0, Pool(pos)) >= Balance(w, Pool(pos))
  {
    hide Handle, RegistryInv;
    DepositSteps(w, a);
    hide AdapterSpec.Deposit, Transfer, AdapterEffect, SameTables;
    DepositSettles(w, a);
    var own := PositionId(a.owner, a.program);
    if pos != own {
      assert Pool(pos) != a.wallet && Pool(pos) != Pool(own) && Pool(pos) != VaultOf(w, own);
    }
  }

  lemma WithdrawKeepsDust(w: World, a: Action, pos: PositionId)
    requires RegistryInv(w) && a.Withdraw? && Handle(w, a).Ok? && pos.program.IsReference()
    ensures Balance(Handle(w, a).value.0, Pool(pos)) >= Balance(w, Pool(pos))
  {
    hide Handle, RegistryInv;
    WithdrawSteps(w, a);
    hide AdapterSpec.Withdraw, Transfer, AdapterEffect, SameTables;
    WithdrawSettles(w, a);
    var own := PositionId(a.owner, a.program);
    if pos != own {
      assert Pool(pos) != a.wallet && Pool(pos) != Pool(own) && Pool(pos) != VaultOf(w, own);
    }
  }

  lemma OpenKeepsDust(w: World, a: Action, pos: PositionId)
    requires a.OpenPosition? && Handle(w, a).Ok? && pos in w.positions
    ensures Balance(Handle(w, a).value.0, Pool(pos)) >= Balance(w, Pool(pos))
  {
    hide Handle, OnlyProtocol;
    OpenSteps(w, a);
    var own := PositionId(a.owner, a.program);
    var w0 := Opened(w, a).(holdings := w.holdings[own := Holding(a.market, 0)]);
    var w1 := Handle(w, a).value.0.(states := w.states, log := w.log);
    ProtocolBalances(w0, w1, own);
    assert pos != own && Pool(pos) != VaultOf(w0, own);
    assert Balance(w1, Pool(pos)) == Balance(w0, Pool(pos)) == Balance(w, Pool(pos));
  }

  lemma EnvironmentKeepsDust(w: World, a: Action, pos: PositionId)
    requires Environment(a) && Handle(w, a).Ok?
    ensures Balance(Handle(w, a).value.0, Pool(pos)) >= Balance(w, Pool(pos))
  {
    hide Handle, SameTables;
    EnvironmentSteps(w, a);
  }

  lemma StepKeepsDust(w: World, a: Action, pos: PositionId)
    requires RegistryInv(w) && TakesAtMostAmount(w, a, pos)
    requires pos in w.positions && pos.program.IsReference()
    ensures Balance(Step(w, a), Pool(pos)) >= Balance(w, Pool(pos))
  {
    hide Handle, TakesAtMostAmount, RegistryInv;
    if Handle(w, a).Ok? {
      if a.OpenPosition? { OpenKeepsDust(w, a, pos); }
      else if a.Deposit? { DepositKeepsDust(w, a, pos); }
      else if a.Withdraw? { WithdrawKeepsDust(w, a, pos); }
      else if a.CurrentValue? { if Pool(pos) in w.usdc { ValueKeepsPool(w, a, pos); } }
      else if Environment(a) { EnvironmentKeepsDust(w, a, pos); }
      else { GovernanceSteps(w, a); }
    }
  }

  /** What a pool holds in excess never shrinks over a run in which the position's own protocol takes at
      most what the position's own deposits offer, whatever other positions and their protocols do. */
  lemma {:induction false} DustNeverShrinks(w: World, actions: seq<Action>, pos: PositionId)
    requires RegistryInv(w) && RunTakesAtMostAmount(w, actions, pos)
    requires pos in w.positions && pos.program.IsReference()
    ensures Balance(Run(w, actions), Pool(pos)) >= Balance(w, Pool(pos))
    decreases |actions|
  {
    if actions != [] {
      StepKeepsDust(w, actions[0], pos);
      StepRegistry(w, actions[0]);
      DustNeverShrinks(Step(w, actions[0]), actions[1..], pos);
    }
  }
}
