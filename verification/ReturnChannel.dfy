/** The number the dispatcher reads back is the one the routed adapter computed in that call,
    whatever return data the protocol calls leave in between. */
module ReturnChannel {
  import opened Machine
  import opened Accounts
  import opened Protocol
  import opened DispatcherSpec
  import opened Effects
  import opened Inversion
  import AdapterInterface
  import AdapterSpec

  // ----- what an adapter instruction computes and books -----

  lemma AdapterDepositBooks(w: World, tx: Transaction, pos: PositionId, amount: U64, cpis: seq<Cpi>)
    requires pos.program.IsReference() && AdapterSpec.Deposit(w, tx, pos, amount, [], cpis).Ok?
    ensures var w1 := AdapterSpec.Deposit(w, tx, pos, amount, [], cpis).value;
      && pos in w.states && pos in w.holdings && pos in w1.states && pos in w1.holdings
      && AdapterInterface.CalledByDispatcher(tx)
      && var minted := AdapterSpec.SharesMinted(pos.program, amount, w.holdings[pos].amount, w1.holdings[pos].amount);
      && minted.Ok?
      && w1.states == w.states[pos := w.states[pos].(totalShares := w1.states[pos].totalShares)]
      && w1.states[pos].totalShares == w.states[pos].totalShares + minted.value
      && w1.ret == Some(AdapterInterface.U64Return(pos.program, minted.value))
      && w1.log == w.log + [AdapterDepositEvent(pos, amount, minted.value)]
  {
    hide AdapterInterface.U64Return, InvokeAll;
    InvokeAllKeeps(w, pos, true, cpis, AdapterSpec.DepositCalls(pos.program));
  }

  lemma AdapterWithdrawBooks(w: World, tx: Transaction, pos: PositionId, shares: U64, cpis: seq<Cpi>)
    requires pos.program.IsReference() && AdapterSpec.Withdraw(w, tx, pos, shares, [], cpis).Ok?
    ensures var w1 := AdapterSpec.Withdraw(w, tx, pos, shares, [], cpis).value;
      && pos in w.states && pos in w1.states && Pool(pos) in w.usdc && Pool(pos) in w1.usdc
      && AdapterInterface.CalledByDispatcher(tx)
      && 0 <= w1.usdc[Pool(pos)] - w.usdc[Pool(pos)] < TWO64
      && (pos.program.MarginFi? || shares <= w.states[pos].totalShares)
      && w1.states == w.states[pos := w.states[pos].(totalShares := w1.states[pos].totalShares)]
      && AdapterSpec.SharesLeft(pos.program, w.states[pos].totalShares, shares) == Ok(w1.states[pos].totalShares)
      && w1.ret == Some(AdapterInterface.U64Return(pos.program, w1.usdc[Pool(pos)] - w.usdc[Pool(pos)]))
      && w1.log == w.log + [AdapterWithdrawEvent(pos, shares, w1.usdc[Pool(pos)] - w.usdc[Pool(pos)])]
  {
    hide AdapterInterface.U64Return, InvokeAll;
    InvokeAllKeeps(w, pos, true, cpis, AdapterSpec.WithdrawCalls(pos.program));
  }

  lemma AdapterValueBooks(w: World, tx: Transaction, pos: PositionId, vaultBalance: U64, cpis: seq<Cpi>)
    requires pos.program.IsReference() && AdapterSpec.CurrentValue(w, tx, pos, [], vaultBalance, cpis).Ok?
    ensures var w1 := AdapterSpec.CurrentValue(w, tx, pos, [], vaultBalance, cpis).value;
      && AdapterInterface.CalledByDispatcher(tx)
      && w1.states == w.states
      && var value := AdapterSpec.ValueOf(w1, pos, vaultBalance);
      && value.Ok?
      && w1.ret == Some(AdapterInterface.U64Return(pos.program, value.value))
      && w1.log == w.log + [AdapterValueEvent(pos, value.value)]
  {
    hide AdapterInterface.U64Return, InvokeAll;
    InvokeAllKeeps(w, pos, false, cpis, AdapterSpec.ValueCalls(pos.program));
  }

  // ----- what the dispatcher reads -----

  /** A deposit returns and logs the shares the adapter measured (MarginFi: the principal), and books
      exactly those. */
  lemma DepositReturns(w: World, a: Action)
    requires a.Deposit? && a.program.IsReference() && Handle(w, a).Ok?
    ensures var pos, (w', v) := PositionId(a.owner, a.program), Handle(w, a).value;
      && pos in w.states && pos in w.holdings && pos in w'.states && pos in w'.holdings
      && v == (if a.program.MarginFi? then a.amount else w'.holdings[pos].amount - w.holdings[pos].amount)
      && w'.states == w.states[pos := w.states[pos].(totalShares := w'.states[pos].totalShares)]
      && w'.states[pos].totalShares == w.states[pos].totalShares + v
      && w'.log == w.log + [AdapterDepositEvent(pos, a.amount, v), Deposited(pos, a.amount, v)]
  {
    hide Handle, AdapterSpec.Deposit, AdapterInterface.GetU64Return, AdapterInterface.U64Return;
    var pos := PositionId(a.owner, a.program);
    DepositSteps(w, a);
    AdapterDepositBooks(Funded(w, a), a.tx, pos, a.amount, a.cpis);
    var w1 := AdapterSpec.Deposit(Funded(w, a), a.tx, pos, a.amount, [], a.cpis).value;
    var minted := AdapterSpec.SharesMinted(a.program, a.amount, w.holdings[pos].amount, w1.holdings[pos].amount).value;
    AdapterInterface.ReadBackIff(w1.ret, a.program, minted);
    assert w1.log == w.log + [AdapterDepositEvent(pos, a.amount, minted)];
  }

  /** A withdrawal returns and logs the growth of the pool, and the booked shares drop as the adapter says. */
  lemma WithdrawReturns(w: World, a: Action)
    requires a.Withdraw? && a.program.IsReference() && Handle(w, a).Ok?
    ensures var pos, (w', v) := PositionId(a.owner, a.program), Handle(w, a).value;
      && var w1 := AdapterSpec.Withdraw(w, a.tx, pos, a.shares, [], a.cpis);
      && w1.Ok? && pos in w.states && pos in w'.states && Pool(pos) in w.usdc && Pool(pos) in w1.value.usdc
      && v == w1.value.usdc[Pool(pos)] - w.usdc[Pool(pos)]
      && (a.program.MarginFi? || a.shares <= w.states[pos].totalShares)
      && w'.states == w.states[pos := w.states[pos].(totalShares := w'.states[pos].totalShares)]
      && w'.states[pos].totalShares ==
           (if a.shares <= w.states[pos].totalShares then w.states[pos].totalShares - a.shares else 0)
      && w'.log == w.log + [AdapterWithdrawEvent(pos, a.shares, v), Withdrawn(pos, a.shares, v)]
  {
    hide Handle, AdapterSpec.Withdraw, AdapterInterface.GetU64Return, AdapterInterface.U64Return;
    var pos := PositionId(a.owner, a.program);
    WithdrawSteps(w, a);
    AdapterWithdrawBooks(w, a.tx, pos, a.shares, a.cpis);
    var w1 := AdapterSpec.Withdraw(w, a.tx, pos, a.shares, [], a.cpis).value;
    AdapterInterface.ReadBackIff(w1.ret, a.program, w1.usdc[Pool(pos)] - w.usdc[Pool(pos)]);
  }

  /** A value read returns, logs and re-emits under the dispatcher's id the value computed from the
      accounts the call leaves. */
  lemma ValueReturns(w: World, a: Action)
    requires a.CurrentValue? && a.program.IsReference() && Handle(w, a).Ok?
    ensures var pos, (w', v) := PositionId(a.owner, a.program), Handle(w, a).value;
      && AdapterSpec.ValueOf(w', pos, a.vaultBalance) == Ok(v)
      && AdapterInterface.GetU64Return(w'.ret, Dispatcher) == Some(v)
      && w'.states == w.states
      && w'.log == w.log + [AdapterValueEvent(pos, v), ValueRead(pos, v)]
  {
    hide Handle, AdapterSpec.CurrentValue, AdapterInterface.GetU64Return, AdapterInterface.U64Return;
    var pos := PositionId(a.owner, a.program);
    ValueSteps(w, a);
    AdapterValueBooks(w, a.tx, pos, a.vaultBalance, a.cpis);
    var w1 := AdapterSpec.CurrentValue(w, a.tx, pos, [], a.vaultBalance, a.cpis).value;
    var value := AdapterSpec.ValueOf(w1, pos, a.vaultBalance).value;
    AdapterInterface.ReadBackIff(w1.ret, a.program, value);
    AdapterInterface.ReadBackIff(Handle(w, a).value.0.ret, Dispatcher, value);
    ValueIgnores(w1, Handle(w, a).value.0, pos, a.vaultBalance);
  }

  lemma ValueIgnores(w: World, w1: World, pos: PositionId, vaultBalance: U64)
    requires w1 == w.(log := w1.log, ret := w1.ret)
    ensures AdapterSpec.ValueOf(w1, pos, vaultBalance) == AdapterSpec.ValueOf(w, pos, vaultBalance)
  {}

  /** From a foreign adapter the dispatcher takes a number exactly when that program itself left eight
      bytes as the last return data; it has no booked shares here and logs nothing of its own. */
  lemma ForeignReturns(w: World, a: Action)
    requires (a.Deposit? || a.Withdraw? || a.CurrentValue?) && !a.program.IsReference() && Handle(w, a).Ok?
    ensures a.program.Other? && a.cpis != [] && a.cpis[0].CpiDone?
    ensures var pos, (w', v) := PositionId(a.owner, a.program), Handle(w, a).value;
      && v < TWO64
      && a.cpis[0].ret == Some(AdapterInterface.U64Return(a.program, v))
      && w'.states == w.states
      && w'.log == w.log + [if a.Deposit? then Deposited(pos, a.amount, v)
                            else if a.Withdraw? then Withdrawn(pos, a.shares, v)
                            else ValueRead(pos, v)]
  {
    hide Handle, AdapterSpec.Foreign, AdapterInterface.GetU64Return, AdapterInterface.U64Return;
    var pos, v := PositionId(a.owner, a.program), Handle(w, a).value.1;
    match a
    case Deposit(_, _, _, _, _, _) =>
      DepositSteps(w, a);
      ForeignCall(Funded(w, a), pos, true, a.cpis);
      AdapterInterface.ReadBackIff(a.cpis[0].ret, a.program, v);
    case Withdraw(_, _, _, _, _, _) =>
      WithdrawSteps(w, a);
      ForeignCall(w, pos, true, a.cpis);
      AdapterInterface.ReadBackIff(a.cpis[0].ret, a.program, v);
    case CurrentValue(_, _, _, _, _) =>
      ValueSteps(w, a);
      ForeignCall(w, pos, false, a.cpis);
      AdapterInterface.ReadBackIff(a.cpis[0].ret, a.program, v);
  }

  lemma ForeignCall(w: World, pos: PositionId, signed: bool, cpis: seq<Cpi>)
    requires AdapterSpec.Foreign(w, pos, signed, cpis).Ok?
    ensures pos.program.Other? && cpis != [] && cpis[0].CpiDone?
    ensures AdapterSpec.Foreign(w, pos, signed, cpis).value.ret == cpis[0].ret
    ensures AdapterSpec.Foreign(w, pos, signed, cpis).value.log == w.log
    ensures AdapterSpec.Foreign(w, pos, signed, cpis).value.states == w.states
  {
    assert InvokeAll(w, pos, signed, cpis, 1) == Invoke(w, pos, signed, CpiAt(cpis, 0));
  }

  /** The adapters look at the transaction's top-level program, not at their caller: when another
      program invokes the dispatcher, no routed instruction reaches a reference adapter's protocol. */
  lemma NotComposable(w: World, a: Action)
    requires a.Routed() && a.program.IsReference()
    requires !(a.tx.current < |a.tx.programs| && a.tx.programs[a.tx.current] == Dispatcher)
    ensures Handle(w, a).Err? && Step(w, a) == w
  {
    hide Handle, AdapterSpec.Deposit, AdapterSpec.Withdraw, AdapterSpec.CurrentValue;
    if Handle(w, a).Ok? {
      var pos := PositionId(a.owner, a.program);
      match a
      case OpenPosition(_, _, _, _, _) => OpenChecksCaller(w, a);
      case Deposit(_, _, _, _, _, _) => DepositSteps(w, a); AdapterDepositBooks(Funded(w, a), a.tx, pos, a.amount, a.cpis);
      case Withdraw(_, _, _, _, _, _) => WithdrawSteps(w, a); AdapterWithdrawBooks(w, a.tx, pos, a.shares, a.cpis);
      case CurrentValue(_, _, _, _, _) => ValueSteps(w, a); AdapterValueBooks(w, a.tx, pos, a.vaultBalance, a.cpis);
    }
  }

  lemma OpenChecksCaller(w: World, a: Action)
    requires a.OpenPosition? && a.program.IsReference() && Handle(w, a).Ok?
    ensures AdapterInterface.CalledByDispatcher(a.tx)
  {
    hide InvokeAll;
  }

  // ----- the log -----

  /** The events of a successful action, in terms of its arguments and the number it returns. */
  function EventsOf(a: Action, v: nat): seq<Event> {
    match a
    case OpenPosition(_, owner, program, _, _) => [PositionOpened(PositionId(owner, program))]
    case Deposit(_, owner, program, _, amount, _) =>
      (if program.IsReference() then [AdapterDepositEvent(PositionId(owner, program), amount, v)] else [])
      + [Deposited(PositionId(owner, program), amount, v)]
    case Withdraw(_, owner, program, _, shares, _) =>
      (if program.IsReference() then [AdapterWithdrawEvent(PositionId(owner, program), shares, v)] else [])
      + [Withdrawn(PositionId(owner, program), shares, v)]
    case CurrentValue(_, owner, program, _, _) =>
      (if program.IsReference() then [AdapterValueEvent(PositionId(owner, program), v)] else [])
      + [ValueRead(PositionId(owner, program), v)]
    case WhitelistAdapter(_, program, name, version, _) => [AdapterWhitelisted(program, name, version)]
    case PauseAdapter(_, program, paused) => [AdapterPaused(program, !paused)]
    case _ => []
  }

  /** Both programs log the same number: the one that came back through the return channel. */
  lemma LogGrowth(w: World, a: Action)
    ensures Handle(w, a).Ok? ==> Handle(w, a).value.0.log == w.log + EventsOf(a, Handle(w, a).value.1)
  {
    hide Handle;
    if Handle(w, a).Ok? {
      if a.OpenPosition? { OpenSteps(w, a); }
      else if a.Routed() {
        if !a.program.IsReference() { ForeignReturns(w, a); }
        else if a.Deposit? { DepositReturns(w, a); }
        else if a.Withdraw? { WithdrawReturns(w, a); }
        else { ValueReturns(w, a); }
      }
      else if Environment(a) { EnvironmentSteps(w, a); }
      else { GovernanceSteps(w, a); }
    }
  }
}
