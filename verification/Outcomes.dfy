/** What each routed instruction leaves behind, in terms of its arguments and of the outcomes of its own
    protocol calls, one by one. */
module Outcomes {
  import opened Machine
  import opened Accounts
  import opened Protocol
  import opened DispatcherSpec
  import opened Effects
  import opened Inversion
  import opened ReturnChannel
  import opened ProtocolCalls
  import AdapterInterface
  import AdapterSpec

  /** The first n outcomes are there and none is a failure. */
  predicate AllDone(cpis: seq<Cpi>, n: nat) {
    n <= |cpis| && forall k | 0 <= k < n :: cpis[k].CpiDone?
  }

  /** USDC that the first call, or the first two, moved to the pool. */
  function Moved(cpis: seq<Cpi>, n: nat): int
    requires AllDone(cpis, n) && 1 <= n <= 2
  {
    if n == 1 then cpis[0].flow else cpis[0].flow + cpis[1].flow
  }

  /** The calls' part of the accounts: shares and market as the last of n calls wrote them. */
  ghost predicate LastCallStands(w: World, w': World, pos: PositionId, cpis: seq<Cpi>, n: nat) {
    && 1 <= n <= 2 && AllDone(cpis, n) && pos in w.holdings
    && w'.holdings == w.holdings[pos := Holding(w.holdings[pos].market, cpis[n - 1].amount)]
    && w'.markets == w.markets[MarketOf(w, pos) := Market(cpis[n - 1].supply, cpis[n - 1].prices)]
  }

  lemma OnceStands(w: World, pos: PositionId, signed: bool, cpis: seq<Cpi>)
    requires Once(w, pos, signed, cpis).Ok?
    ensures var w1 := Once(w, pos, signed, cpis).value;
      && LastCallStands(w, w1, pos, cpis, 1)
      && Pool(pos) in w.usdc && Pool(pos) in w1.usdc && w1.usdc[Pool(pos)] == w.usdc[Pool(pos)] + cpis[0].flow
  {}

  lemma TwiceStands(w: World, pos: PositionId, signed: bool, cpis: seq<Cpi>)
    requires Twice(w, pos, signed, cpis).Ok?
    ensures var w1 := Twice(w, pos, signed, cpis).value;
      && LastCallStands(w, w1, pos, cpis, 2)
      && Pool(pos) in w.usdc && Pool(pos) in w1.usdc
      && w1.usdc[Pool(pos)] == w.usdc[Pool(pos)] + cpis[0].flow + cpis[1].flow
  {
    TwiceLeaves(w, pos, signed, cpis);
    hide Twice;
  }

  // ----- withdraw -----

  lemma RedeemLeaves(w: World, tx: Transaction, pos: PositionId, shares: U64, cpis: seq<Cpi>)
    requires pos.program.IsReference() && AdapterSpec.Withdraw(w, tx, pos, shares, [], cpis).Ok?
    ensures var w1, r := AdapterSpec.Withdraw(w, tx, pos, shares, [], cpis).value, RedemptionCalls(w, pos, cpis);
      r.Ok? && w1 == r.value.(states := w1.states, log := w1.log, ret := w1.ret)
  {
    CallsAre(w, pos, cpis);
    hide InvokeAll, RedemptionCalls, AdapterInterface.U64Return, AdapterInterface.CalledByDispatcher;
  }

  /** A redemption through Kamino (refresh, then redeem) or Drift (request, then remove) makes two calls, the
      others one. The number is the USDC they paid, and shares and market are as the last call left them. */
  lemma WithdrawOutcome(w: World, a: Action)
    requires a.Withdraw? && a.program.IsReference() && Handle(w, a).Ok?
    ensures var pos, n := PositionId(a.owner, a.program), if a.program.Kamino? || a.program.Drift? then 2 else 1;
      && LastCallStands(w, Handle(w, a).value.0, pos, a.cpis, n)
      && Handle(w, a).value.1 == Moved(a.cpis, n)
  {
    var pos := PositionId(a.owner, a.program);
    WithdrawSteps(w, a);
    WithdrawReturns(w, a);
    RedeemLeaves(w, a.tx, pos, a.shares, a.cpis);
    if a.program.Kamino? || a.program.Drift? { TwiceStands(w, pos, true, a.cpis); } else { OnceStands(w, pos, true, a.cpis); }
    hide Handle, AdapterSpec.Withdraw, AdapterEffect, SameTables, Once, Twice, Transfer;
  }

  // ----- deposit -----

  lemma EnterLeaves(w: World, tx: Transaction, pos: PositionId, amount: U64, cpis: seq<Cpi>)
    requires pos.program.IsReference() && AdapterSpec.Deposit(w, tx, pos, amount, [], cpis).Ok?
    ensures var w1, r := AdapterSpec.Deposit(w, tx, pos, amount, [], cpis).value, ProtocolCalls.DepositCalls(w, pos, cpis);
      r.Ok? && w1 == r.value.(states := w1.states, log := w1.log, ret := w1.ret)
  {
    CallsAre(w, pos, cpis);
    hide InvokeAll, ProtocolCalls.DepositCalls, AdapterInterface.U64Return, AdapterInterface.CalledByDispatcher;
  }

  /** A deposit through Kamino (refresh, then deposit) makes two calls, the others one. The pool is left with
      what it had, the amount and what the calls moved; shares and market are as the last call left them. */
  lemma DepositOutcome(w: World, a: Action)
    requires a.Deposit? && a.program.IsReference() && Handle(w, a).Ok?
    ensures var pos, n, w' := PositionId(a.owner, a.program), if a.program.Kamino? then 2 else 1, Handle(w, a).value.0;
      && LastCallStands(w, w', pos, a.cpis, n)
      && Handle(w, a).value.1 == (if a.program.MarginFi? then a.amount else a.cpis[n - 1].amount - w.holdings[pos].amount)
      && Pool(pos) in w.usdc && Pool(pos) in w'.usdc
      && w'.usdc[Pool(pos)] == w.usdc[Pool(pos)] + a.amount + Moved(a.cpis, n)
  {
    var pos, w0 := PositionId(a.owner, a.program), Funded(w, a);
    DepositSteps(w, a);
    DepositReturns(w, a);
    EnterLeaves(w0, a.tx, pos, a.amount, a.cpis);
    TransferSucceedsIff(w.usdc, a.wallet, Pool(pos), a.amount);
    if a.program.Kamino? { TwiceStands(w0, pos, true, a.cpis); } else { OnceStands(w0, pos, true, a.cpis); }
    hide Handle, AdapterSpec.Deposit, AdapterEffect, SameTables, Once, Twice, Transfer;
  }

  // ----- value -----

  lemma LookLeaves(w: World, tx: Transaction, pos: PositionId, vaultBalance: U64, cpis: seq<Cpi>)
    requires pos.program.IsReference() && AdapterSpec.CurrentValue(w, tx, pos, [], vaultBalance, cpis).Ok?
    ensures var w1, r := AdapterSpec.CurrentValue(w, tx, pos, [], vaultBalance, cpis).value, ReadCalls(w, pos, cpis);
      r.Ok? && w1 == r.value.(log := w1.log, ret := w1.ret)
  {
    CallsAre(w, pos, cpis);
    hide InvokeAll, ReadCalls, AdapterSpec.ValueOf, AdapterInterface.U64Return, AdapterInterface.CalledByDispatcher;
  }

  /** A value read through Kamino makes one call, the refresh; through the others none, and then nothing but
      the log and the return data differs afterwards. */
  lemma ValueOutcome(w: World, a: Action)
    requires a.CurrentValue? && a.program.IsReference() && Handle(w, a).Ok?
    ensures var pos, w' := PositionId(a.owner, a.program), Handle(w, a).value.0;
      if a.program.Kamino? then LastCallStands(w, w', pos, a.cpis, 1) else w' == w.(log := w'.log, ret := w'.ret)
  {
    var pos := PositionId(a.owner, a.program);
    ValueSteps(w, a);
    LookLeaves(w, a.tx, pos, a.vaultBalance, a.cpis);
    if a.program.Kamino? { OnceStands(w, pos, false, a.cpis); }
    hide Handle, AdapterSpec.CurrentValue, AdapterEffect, SameTables, Once;
  }

  // ----- open -----

  /** The share account a position opens with: empty where it is a token account, and as the one opening call
      of MarginFi or the second of Drift's two left it. */
  lemma OpenOutcome(w: World, a: Action)
    requires a.OpenPosition? && a.program.IsReference() && Handle(w, a).Ok?
    ensures var pos, w' := PositionId(a.owner, a.program), Handle(w, a).value.0;
      && (a.program.MarginFi? ==> AllDone(a.cpis, 1))
      && (a.program.Drift? ==> AllDone(a.cpis, 2))
      && w'.holdings == w.holdings[pos := Holding(a.market,
           if a.program.MarginFi? then a.cpis[0].amount else if a.program.Drift? then a.cpis[1].amount else 0)]
      && w'.positions == w.positions[pos := Position(a.owner, a.program)]
      && w'.states == w.states[pos := AdapterState(pos, a.program, 0)]
      && (HoldsTokens(a.program) ==> w'.usdc == w.usdc[Pool(pos) := 0] && w'.markets == w.markets)
  {
    hide Handle, OnlyProtocol, OpeningCalls;
    var pos := PositionId(a.owner, a.program);
    OpenSteps(w, a);
    OpenLeaves(w, a);
    OpeningCallsLeave(Opened(w, a).(holdings := w.holdings[pos := Holding(a.market, 0)]), pos, a.cpis);
  }

  lemma OpeningCallsLeave(w: World, pos: PositionId, cpis: seq<Cpi>)
    requires pos.program.IsReference() && pos in w.holdings && OpeningCalls(w, pos, cpis).Ok?
    ensures pos.program.MarginFi? ==> AllDone(cpis, 1)
    ensures pos.program.Drift? ==> AllDone(cpis, 2)
    ensures var w1 := OpeningCalls(w, pos, cpis).value;
      && w1.positions == w.positions
      && (HoldsTokens(pos.program) ==> w1 == w)
      && (pos.program.MarginFi? ==> w1.holdings == w.holdings[pos := Holding(w.holdings[pos].market, cpis[0].amount)])
      && (pos.program.Drift? ==> w1.holdings == w.holdings[pos := Holding(w.holdings[pos].market, cpis[1].amount)])
  {
    if pos.program.MarginFi? { OnceStands(w, pos, true, cpis); }
    else if pos.program.Drift? { TwiceStands(w, pos, true, cpis); }
  }

  lemma OpenLeaves(w: World, a: Action)
    requires a.OpenPosition? && a.program.IsReference() && Handle(w, a).Ok?
    ensures var pos, w' := PositionId(a.owner, a.program), Handle(w, a).value.0;
      var r := OpeningCalls(Opened(w, a).(holdings := w.holdings[pos := Holding(a.market, 0)]), pos, a.cpis);
      r.Ok? && w' == r.value.(states := w'.states, log := w'.log)
  {
    var pos := PositionId(a.owner, a.program);
    CallsAre(Opened(w, a).(holdings := w.holdings[pos := Holding(a.market, 0)]), pos, a.cpis);
    hide InvokeAll, OpeningCalls;
  }
}
