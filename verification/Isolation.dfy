/** What other owners do never shows in an owner's own accounts, positions, bookkeeping or events. */
module Isolation {
  import opened Machine
  import opened Accounts
  import opened Protocol
  import opened DispatcherSpec
  import opened Effects
  import opened Inversion
  import opened ReturnChannel
  import AdapterInterface
  import AdapterSpec

  // ----- an owner's part of the accounts -----

  predicate Mine(o: nat, a: UsdcAccount) {
    (a.Wallet? && a.owner == o) || (a.Pool? && a.position.owner == o)
  }

  ghost predicate SameUsdc(o: nat, u: map<UsdcAccount, nat>, w: map<UsdcAccount, nat>) {
    forall a | Mine(o, a) :: (a in u <==> a in w) && (a in u && a in w ==> u[a] == w[a])
  }

  ghost predicate SameStates(o: nat, u: map<PositionId, AdapterState>, w: map<PositionId, AdapterState>) {
    forall p: PositionId | p.owner == o :: (p in u <==> p in w) && (p in u && p in w ==> u[p] == w[p])
  }

  ghost predicate SameHoldings(o: nat, u: map<PositionId, Holding>, w: map<PositionId, Holding>) {
    forall p: PositionId | p.owner == o :: (p in u <==> p in w) && (p in u && p in w ==> u[p] == w[p])
  }

  ghost predicate SamePositions(o: nat, u: map<PositionId, Position>, w: map<PositionId, Position>) {
    forall p: PositionId | p.owner == o :: (p in u <==> p in w) && (p in u && p in w ==> u[p] == w[p])
  }

  ghost predicate SameTaken(o: nat, u: set<ShareAccount>, w: set<ShareAccount>) {
    forall s: ShareAccount | s.position.owner == o :: s in u <==> s in w
  }

  /** Same registry, and the same positions, adapter states, share accounts, pools and wallets of one owner. */
  ghost predicate SameAccounts(o: nat, u: World, w: World) {
    && u.registry == w.registry && u.entries == w.entries
    && SamePositions(o, u.positions, w.positions)
    && SameStates(o, u.states, w.states)
    && SameHoldings(o, u.holdings, w.holdings)
    && SameUsdc(o, u.usdc, w.usdc)
    && SameTaken(o, u.taken, w.taken)
  }

  predicate Concerns(e: Event, o: nat) {
    e.AdapterWhitelisted? || e.AdapterPaused? || e.position.owner == o
  }

  /** The governance events and the owner's own, in order. */
  function OwnLog(log: seq<Event>, o: nat): seq<Event> {
    if log == [] then []
    else OwnLog(log[..|log| - 1], o) + if Concerns(log[|log| - 1], o) then [log[|log| - 1]] else []
  }

  ghost predicate SameFor(o: nat, u: World, w: World) {
    SameAccounts(o, u, w) && OwnLog(u.log, o) == OwnLog(w.log, o)
  }

  lemma {:induction false} OwnLogConcat(log: seq<Event>, more: seq<Event>, o: nat)
    ensures OwnLog(log + more, o) == OwnLog(log, o) + OwnLog(more, o)
  {
    if more == [] {
      assert log + more == log;
    } else {
      var init := more[..|more| - 1];
      assert (log + more)[..|log + more| - 1] == log + init;
      OwnLogConcat(log, init, o);
    }
  }

  // ----- deleted actions leave the owner's part alone -----

  predicate ByOther(a: Action, o: nat) {
    a.Routed() && a.owner != o
  }

  lemma {:induction false} NothingOwn(log: seq<Event>, o: nat)
    requires forall k | 0 <= k < |log| :: !Concerns(log[k], o)
    ensures OwnLog(log, o) == []
  {
    if log != [] { NothingOwn(log[..|log| - 1], o); }
  }

  lemma OthersEvents(a: Action, o: nat, v: nat)
    requires ByOther(a, o)
    ensures OwnLog(EventsOf(a, v), o) == []
  {
    hide OwnLog;
    NothingOwn(EventsOf(a, v), o);
  }

  lemma ProtocolKeepsOthers(o: nat, w: World, w1: World, pos: PositionId)
    requires OnlyProtocol(w, w1, pos) && pos.owner != o
    ensures SameAccounts(o, w1, w)
  {}

  lemma AdapterKeepsOthers(o: nat, w: World, w1: World, pos: PositionId)
    requires AdapterEffect(w, w1, pos) && pos.owner != o
    ensures SameAccounts(o, w1, w)
  {
    var w2 := w1.(states := w.states, log := w.log);
    ProtocolKeepsOthers(o, w, w2, pos);
    hide OnlyProtocol, SameUsdc, SameHoldings, SamePositions;
    assert SameStates(o, w1.states, w.states);
  }

  lemma SameChain(o: nat, u: World, v: World, w: World)
    requires SameAccounts(o, u, v) && SameAccounts(o, v, w)
    ensures SameAccounts(o, u, w)
  {}

  lemma TransferKeepsOthers(o: nat, w: World, from: UsdcAccount, to: UsdcAccount, amount: nat, w1: World)
    requires Transfer(w.usdc, from, to, amount) == Ok(w1.usdc) && !Mine(o, from) && !Mine(o, to)
    requires w1 == w.(usdc := w1.usdc, log := w1.log, ret := w1.ret)
    ensures SameAccounts(o, w1, w)
  {}

  lemma LogKeepsAccounts(o: nat, w: World, w1: World)
    requires w1 == w.(log := w1.log, ret := w1.ret)
    ensures SameAccounts(o, w1, w)
  {}

  lemma OthersOpen(o: nat, w: World, a: Action)
    requires a.OpenPosition? && a.owner != o && Handle(w, a).Ok?
    ensures SameAccounts(o, Handle(w, a).value.0, w)
  {
    hide Handle, OnlyProtocol;
    var pos, w' := PositionId(a.owner, a.program), Handle(w, a).value.0;
    OpenSteps(w, a);
    ProtocolKeepsOthers(o, Opened(w, a).(holdings := w.holdings[pos := Holding(a.market, 0)]),
                        w'.(states := w.states, log := w.log), pos);
  }

  lemma OthersAccounts(o: nat, w: World, a: Action)
    requires ByOther(a, o) && Handle(w, a).Ok?
    ensures SameAccounts(o, Handle(w, a).value.0, w)
  {
    hide Handle, AdapterEffect, SameAccounts, Transfer, SameTables,
      AdapterSpec.Deposit, AdapterSpec.Withdraw, AdapterSpec.CurrentValue;
    var pos, w' := PositionId(a.owner, a.program), Handle(w, a).value.0;
    match a
    case OpenPosition(_, _, _, _, _) => OthersOpen(o, w, a);
    case Deposit(tx, _, _, wallet, amount, cpis) =>
      DepositSteps(w, a);
      var w0 := Funded(w, a);
      var w1 := AdapterSpec.Deposit(w0, tx, pos, amount, [], cpis).value;
      TransferKeepsOthers(o, w, wallet, Pool(pos), amount, w0);
      AdapterKeepsOthers(o, w0, w1, pos);
      LogKeepsAccounts(o, w1, w');
      SameChain(o, w1, w0, w);
      SameChain(o, w', w1, w);
    case Withdraw(tx, _, _, wallet, shares, cpis) =>
      WithdrawSteps(w, a);
      var w1 := AdapterSpec.Withdraw(w, tx, pos, shares, [], cpis).value;
      AdapterKeepsOthers(o, w, w1, pos);
      var v := Handle(w, a).value.1;
      if v > 0 { TransferKeepsOthers(o, w1, Pool(pos), wallet, v, w'); } else { LogKeepsAccounts(o, w1, w'); }
      SameChain(o, w', w1, w);
    case CurrentValue(tx, _, _, vaultBalance, cpis) =>
      ValueSteps(w, a);
      var w1 := AdapterSpec.CurrentValue(w, tx, pos, [], vaultBalance, cpis).value;
      AdapterKeepsOthers(o, w, w1, pos);
      LogKeepsAccounts(o, w1, w');
      SameChain(o, w', w1, w);
  }

  lemma OthersStep(o: nat, w: World, a: Action)
    requires ByOther(a, o)
    ensures SameFor(o, Step(w, a), w)
  {
    hide Handle;
    if Handle(w, a).Ok? {
      OthersAccounts(o, w, a);
      LogGrowth(w, a);
      OthersEvents(a, o, Handle(w, a).value.1);
      OwnLogConcat(w.log, EventsOf(a, Handle(w, a).value.1), o);
    }
  }

  /** A step of the environment that reaches the owner's own accounts. */
  predicate Touches(a: Action, o: nat) {
    match a
    case CreateTokenAccount(account) => Mine(o, account)
    case MoveUsdc(from, to, _) => Mine(o, from) || Mine(o, to)
    case MoveShares(pos, _) => pos.owner == o
    case CreateShareAccount(pos, _) => pos.owner == o
    case _ => false
  }

  lemma UntouchedAccounts(o: nat, w: World, a: Action)
    requires Environment(a) && !Touches(a, o) && Handle(w, a).Ok?
    ensures SameAccounts(o, Handle(w, a).value.0, w)
  {
    EnvironmentSteps(w, a);
    hide Handle, SameTables;
  }

  /** What others do to their own accounts and to the markets leaves the owner's part alone, whether it
      succeeds or not. */
  lemma UntouchedStep(o: nat, w: World, a: Action)
    requires Environment(a) && !Touches(a, o)
    ensures SameFor(o, Step(w, a), w)
  {
    if Handle(w, a).Ok? {
      UntouchedAccounts(o, w, a);
      EnvironmentSteps(w, a);
      LogKeepsAccounts(o, Handle(w, a).value.0, Step(w, a));
      SameChain(o, Step(w, a), Handle(w, a).value.0, w);
    }
    hide Handle, SameAccounts, SameTables;
  }

  // ----- what the shared protocols answer to the owner's own actions -----

  /** The protocol calls of a routed action, from the accounts its adapter starts with. */
  function CallsOf(w: World, a: Action): Result<World, AdapterError>
    requires a.Routed()
  {
    var pos := PositionId(a.owner, a.program);
    match a
    case OpenPosition(_, _, program, market, cpis) =>
      InvokeAll(Opened(w, a).(holdings := w.holdings[pos := Holding(market, 0)]), pos, true, cpis,
                AdapterSpec.InitializeCalls(program))
    case Deposit(_, _, program, _, _, cpis) =>
      InvokeAll(Funded(w, a), pos, true, cpis, AdapterSpec.DepositCalls(program))
    case Withdraw(_, _, program, _, _, cpis) =>
      InvokeAll(w, pos, true, cpis, AdapterSpec.WithdrawCalls(program))
    case CurrentValue(_, _, program, _, cpis) =>
      InvokeAll(w, pos, false, cpis, AdapterSpec.ValueCalls(program))
  }

  datatype Verdict = Verdict(accepted: bool, value: Result<U64, AdapterError>)

  /** What lies outside the owner's part and decides about an action: for a routed one whether its
      protocol calls succeed and, for a value read, the price; for USDC moved between the owner and
      somebody else whether the transfer succeeds. Nothing else is asked. */
  function VerdictOn(w: World, a: Action, o: nat): Verdict {
    if a.Routed() then
      if a.CurrentValue? && CallsOf(w, a).Ok? then
        Verdict(true, AdapterSpec.ValueOf(CallsOf(w, a).value, PositionId(a.owner, a.program), a.vaultBalance))
      else Verdict(CallsOf(w, a).Ok?, Ok(0))
    else if a.MoveUsdc? && Mine(o, a.from) != Mine(o, a.to) then
      Verdict(Handle(w, a).Ok?, Ok(0))
    else Verdict(true, Ok(0))
  }

  // ----- the same verdict gives the owner the same result -----

  lemma InvokeSame(o: nat, u: World, w: World, pos: PositionId, signed: bool, cpi: Cpi)
    requires pos.owner == o && SameAccounts(o, u, w)
    requires Invoke(u, pos, signed, cpi).Ok? && Invoke(w, pos, signed, cpi).Ok?
    ensures SameAccounts(o, Invoke(u, pos, signed, cpi).value, Invoke(w, pos, signed, cpi).value)
    ensures Invoke(u, pos, signed, cpi).value.ret == Invoke(w, pos, signed, cpi).value.ret
  {}

  lemma {:induction false} InvokeAllSame(o: nat, u: World, w: World, pos: PositionId, signed: bool, cpis: seq<Cpi>, n: nat)
    requires pos.owner == o && SameAccounts(o, u, w) && u.ret == w.ret
    requires InvokeAll(u, pos, signed, cpis, n).Ok? && InvokeAll(w, pos, signed, cpis, n).Ok?
    ensures SameAccounts(o, InvokeAll(u, pos, signed, cpis, n).value, InvokeAll(w, pos, signed, cpis, n).value)
    ensures InvokeAll(u, pos, signed, cpis, n).value.ret == InvokeAll(w, pos, signed, cpis, n).value.ret
  {
    hide Invoke, SameAccounts;
    if n > 0 {
      InvokeAllSame(o, u, w, pos, signed, cpis, n - 1);
      InvokeSame(o, InvokeAll(u, pos, signed, cpis, n - 1).value, InvokeAll(w, pos, signed, cpis, n - 1).value,
                 pos, signed, CpiAt(cpis, n - 1));
    }
  }

  /** Both fail, or both succeed with the same owner's part and the same return data. */
  ghost predicate SameResult(o: nat, ru: Result<World, AdapterError>, rw: Result<World, AdapterError>) {
    if rw.Ok? then ru.Ok? && SameAccounts(o, ru.value, rw.value) && ru.value.ret == rw.value.ret else ru.Err?
  }

  ghost predicate SameOutcome(o: nat, ou: Outcome, ow: Outcome) {
    if ow.Ok? then ou.Ok? && ou.value.1 == ow.value.1 && SameAccounts(o, ou.value.0, ow.value.0) else ou.Err?
  }

  lemma RoutedValueSame(o: nat, ru: Result<World, AdapterError>, rw: Result<World, AdapterError>, program: Program)
    requires SameResult(o, ru, rw)
    ensures SameOutcome(o, RoutedValue(ru, program), RoutedValue(rw, program))
  {}

  lemma SameAt(o: nat, u: World, w: World, pos: PositionId)
    requires pos.owner == o && SameAccounts(o, u, w)
    ensures pos in u.states <==> pos in w.states
    ensures pos in w.states ==> u.states[pos] == w.states[pos]
    ensures Pool(pos) in u.usdc <==> Pool(pos) in w.usdc
    ensures Pool(pos) in w.usdc ==> u.usdc[Pool(pos)] == w.usdc[Pool(pos)]
    ensures pos in u.holdings <==> pos in w.holdings
    ensures pos in w.holdings ==> u.holdings[pos] == w.holdings[pos]
    ensures forall market :: ShareAccount(pos, market) in u.taken <==> ShareAccount(pos, market) in w.taken
  {}

  lemma BookSame(o: nat, u: World, w: World, u1: World, w1: World, pos: PositionId, total: U64)
    requires pos.owner == o && SameAccounts(o, u, w) && pos in u.states && pos in w.states
    requires u1 == u.(states := u.states[pos := u.states[pos].(totalShares := total)], log := u1.log, ret := u1.ret)
    requires w1 == w.(states := w.states[pos := w.states[pos].(totalShares := total)], log := w1.log, ret := w1.ret)
    ensures SameAccounts(o, u1, w1)
  {}

  lemma DepositSame(o: nat, u: World, w: World, tx: Transaction, pos: PositionId, amount: U64, cpis: seq<Cpi>)
    requires pos.owner == o && SameAccounts(o, u, w) && u.ret == w.ret
    requires InvokeAll(u, pos, true, cpis, AdapterSpec.DepositCalls(pos.program)).Ok?
        <==> InvokeAll(w, pos, true, cpis, AdapterSpec.DepositCalls(pos.program)).Ok?
    ensures SameResult(o, AdapterSpec.Deposit(u, tx, pos, amount, [], cpis), AdapterSpec.Deposit(w, tx, pos, amount, [], cpis))
  {
    hide SameAccounts, InvokeAll, AdapterInterface.U64Return, AdapterInterface.CalledByDispatcher;
    var n := AdapterSpec.DepositCalls(pos.program);
    var ru, rw := InvokeAll(u, pos, true, cpis, n), InvokeAll(w, pos, true, cpis, n);
    SameAt(o, u, w, pos);
    if rw.Ok? {
      InvokeAllSame(o, u, w, pos, true, cpis, n);
      SameAt(o, ru.value, rw.value, pos);
      var r := AdapterSpec.Deposit(w, tx, pos, amount, [], cpis);
      if r.Ok? && pos.program.IsReference() {
        BookSame(o, ru.value, rw.value, AdapterSpec.Deposit(u, tx, pos, amount, [], cpis).value, r.value, pos,
                 r.value.states[pos].totalShares);
      }
    }
  }

  lemma WithdrawSame(o: nat, u: World, w: World, tx: Transaction, pos: PositionId, shares: U64, cpis: seq<Cpi>)
    requires pos.owner == o && SameAccounts(o, u, w) && u.ret == w.ret
    requires InvokeAll(u, pos, true, cpis, AdapterSpec.WithdrawCalls(pos.program)).Ok?
        <==> InvokeAll(w, pos, true, cpis, AdapterSpec.WithdrawCalls(pos.program)).Ok?
    ensures SameResult(o, AdapterSpec.Withdraw(u, tx, pos, shares, [], cpis), AdapterSpec.Withdraw(w, tx, pos, shares, [], cpis))
  {
    hide SameAccounts, InvokeAll, AdapterInterface.U64Return, AdapterInterface.CalledByDispatcher;
    var n := AdapterSpec.WithdrawCalls(pos.program);
    var ru, rw := InvokeAll(u, pos, true, cpis, n), InvokeAll(w, pos, true, cpis, n);
    SameAt(o, u, w, pos);
    if rw.Ok? {
      InvokeAllSame(o, u, w, pos, true, cpis, n);
      SameAt(o, ru.value, rw.value, pos);
      var r := AdapterSpec.Withdraw(w, tx, pos, shares, [], cpis);
      if r.Ok? && pos.program.IsReference() {
        BookSame(o, ru.value, rw.value, AdapterSpec.Withdraw(u, tx, pos, shares, [], cpis).value, r.value, pos,
                 r.value.states[pos].totalShares);
      }
    }
  }

  lemma ValueSame(o: nat, u: World, w: World, tx: Transaction, pos: PositionId, vaultBalance: U64, cpis: seq<Cpi>)
    requires pos.owner == o && SameAccounts(o, u, w) && u.ret == w.ret
    requires var (ru, rw) := (InvokeAll(u, pos, false, cpis, AdapterSpec.ValueCalls(pos.program)),
                              InvokeAll(w, pos, false, cpis, AdapterSpec.ValueCalls(pos.program)));
      && (ru.Ok? <==> rw.Ok?)
      && (ru.Ok? && rw.Ok? ==> AdapterSpec.ValueOf(ru.value, pos, vaultBalance) == AdapterSpec.ValueOf(rw.value, pos, vaultBalance))
    ensures SameResult(o, AdapterSpec.CurrentValue(u, tx, pos, [], vaultBalance, cpis),
                       AdapterSpec.CurrentValue(w, tx, pos, [], vaultBalance, cpis))
  {
    var n := AdapterSpec.ValueCalls(pos.program);
    if InvokeAll(w, pos, false, cpis, n).Ok? { InvokeAllSame(o, u, w, pos, false, cpis, n); }
    hide InvokeAll, AdapterSpec.ValueOf, AdapterInterface.U64Return, AdapterInterface.CalledByDispatcher;
  }

  lemma TransferSame(o: nat, u: map<UsdcAccount, nat>, w: map<UsdcAccount, nat>, from: UsdcAccount, to: UsdcAccount, amount: nat)
    requires SameUsdc(o, u, w) && Mine(o, from) && Mine(o, to)
    ensures Transfer(u, from, to, amount).Ok? <==> Transfer(w, from, to, amount).Ok?
    ensures Transfer(w, from, to, amount).Ok? ==>
      SameUsdc(o, Transfer(u, from, to, amount).value, Transfer(w, from, to, amount).value)
  {}

  lemma ChecksSame(o: nat, u: World, w: World, pos: PositionId, wallet: UsdcAccount)
    requires pos.owner == o && SameAccounts(o, u, w)
    ensures FundMovement(u, pos, o, wallet).Ok? <==> FundMovement(w, pos, o, wallet).Ok?
    ensures FundMovement(w, pos, o, wallet).Ok? ==> Mine(o, wallet) && pos.program in w.entries
  {}

  lemma SameRegistry(o: nat, u: World, w: World)
    requires SameAccounts(o, u, w)
    ensures u.registry == w.registry && u.entries == w.entries
  {}

  lemma SamePosition(o: nat, u: World, w: World, pos: PositionId)
    requires SameAccounts(o, u, w) && pos.owner == o
    ensures pos in u.positions <==> pos in w.positions
    ensures pos in w.positions ==> u.positions[pos] == w.positions[pos]
  {}

  /** Accounts that agree still do after the same movement in their USDC, whatever is logged or returned. */
  lemma SettledSame(o: nat, u: World, w: World, u1: World, w1: World)
    requires SameAccounts(o, u, w) && SameUsdc(o, u1.usdc, w1.usdc)
    requires u1 == u.(usdc := u1.usdc, log := u1.log, ret := u1.ret)
    requires w1 == w.(usdc := w1.usdc, log := w1.log, ret := w1.ret)
    ensures SameAccounts(o, u1, w1)
  {
    hide SameUsdc, SameStates, SameHoldings, SamePositions, SameTaken;
  }

  lemma SameUsdcOf(o: nat, u: World, w: World)
    requires SameAccounts(o, u, w)
    ensures SameUsdc(o, u.usdc, w.usdc)
  {}

  /** What equal verdicts say of the protocol's calls. */
  lemma VerdictsAgree(o: nat, u: World, w: World, a: Action)
    requires a.Routed() && VerdictOn(u, a, o) == VerdictOn(w, a, o)
    ensures CallsOf(u, a).Ok? <==> CallsOf(w, a).Ok?
    ensures a.CurrentValue? && CallsOf(w, a).Ok? ==>
      AdapterSpec.ValueOf(CallsOf(u, a).value, PositionId(a.owner, a.program), a.vaultBalance)
      == AdapterSpec.ValueOf(CallsOf(w, a).value, PositionId(a.owner, a.program), a.vaultBalance)
  {
    hide CallsOf, AdapterSpec.ValueOf;
  }

  lemma HandleDepositSame(o: nat, u: World, w: World, a: Action)
    requires a.Deposit? && a.owner == o && SameAccounts(o, u, w) && u.ret == w.ret
    requires VerdictOn(u, a, o) == VerdictOn(w, a, o)
    ensures SameOutcome(o, Handle(u, a), Handle(w, a))
  {
    hide AdapterSpec.Deposit, RoutedValue, FundMovement, Transfer, InvokeAll, VerdictOn, SameResult, SameAccounts, SameUsdc;
    var pos := PositionId(a.owner, a.program);
    var u0, w0 := Funded(u, a), Funded(w, a);
    VerdictsAgree(o, u, w, a);
    SameRegistry(o, u, w);
    SameUsdcOf(o, u, w);
    ChecksSame(o, u, w, pos, a.wallet);
    if FundMovement(w, pos, o, a.wallet).Ok? {
      TransferSame(o, u.usdc, w.usdc, a.wallet, Pool(pos), a.amount);
      if Transfer(w.usdc, a.wallet, Pool(pos), a.amount).Ok? {
        SettledSame(o, u, w, u0, w0);
        DepositSame(o, u0, w0, a.tx, pos, a.amount, a.cpis);
        var ru, rw := RoutedValue(AdapterSpec.Deposit(u0, a.tx, pos, a.amount, [], a.cpis), a.program),
                      RoutedValue(AdapterSpec.Deposit(w0, a.tx, pos, a.amount, [], a.cpis), a.program);
        RoutedValueSame(o, AdapterSpec.Deposit(u0, a.tx, pos, a.amount, [], a.cpis),
                        AdapterSpec.Deposit(w0, a.tx, pos, a.amount, [], a.cpis), a.program);
        if rw.Ok? { RelogSame(o, ru.value.0, rw.value.0, [Deposited(pos, a.amount, rw.value.1)]); }
      }
    }
  }

  lemma RelogSame(o: nat, u: World, w: World, more: seq<Event>)
    requires SameAccounts(o, u, w)
    ensures SameAccounts(o, u.(log := u.log + more), w.(log := w.log + more))
  {}

  lemma HandleWithdrawSame(o: nat, u: World, w: World, a: Action)
    requires a.Withdraw? && a.owner == o && SameAccounts(o, u, w) && u.ret == w.ret
    requires VerdictOn(u, a, o) == VerdictOn(w, a, o)
    ensures SameOutcome(o, Handle(u, a), Handle(w, a))
  {
    hide AdapterSpec.Withdraw, RoutedValue, FundMovement, Transfer, InvokeAll, VerdictOn, SameResult, SameAccounts, SameUsdc;
    var pos := PositionId(a.owner, a.program);
    VerdictsAgree(o, u, w, a);
    SameRegistry(o, u, w);
    ChecksSame(o, u, w, pos, a.wallet);
    if FundMovement(w, pos, o, a.wallet).Ok? {
      WithdrawSame(o, u, w, a.tx, pos, a.shares, a.cpis);
      var ru, rw := AdapterSpec.Withdraw(u, a.tx, pos, a.shares, [], a.cpis),
                    AdapterSpec.Withdraw(w, a.tx, pos, a.shares, [], a.cpis);
      RoutedValueSame(o, ru, rw, a.program);
      var ou, ow := RoutedValue(ru, a.program), RoutedValue(rw, a.program);
      if ow.Ok? {
        SameUsdcOf(o, ou.value.0, ow.value.0);
        TransferSame(o, ou.value.0.usdc, ow.value.0.usdc, Pool(pos), a.wallet, ow.value.1);
        if Handle(w, a).Ok? { SettledSame(o, ou.value.0, ow.value.0, Handle(u, a).value.0, Handle(w, a).value.0); }
      }
    }
  }

  lemma HandleValueSame(o: nat, u: World, w: World, a: Action)
    requires a.CurrentValue? && a.owner == o && SameAccounts(o, u, w) && u.ret == w.ret
    requires VerdictOn(u, a, o) == VerdictOn(w, a, o)
    ensures SameOutcome(o, Handle(u, a), Handle(w, a))
  {
    hide AdapterSpec.CurrentValue, RoutedValue, InvokeAll, VerdictOn, SameResult, SameAccounts, SameUsdc,
      AdapterSpec.ValueOf, AdapterInterface.U64Return;
    var pos := PositionId(a.owner, a.program);
    VerdictsAgree(o, u, w, a);
    SameRegistry(o, u, w);
    SamePosition(o, u, w, pos);
    ValueSame(o, u, w, a.tx, pos, a.vaultBalance, a.cpis);
    var ru, rw := AdapterSpec.CurrentValue(u, a.tx, pos, [], a.vaultBalance, a.cpis),
                  AdapterSpec.CurrentValue(w, a.tx, pos, [], a.vaultBalance, a.cpis);
    RoutedValueSame(o, ru, rw, a.program);
    var ou, ow := RoutedValue(ru, a.program), RoutedValue(rw, a.program);
    if ow.Ok? && Handle(w, a).Ok? {
      SameUsdcOf(o, ou.value.0, ow.value.0);
      SettledSame(o, ou.value.0, ow.value.0, Handle(u, a).value.0, Handle(w, a).value.0);
    }
  }

  lemma HoldingSame(o: nat, u: World, w: World, pos: PositionId, h: Holding)
    requires SameAccounts(o, u, w)
    ensures SameAccounts(o, u.(holdings := u.holdings[pos := h]), w.(holdings := w.holdings[pos := h]))
  {
    hide SameUsdc, SameStates, SamePositions, SameTaken;
  }

  lemma StateSame(o: nat, u: World, w: World, pos: PositionId, s: AdapterState)
    requires SameAccounts(o, u, w)
    ensures SameAccounts(o, u.(states := u.states[pos := s]), w.(states := w.states[pos := s]))
  {
    hide SameUsdc, SameHoldings, SamePositions, SameTaken;
  }

  lemma InitializeSame(o: nat, u: World, w: World, tx: Transaction, pos: PositionId, market: nat, cpis: seq<Cpi>)
    requires pos.owner == o && SameAccounts(o, u, w) && u.ret == w.ret
    requires var h := Holding(market, 0);
      var (ru, rw) := (InvokeAll(u.(holdings := u.holdings[pos := h]), pos, true, cpis, AdapterSpec.InitializeCalls(pos.program)),
                       InvokeAll(w.(holdings := w.holdings[pos := h]), pos, true, cpis, AdapterSpec.InitializeCalls(pos.program)));
      ru.Ok? <==> rw.Ok?
    ensures SameResult(o, AdapterSpec.Initialize(u, tx, pos, market, [], cpis), AdapterSpec.Initialize(w, tx, pos, market, [], cpis))
  {
    hide SameAccounts, InvokeAll, AdapterInterface.CalledByDispatcher;
    var h := Holding(market, 0);
    var u0, w0 := u.(holdings := u.holdings[pos := h]), w.(holdings := w.holdings[pos := h]);
    HoldingSame(o, u, w, pos, h);
    SameAt(o, u, w, pos);
    if pos in w.states || AdapterSpec.ShareAccountExists(w, pos, market) { return; }
    var n := AdapterSpec.InitializeCalls(pos.program);
    var ru, rw := InvokeAll(u0, pos, true, cpis, n), InvokeAll(w0, pos, true, cpis, n);
    if rw.Err? { return; }
    InvokeAllSame(o, u0, w0, pos, true, cpis, n);
    if pos.program.IsReference() { StateSame(o, ru.value, rw.value, pos, AdapterState(pos, pos.program, 0)); }
  }

  lemma OpenedSame(o: nat, u: World, w: World, a: Action)
    requires a.OpenPosition? && a.owner == o && SameAccounts(o, u, w)
    ensures SameAccounts(o, Opened(u, a), Opened(w, a))
    ensures var pos := PositionId(a.owner, a.program);
      && (pos in u.positions <==> pos in w.positions)
      && (Pool(pos) in u.usdc <==> Pool(pos) in w.usdc)
  {
    assert Mine(o, Pool(PositionId(a.owner, a.program)));
  }

  lemma HandleOpenSame(o: nat, u: World, w: World, a: Action)
    requires a.OpenPosition? && a.owner == o && SameAccounts(o, u, w) && u.ret == w.ret
    requires VerdictOn(u, a, o) == VerdictOn(w, a, o)
    ensures SameOutcome(o, Handle(u, a), Handle(w, a))
  {
    hide AdapterSpec.Initialize, InvokeAll, SameStates, SameHoldings, SamePositions, SameUsdc;
    var pos := PositionId(a.owner, a.program);
    OpenedSame(o, u, w, a);
    InitializeSame(o, Opened(u, a), Opened(w, a), a.tx, pos, a.market, a.cpis);
    hide VerdictOn;
  }

  lemma TransfersSame(o: nat, u: map<UsdcAccount, nat>, w: map<UsdcAccount, nat>, from: UsdcAccount, to: UsdcAccount, amount: nat)
    requires SameUsdc(o, u, w) && Transfer(u, from, to, amount).Ok? && Transfer(w, from, to, amount).Ok?
    ensures SameUsdc(o, Transfer(u, from, to, amount).value, Transfer(w, from, to, amount).value)
  {}

  lemma SharesMovedSame(o: nat, u: World, w: World, pos: PositionId, held: U128)
    requires SameAccounts(o, u, w) && pos in u.holdings && pos in w.holdings
    ensures SameAccounts(o, u.(holdings := u.holdings[pos := u.holdings[pos].(amount := held)]),
                            w.(holdings := w.holdings[pos := w.holdings[pos].(amount := held)]))
  {
    hide SameUsdc, SameStates, SamePositions, SameTaken;
  }

  lemma AccountTakenSame(o: nat, u: World, w: World, s: ShareAccount)
    requires SameAccounts(o, u, w)
    ensures SameAccounts(o, u.(taken := u.taken + {s}), w.(taken := w.taken + {s}))
  {
    hide SameUsdc, SameStates, SameHoldings, SamePositions;
  }

  lemma AccountCreatedSame(o: nat, u: map<UsdcAccount, nat>, w: map<UsdcAccount, nat>, account: UsdcAccount)
    requires SameUsdc(o, u, w)
    ensures SameUsdc(o, u[account := 0], w[account := 0])
  {}

  lemma OwnAccountSame(o: nat, u: map<UsdcAccount, nat>, w: map<UsdcAccount, nat>, account: UsdcAccount)
    requires SameUsdc(o, u, w) && Mine(o, account)
    ensures account in u <==> account in w
  {}

  /** A step that reaches the owner's accounts goes through in both or in neither. */
  lemma TouchedAgrees(o: nat, u: World, w: World, a: Action)
    requires Environment(a) && Touches(a, o) && SameAccounts(o, u, w)
    requires VerdictOn(u, a, o) == VerdictOn(w, a, o)
    ensures Handle(u, a).Ok? <==> Handle(w, a).Ok?
    ensures Handle(w, a).Ok? ==> Handle(w, a).value.1 == 0 && Handle(u, a).value.1 == 0
  {
    hide SameAccounts, SameUsdc, Transfer;
    SameUsdcOf(o, u, w);
    match a
    case CreateTokenAccount(account) => OwnAccountSame(o, u.usdc, w.usdc, account);
    case MoveUsdc(from, to, quantity) =>
      if Mine(o, from) && Mine(o, to) { TransferSame(o, u.usdc, w.usdc, from, to, quantity); }
    case MoveShares(pos, _) => SameAt(o, u, w, pos);
    case CreateShareAccount(pos, _) => SameAt(o, u, w, pos);
  }

  lemma EnvironmentSame(o: nat, u: World, w: World, a: Action)
    requires Environment(a) && Touches(a, o) && SameAccounts(o, u, w)
    requires VerdictOn(u, a, o) == VerdictOn(w, a, o)
    ensures SameOutcome(o, Handle(u, a), Handle(w, a))
  {
    TouchedAgrees(o, u, w, a);
    hide Handle, VerdictOn, SameAccounts, SameUsdc, Transfer;
    if Handle(w, a).Ok? {
      EnvironmentSteps(u, a);
      EnvironmentSteps(w, a);
      hide SameTables;
      SameUsdcOf(o, u, w);
      var u1, w1 := Handle(u, a).value.0, Handle(w, a).value.0;
      match a
      case CreateTokenAccount(account) =>
        AccountCreatedSame(o, u.usdc, w.usdc, account);
        SettledSame(o, u, w, u1, w1);
      case MoveUsdc(from, to, quantity) =>
        TransfersSame(o, u.usdc, w.usdc, from, to, quantity);
        SettledSame(o, u, w, u1, w1);
      case MoveShares(pos, held) => SharesMovedSame(o, u, w, pos, held);
      case CreateShareAccount(pos, market) => AccountTakenSame(o, u, w, ShareAccount(pos, market));
    }
  }

  lemma GovernedSame(o: nat, u: World, w: World, u1: World, w1: World)
    requires SameAccounts(o, u, w) && u1.registry == w1.registry && u1.entries == w1.entries
    requires u1 == u.(registry := u1.registry, entries := u1.entries, log := u1.log)
    requires w1 == w.(registry := w1.registry, entries := w1.entries, log := w1.log)
    ensures SameAccounts(o, u1, w1)
  {}

  lemma WhitelistSame(o: nat, u: World, w: World, signer: nat, program: Program, name: seq<Byte>, version: nat, executable: bool)
    requires SameAccounts(o, u, w)
    ensures SameOutcome(o, HandleWhitelistAdapter(u, signer, program, name, version, executable),
                        HandleWhitelistAdapter(w, signer, program, name, version, executable))
  {
    hide SameAccounts;
    var ru, rw := HandleWhitelistAdapter(u, signer, program, name, version, executable),
                  HandleWhitelistAdapter(w, signer, program, name, version, executable);
    SameRegistry(o, u, w);
    if rw.Ok? { GovernedSame(o, u, w, ru.value.0, rw.value.0); }
  }

  lemma PauseSame(o: nat, u: World, w: World, signer: nat, program: Program, paused: bool)
    requires SameAccounts(o, u, w)
    ensures SameOutcome(o, HandlePauseAdapter(u, signer, program, paused), HandlePauseAdapter(w, signer, program, paused))
  {
    hide SameAccounts;
    var ru, rw := HandlePauseAdapter(u, signer, program, paused), HandlePauseAdapter(w, signer, program, paused);
    SameRegistry(o, u, w);
    if rw.Ok? { GovernedSame(o, u, w, ru.value.0, rw.value.0); }
  }

  lemma GovernanceSame(o: nat, u: World, w: World, a: Action)
    requires !a.Routed() && !Environment(a) && SameAccounts(o, u, w)
    ensures SameOutcome(o, Handle(u, a), Handle(w, a))
  {
    hide HandleWhitelistAdapter, HandlePauseAdapter, SameOutcome;
    match a
    case InitializeRegistry(signer) => InitializeRegistrySame(o, u, w, signer);
    case WhitelistAdapter(signer, program, name, version, executable) =>
      WhitelistSame(o, u, w, signer, program, name, version, executable);
    case PauseAdapter(signer, program, paused) => PauseSame(o, u, w, signer, program, paused);
  }

  lemma InitializeRegistrySame(o: nat, u: World, w: World, signer: nat)
    requires SameAccounts(o, u, w)
    ensures SameOutcome(o, HandleInitializeRegistry(u, signer), HandleInitializeRegistry(w, signer))
  {
    hide SameUsdc, SameStates, SameHoldings, SamePositions, SameTaken;
  }

  lemma HandledSame(o: nat, u: World, w: World, a: Action)
    requires !ByOther(a, o) && SameAccounts(o, u, w) && u.ret == w.ret && VerdictOn(u, a, o) == VerdictOn(w, a, o)
    requires Environment(a) ==> Touches(a, o)
    ensures SameOutcome(o, Handle(u, a), Handle(w, a))
  {
    hide SameAccounts, VerdictOn, Handle, SameOutcome;
    if a.OpenPosition? { HandleOpenSame(o, u, w, a); }
    else if a.Deposit? { HandleDepositSame(o, u, w, a); }
    else if a.Withdraw? { HandleWithdrawSame(o, u, w, a); }
    else if a.CurrentValue? { HandleValueSame(o, u, w, a); }
    else if Environment(a) { EnvironmentSame(o, u, w, a); }
    else { GovernanceSame(o, u, w, a); }
  }

  /** An action that is not another owner's keeps the agreement on the owner's part, given the verdict
      on it. */
  lemma KeptStep(o: nat, u: World, w: World, a: Action)
    requires !ByOther(a, o) && SameFor(o, u, w) && u.ret == w.ret && VerdictOn(u, a, o) == VerdictOn(w, a, o)
    ensures SameFor(o, Step(u, a), Step(w, a))
  {
    hide SameAccounts, VerdictOn, Handle;
    if Environment(a) && !Touches(a, o) {
      UntouchedStep(o, u, a);
      UntouchedStep(o, w, a);
      SameSquare(o, u, w, Step(u, a), Step(w, a));
    } else {
      HandledSame(o, u, w, a);
      LogGrowth(u, a);
      LogGrowth(w, a);
      if Handle(w, a).Ok? {
        OwnLogConcat(u.log, EventsOf(a, Handle(w, a).value.1), o);
        OwnLogConcat(w.log, EventsOf(a, Handle(w, a).value.1), o);
        SameIgnores(o, Handle(u, a).value.0, Handle(w, a).value.0);
      }
    }
  }

  lemma SameSquare(o: nat, u: World, w: World, u1: World, w1: World)
    requires SameFor(o, u, w) && SameFor(o, u1, u) && SameFor(o, w1, w)
    ensures SameFor(o, u1, w1)
  {}

  lemma SameIgnores(o: nat, u: World, w: World)
    requires SameAccounts(o, u, w)
    ensures SameAccounts(o, u.(ret := None), w.(ret := None))
  {}

  // ----- whole runs -----

  function WithoutOthers(actions: seq<Action>, o: nat): seq<Action> {
    if actions == [] then []
    else (if ByOther(actions[0], o) then [] else [actions[0]]) + WithoutOthers(actions[1..], o)
  }

  /** The verdicts met along a run by the actions that are not another owner's. */
  function Verdicts(w: World, actions: seq<Action>, o: nat): seq<Verdict>
    decreases |actions|
  {
    if actions == [] then []
    else (if ByOther(actions[0], o) then [] else [VerdictOn(w, actions[0], o)]) + Verdicts(Step(w, actions[0]), actions[1..], o)
  }

  lemma {:induction false} Follow(o: nat, u: World, w: World, actions: seq<Action>)
    requires SameFor(o, u, w) && u.ret.None? && w.ret.None?
    requires Verdicts(w, actions, o) == Verdicts(u, WithoutOthers(actions, o), o)
    ensures SameFor(o, Run(u, WithoutOthers(actions, o)), Run(w, actions))
    decreases |actions|
  {
    if actions != [] {
      var a, rest := actions[0], actions[1..];
      if ByOther(a, o) {
        hide Handle;
        OthersStep(o, w, a);
        assert WithoutOthers(actions, o) == WithoutOthers(rest, o);
        SameForChain(o, u, w, Step(w, a));
        Follow(o, u, Step(w, a), rest);
      } else {
        hide Handle, VerdictOn;
        var kept := WithoutOthers(actions, o);
        assert kept[0] == a && kept[1..] == WithoutOthers(rest, o);
        assert Verdicts(w, actions, o)[0] == VerdictOn(w, a, o);
        assert Verdicts(u, kept, o)[0] == VerdictOn(u, a, o);
        assert Verdicts(w, actions, o)[1..] == Verdicts(Step(w, a), rest, o);
        assert Verdicts(u, kept, o)[1..] == Verdicts(Step(u, a), kept[1..], o);
        KeptStep(o, u, w, a);
        Follow(o, Step(u, a), Step(w, a), rest);
      }
    }
  }

  lemma SameForChain(o: nat, u: World, w: World, w1: World)
    requires SameFor(o, u, w) && SameFor(o, w1, w)
    ensures SameFor(o, u, w1)
  {}

  /** Deleting every instruction of all other owners from a run leaves an owner's registry view, positions,
      adapter states, share accounts, pools, wallets and events as they were, provided the protocols
      answer the owner's own calls as before and the same transfers between the owner and others succeed.
      What becomes of others' own accounts, and of steps on them that now fail, does not matter. */
  lemma OthersDoNotMatter(w: World, actions: seq<Action>, o: nat)
    requires w.ret.None?
    requires Verdicts(w, actions, o) == Verdicts(w, WithoutOthers(actions, o), o)
    ensures SameFor(o, Run(w, WithoutOthers(actions, o)), Run(w, actions))
  {
    Follow(o, w, w, actions);
  }
}
