/** Exactly when the routed instructions succeed on this repository's adapters, in terms of the accounts, the
    transaction and the calls themselves. */
module Enabled {
  import opened Machine
  import opened Arithmetic
  import opened Accounts
  import opened Protocol
  import opened DispatcherSpec
  import opened Effects
  import opened Inversion
  import opened Governance
  import opened ReturnChannel
  import opened Conservation
  import opened Solvency
  import opened ProtocolCalls
  import Pricing
  import AdapterInterface
  import AdapterSpec

  /** The owner's own USDC account, present on the ledger. */
  predicate OwnWallet(w: World, a: Action)
    requires a.Deposit? || a.Withdraw?
  {
    a.wallet in w.usdc && a.wallet.Wallet? && a.wallet.owner == a.owner
  }

  predicate ActivePosition(w: World, pos: PositionId) {
    pos in w.positions && pos.program in w.entries && w.entries[pos.program].isActive
  }

  // ----- the executing instruction -----

  /** A routed instruction on a reference adapter looks at the executing top-level instruction only: with the
      dispatcher there it goes as it would alone in its transaction, whatever comes before and after; with
      anything else there it fails. */
  lemma ExecutingInstructionDecides(w: World, a: Action, pre: seq<Program>, q: Program, post: seq<Program>)
    requires a.Routed() && a.program.IsReference()
    requires a.tx == Transaction(pre + [q] + post, |pre|)
    ensures if q == Dispatcher then Handle(w, a) == Handle(w, a.(tx := Transaction([Dispatcher], 0))) else Handle(w, a).Err?
  {
    AdapterInterface.ExecutingInstructionDecides(pre, q, post);
    if q == Dispatcher {
      SameForAdapters(w, a, Transaction([Dispatcher], 0));
    } else {
      NotComposable(w, a);
    }
  }

  lemma SameForAdapters(w: World, a: Action, tx: Transaction)
    requires a.Routed() && a.program.IsReference()
    requires AdapterInterface.CalledByDispatcher(a.tx) && AdapterInterface.CalledByDispatcher(tx)
    ensures Handle(w, a) == Handle(w, a.(tx := tx))
  {
    var pos := PositionId(a.owner, a.program);
    match a
    case OpenPosition(_, _, _, market, cpis) =>
      assert AdapterSpec.Initialize(Opened(w, a), a.tx, pos, market, [], cpis) == AdapterSpec.Initialize(Opened(w, a), tx, pos, market, [], cpis)
        by { hide InvokeAll; }
      hide AdapterSpec.Initialize;
    case Deposit(_, _, _, _, amount, cpis) =>
      assert AdapterSpec.Deposit(Funded(w, a), a.tx, pos, amount, [], cpis) == AdapterSpec.Deposit(Funded(w, a), tx, pos, amount, [], cpis)
        by { hide InvokeAll; }
      hide AdapterSpec.Deposit;
    case Withdraw(_, _, _, _, shares, cpis) =>
      assert AdapterSpec.Withdraw(w, a.tx, pos, shares, [], cpis) == AdapterSpec.Withdraw(w, tx, pos, shares, [], cpis)
        by { hide InvokeAll; }
      hide AdapterSpec.Withdraw;
    case CurrentValue(_, _, _, vaultBalance, cpis) =>
      assert AdapterSpec.CurrentValue(w, a.tx, pos, [], vaultBalance, cpis) == AdapterSpec.CurrentValue(w, tx, pos, [], vaultBalance, cpis)
        by { hide InvokeAll; }
      hide AdapterSpec.CurrentValue;
  }

  // ----- withdraw -----

  ghost predicate WithdrawEnabled(w: World, a: Action)
    requires a.Withdraw?
  {
    var pos := PositionId(a.owner, a.program);
    && ActivePosition(w, pos) && OwnWallet(w, a) && a.shares > 0
    && a.tx.current < |a.tx.programs| && a.tx.programs[a.tx.current] == Dispatcher
    && pos in w.states && (a.program.MarginFi? || a.shares <= w.states[pos].totalShares)
    && var r := RedemptionCalls(w, pos, a.cpis);
    && r.Ok? && Balance(r.value, pos) >= Balance(w, pos)
  }

  lemma AdapterWithdrawIff(w: World, tx: Transaction, pos: PositionId, shares: U64, data: seq<Byte>, cpis: seq<Cpi>)
    requires pos.program.IsReference() && pos in w.states && Pool(pos) in w.usdc && Sum(w.usdc) < TWO64
    ensures var r := RedemptionCalls(w, pos, cpis);
      AdapterSpec.Withdraw(w, tx, pos, shares, data, cpis).Ok? <==>
        && shares > 0 && |data| <= 256 && tx.current < |tx.programs| && tx.programs[tx.current] == Dispatcher
        && (pos.program.MarginFi? || shares <= w.states[pos].totalShares)
        && r.Ok? && Balance(r.value, pos) >= Balance(w, pos)
  {
    var n := AdapterSpec.WithdrawCalls(pos.program);
    CallsAre(w, pos, cpis);
    if RedemptionCalls(w, pos, cpis).Ok? {
      var w1 := RedemptionCalls(w, pos, cpis).value;
      InvokeAllEffect(w, pos, true, cpis, n);
      ProtocolConserves(w, w1, pos);
      SumAtLeast(w1.usdc, Pool(pos));
    }
    hide InvokeAll, RedemptionCalls;
  }

  lemma PayoutFits(w: World, w1: World, pos: PositionId, wallet: UsdcAccount, v: nat)
    requires Sum(w1.usdc) < TWO64 && wallet.Wallet? && wallet in w1.usdc && Pool(pos) in w1.usdc
    requires v == w1.usdc[Pool(pos)] - Balance(w, pos)
    ensures Transfer(w1.usdc, Pool(pos), wallet, v).Ok?
  {
    TransferConserves(w1.usdc, Pool(pos), wallet, v);
  }

  function Balance(w: World, pos: PositionId): nat {
    if Pool(pos) in w.usdc then w.usdc[Pool(pos)] else 0
  }

  /** The dispatcher's part of a withdrawal adds no reason to fail. */
  lemma HandleWithdrawOk(w: World, a: Action)
    requires a.Withdraw? && a.program.IsReference() && RegistryInv(w) && Sum(w.usdc) < TWO64
    requires var pos := PositionId(a.owner, a.program);
      && ActivePosition(w, pos) && OwnWallet(w, a) && a.shares > 0
      && AdapterSpec.Withdraw(w, a.tx, pos, a.shares, [], a.cpis).Ok?
    ensures Handle(w, a).Ok?
  {
    hide AdapterSpec.Withdraw, AdapterInterface.GetU64Return, AdapterInterface.U64Return, Transfer, OnlyProtocol;
    var pos := PositionId(a.owner, a.program);
    var w1 := AdapterSpec.Withdraw(w, a.tx, pos, a.shares, [], a.cpis).value;
    AdapterWithdrawBooks(w, a.tx, pos, a.shares, a.cpis);
    var v := w1.usdc[Pool(pos)] - w.usdc[Pool(pos)];
    AdapterInterface.ReadBackIff(w1.ret, a.program, v);
    WithdrawEffect(w, a.tx, pos, a.shares, [], a.cpis);
    ProtocolConserves(w, w1.(states := w.states, log := w.log), pos);
    assert w1.usdc.Keys == w.usdc.Keys by { EffectKeys(w, w1, pos); }
    PayoutFits(w, w1, pos, a.wallet, v);
    assert FundMovement(w, pos, a.owner, a.wallet).Ok? && SameVersion(w, a.program).Ok?;
    assert RoutedValue(AdapterSpec.Withdraw(w, a.tx, pos, a.shares, [], a.cpis), a.program) == Ok((w1, v));
  }

  lemma EffectKeys(w: World, w1: World, pos: PositionId)
    requires AdapterEffect(w, w1, pos)
    ensures w1.usdc.Keys == w.usdc.Keys
  {}

  lemma WithdrawNeeds(w: World, a: Action)
    requires a.Withdraw? && a.program.IsReference() && RegistryInv(w) && Sum(w.usdc) < TWO64
    requires Handle(w, a).Ok?
    ensures WithdrawEnabled(w, a)
  {
    hide Handle, InvokeAll, Transfer, RegistryInv, RedemptionCalls;
    var pos := PositionId(a.owner, a.program);
    WithdrawSteps(w, a);
    hide AdapterSpec.Withdraw, AdapterEffect, SameTables;
    AdapterWithdrawBooks(w, a.tx, pos, a.shares, a.cpis);
    OwnWalletNeeded(w, a);
    AdapterWithdrawIff(w, a.tx, pos, a.shares, [], a.cpis);
  }

  /** A withdrawal succeeds exactly when the position is open and its adapter active, the owner names
      an own account, the shares are covered, and the protocol's calls succeed without taking USDC. */
  lemma WithdrawSucceedsIff(w: World, a: Action)
    requires a.Withdraw? && a.program.IsReference() && RegistryInv(w) && Sum(w.usdc) < TWO64
    ensures Handle(w, a).Ok? <==> WithdrawEnabled(w, a)
  {
    if WithdrawEnabled(w, a) {
      var pos := PositionId(a.owner, a.program);
      assert Pool(pos) in w.usdc;
      hide AdapterSpec.Withdraw, Handle, InvokeAll, RegistryInv, RedemptionCalls;
      AdapterWithdrawIff(w, a.tx, pos, a.shares, [], a.cpis);
      HandleWithdrawOk(w, a);
    } else {
      hide Handle, WithdrawEnabled;
      if Handle(w, a).Ok? { WithdrawNeeds(w, a); }
    }
  }

  lemma OwnWalletNeeded(w: World, a: Action)
    requires (a.Withdraw? || a.Deposit?) && Handle(w, a).Ok?
    ensures OwnWallet(w, a)
  {
    hide AdapterSpec.Withdraw, AdapterSpec.Deposit, Transfer, AdapterInterface.GetU64Return;
  }

  /** Exit is always open: from every reachable state, as long as the adapter is active and the protocol
      honours the redemption, withdrawing all booked shares succeeds and leaves none. */
  lemma ExitAlwaysOpen(w: World, actions: seq<Action>, a: Action)
    requires Initial(w) && Sum(w.usdc) < TWO64
    requires a.Withdraw? && a.program.IsReference() && a.tx.current < |a.tx.programs| && a.tx.programs[a.tx.current] == Dispatcher
    requires var w', pos := Run(w, actions), PositionId(a.owner, a.program);
      && pos in w'.states && w'.states[pos].totalShares == a.shares > 0
      && a.program in w'.entries && w'.entries[a.program].isActive
      && OwnWallet(w', a)
      && var r := RedemptionCalls(w', pos, a.cpis);
      && r.Ok? && Balance(r.value, pos) >= Balance(w', pos)
    ensures var w', pos := Run(w, actions), PositionId(a.owner, a.program);
      && Handle(w', a).Ok?
      && pos in Step(w', a).states && Step(w', a).states[pos].totalShares == 0
  {
    hide Handle, Initial;
    InitialRegistry(w);
    RunRegistry(w, actions);
    RunConserves(w, actions);
    hide Run, InvokeAll, RedemptionCalls;
    WithdrawSucceedsIff(Run(w, actions), a);
    WithdrawReturns(Run(w, actions), a);
  }

  // ----- deposit -----

  /** What the adapter books fits a u64: MarginFi the principal, the others a change that took nothing. */
  predicate BookingFits(program: Program, booked: U64, amount: U64, before: U128, after: U128) {
    if program.MarginFi? then booked + amount < TWO64
    else before <= after && booked + (after - before) < TWO64
  }

  /** With no more booked than held, a token account's own width leaves no room for an overflow. */
  lemma TokensAlwaysFit(program: Program, booked: U64, amount: U64, before: U128, after: U128)
    requires HoldsTokens(program) && booked <= before && after < ShareCap(program)
    ensures BookingFits(program, booked, amount, before, after) <==> before <= after
  {}

  lemma AdapterDepositIff(w: World, tx: Transaction, pos: PositionId, amount: U64, data: seq<Byte>, cpis: seq<Cpi>)
    requires pos.program.IsReference() && pos in w.states && pos in w.holdings
    ensures var r := ProtocolCalls.DepositCalls(w, pos, cpis);
      AdapterSpec.Deposit(w, tx, pos, amount, data, cpis).Ok? <==>
        && amount > 0 && |data| <= 256 && tx.current < |tx.programs| && tx.programs[tx.current] == Dispatcher
        && r.Ok? && pos in r.value.holdings
        && BookingFits(pos.program, w.states[pos].totalShares, amount, w.holdings[pos].amount, r.value.holdings[pos].amount)
  {
    var n := AdapterSpec.DepositCalls(pos.program);
    CallsAre(w, pos, cpis);
    if ProtocolCalls.DepositCalls(w, pos, cpis).Ok? { InvokeAllKeeps(w, pos, true, cpis, n); }
    hide InvokeAll, ProtocolCalls.DepositCalls;
  }

  /** A deposit succeeds exactly when the position is open and its adapter active, the owner's account
      covers a positive amount, the protocol's calls succeed without taking shares, and the new total
      fits a u64. */
  lemma DepositSucceedsIff(w: World, a: Action)
    requires a.Deposit? && a.program.IsReference() && RegistryInv(w) && Sum(w.usdc) < TWO64
    ensures var pos, w0 := PositionId(a.owner, a.program), Funded(w, a);
      Handle(w, a).Ok? <==>
        && ActivePosition(w, pos) && OwnWallet(w, a) && 0 < a.amount <= w.usdc[a.wallet]
        && a.tx.current < |a.tx.programs| && a.tx.programs[a.tx.current] == Dispatcher
        && var r := ProtocolCalls.DepositCalls(w0, pos, a.cpis);
        && r.Ok? && pos in r.value.holdings && pos in w.states && pos in w.holdings
        && BookingFits(a.program, w.states[pos].totalShares, a.amount, w.holdings[pos].amount, r.value.holdings[pos].amount)
  {
    hide AdapterSpec.Deposit, Handle, InvokeAll, ProtocolCalls.DepositCalls;
    var pos, w0 := PositionId(a.owner, a.program), Funded(w, a);
    if Handle(w, a).Ok? {
      DepositSteps(w, a);
      OwnWalletNeeded(w, a);
    }
    if ActivePosition(w, pos) && OwnWallet(w, a) && a.amount <= w.usdc[a.wallet] {
      TransferConserves(w.usdc, a.wallet, Pool(pos), a.amount);
      AdapterDepositIff(w0, a.tx, pos, a.amount, [], a.cpis);
      if AdapterSpec.Deposit(w0, a.tx, pos, a.amount, [], a.cpis).Ok? && a.amount > 0 { HandleDepositOk(w, a); }
    }
  }

  lemma HandleDepositOk(w: World, a: Action)
    requires a.Deposit? && a.program.IsReference() && RegistryInv(w)
    requires var pos := PositionId(a.owner, a.program);
      && ActivePosition(w, pos) && OwnWallet(w, a) && a.amount > 0
      && Transfer(w.usdc, a.wallet, Pool(pos), a.amount).Ok?
      && AdapterSpec.Deposit(Funded(w, a), a.tx, pos, a.amount, [], a.cpis).Ok?
    ensures Handle(w, a).Ok?
  {
    hide AdapterSpec.Deposit, AdapterInterface.GetU64Return, AdapterInterface.U64Return, Transfer;
    var pos, w0 := PositionId(a.owner, a.program), Funded(w, a);
    var r := AdapterSpec.Deposit(w0, a.tx, pos, a.amount, [], a.cpis);
    AdapterDepositBooks(w0, a.tx, pos, a.amount, a.cpis);
    var minted := AdapterSpec.SharesMinted(a.program, a.amount, w0.holdings[pos].amount, r.value.holdings[pos].amount).value;
    AdapterInterface.ReadBackIff(r.value.ret, a.program, minted);
    assert FundMovement(w, pos, a.owner, a.wallet).Ok? && SameVersion(w, a.program).Ok?;
    assert RoutedValue(r, a.program) == Ok((r.value, minted));
  }

  // ----- value -----

  /** A value read succeeds exactly when the position is open and its adapter active, the transaction's
      own instruction is the dispatcher's, Kamino's refresh succeeds, and what is then booked and held can be
      priced. */
  lemma ValueSucceedsIff(w: World, a: Action)
    requires a.CurrentValue? && a.program.IsReference() && RegistryInv(w) && Widths(w)
    ensures var pos := PositionId(a.owner, a.program);
      var r := ReadCalls(w, pos, a.cpis);
      Handle(w, a).Ok? <==>
        && ActivePosition(w, pos) && a.tx.current < |a.tx.programs| && a.tx.programs[a.tx.current] == Dispatcher
        && r.Ok? && pos in r.value.states && pos in r.value.holdings && MarketOf(r.value, pos) in r.value.markets
        && Pricing.Priceable(a.program, r.value.states[pos].totalShares, r.value.holdings[pos].amount,
                             r.value.markets[MarketOf(r.value, pos)], a.vaultBalance)
  {
    var pos := PositionId(a.owner, a.program);
    CallsAre(w, pos, a.cpis);
    ValueHandledIff(w, a);
    hide Handle;
    var r := ReadCalls(w, pos, a.cpis);
    if r.Ok? {
      InvokeAllEffect(w, pos, false, a.cpis, AdapterSpec.ValueCalls(a.program));
      ProtocolWidths(w, r.value, pos);
      if pos in r.value.states && pos in r.value.holdings && MarketOf(r.value, pos) in r.value.markets {
        Pricing.ValueIs(r.value, pos, a.vaultBalance);
      }
    }
    hide InvokeAll, ReadCalls, Pricing.Priceable, Pricing.Price, OnlyProtocol, RegistryInv;
  }

  lemma AdapterValueIff(w: World, tx: Transaction, pos: PositionId, data: seq<Byte>, vaultBalance: U64, cpis: seq<Cpi>)
    requires pos.program.IsReference() && pos in w.states
    ensures var r := ReadCalls(w, pos, cpis);
      AdapterSpec.CurrentValue(w, tx, pos, data, vaultBalance, cpis).Ok? <==>
        && |data| <= 256 && tx.current < |tx.programs| && tx.programs[tx.current] == Dispatcher
        && r.Ok? && AdapterSpec.ValueOf(r.value, pos, vaultBalance).Ok?
  {
    CallsAre(w, pos, cpis);
    hide InvokeAll, ReadCalls, AdapterSpec.ValueOf;
  }

  lemma ValueHandledIff(w: World, a: Action)
    requires a.CurrentValue? && a.program.IsReference() && RegistryInv(w)
    ensures var pos := PositionId(a.owner, a.program);
      var r := InvokeAll(w, pos, false, a.cpis, AdapterSpec.ValueCalls(a.program));
      Handle(w, a).Ok? <==>
        && ActivePosition(w, pos) && a.tx.current < |a.tx.programs| && a.tx.programs[a.tx.current] == Dispatcher
        && r.Ok? && AdapterSpec.ValueOf(r.value, pos, a.vaultBalance).Ok?
  {
    hide InvokeAll, AdapterSpec.ValueOf, AdapterInterface.GetU64Return, AdapterInterface.U64Return;
    var pos := PositionId(a.owner, a.program);
    var r := AdapterSpec.CurrentValue(w, a.tx, pos, [], a.vaultBalance, a.cpis);
    if r.Ok? {
      AdapterValueBooks(w, a.tx, pos, a.vaultBalance, a.cpis);
      ReadsBack(r.value, pos, a.vaultBalance);
    }
  }

  /** The number a value read returns is the price of what is booked and held, in the market record that
      Kamino's refresh has just left or, for the others, that is there. */
  lemma ValueIsPrice(w: World, a: Action)
    requires a.CurrentValue? && a.program.IsReference() && Widths(w) && Handle(w, a).Ok?
    ensures var pos := PositionId(a.owner, a.program);
      && pos in w.states && pos in w.holdings && MarketOf(w, pos) in w.markets
      && (a.program.Kamino? ==> |a.cpis| >= 1 && a.cpis[0].CpiDone?)
      && var m := if a.program.Kamino? then Market(a.cpis[0].supply, a.cpis[0].prices) else w.markets[MarketOf(w, pos)];
      Pricing.Price(a.program, w.states[pos].totalShares, w.holdings[pos].amount, m, a.vaultBalance, Handle(w, a).value.1)
  {
    var pos, w' := PositionId(a.owner, a.program), Handle(w, a).value.0;
    ValueReturns(w, a);
    ValueSteps(w, a);
    hide Handle, Pricing.Price, Pricing.Priceable, AdapterEffect, SameTables;
    var r := AdapterSpec.CurrentValue(w, a.tx, pos, [], a.vaultBalance, a.cpis);
    ReadLeaves(w, a.tx, pos, a.vaultBalance, a.cpis);
    Pricing.ValueIs(r.value, pos, a.vaultBalance);
    ValueIgnores(r.value, w', pos, a.vaultBalance);
    hide AdapterSpec.CurrentValue, AdapterSpec.ValueOf;
  }

  /** What a value read finds after its calls. */
  lemma ReadLeaves(w: World, tx: Transaction, pos: PositionId, vaultBalance: U64, cpis: seq<Cpi>)
    requires pos.program.IsReference() && Widths(w) && AdapterSpec.CurrentValue(w, tx, pos, [], vaultBalance, cpis).Ok?
    ensures var w1 := AdapterSpec.CurrentValue(w, tx, pos, [], vaultBalance, cpis).value;
      && pos in w.states && pos in w.holdings && MarketOf(w, pos) in w.markets
      && w1.states == w.states && pos in w1.holdings && MarketOf(w1, pos) == MarketOf(w, pos) && MarketOf(w, pos) in w1.markets
      && w1.holdings[pos].amount < ShareCap(pos.program)
      && (if pos.program.Kamino? then
            && |cpis| >= 1 && cpis[0].CpiDone?
            && w1.markets[MarketOf(w, pos)] == Market(cpis[0].supply, cpis[0].prices)
          else w1 == w.(ret := w1.ret, log := w1.log))
  {
    CallsAre(w, pos, cpis);
    hide InvokeAll;
  }

  lemma ReadsBack(w1: World, pos: PositionId, vaultBalance: U64)
    requires var value := AdapterSpec.ValueOf(w1, pos, vaultBalance);
      value.Ok? && w1.ret == Some(AdapterInterface.U64Return(pos.program, value.value))
    ensures AdapterInterface.GetU64Return(w1.ret, pos.program).Some?
  {
    AdapterInterface.ReadBackIff(w1.ret, pos.program, AdapterSpec.ValueOf(w1, pos, vaultBalance).value);
  }

  // ----- open -----

  /** The accounts an adapter's own opening calls start from. */
  function WithEmptyHolding(w: World, pos: PositionId, market: nat): World {
    w.(holdings := w.holdings[pos := Holding(market, 0)])
  }

  /** Opening succeeds exactly when the adapter is active, the position and its pool do not exist yet nor,
      for Kamino, Jupiter and Maple, the position's account for the share token, the transaction's own
      instruction is the dispatcher's, and the adapter's opening calls succeed. */
  lemma OpenSucceedsIff(w: World, a: Action)
    requires a.OpenPosition? && a.program.IsReference() && RegistryInv(w)
    ensures var pos := PositionId(a.owner, a.program);
      Handle(w, a).Ok? <==>
        && a.program in w.entries && w.entries[a.program].isActive
        && pos !in w.positions && Pool(pos) !in w.usdc
        && (HoldsTokens(a.program) ==> ShareAccount(pos, a.market) !in w.taken)
        && a.tx.current < |a.tx.programs| && a.tx.programs[a.tx.current] == Dispatcher
        && OpeningCalls(WithEmptyHolding(Opened(w, a), pos, a.market), pos, a.cpis).Ok?
  {
    var pos := PositionId(a.owner, a.program);
    CallsAre(WithEmptyHolding(Opened(w, a), pos, a.market), pos, a.cpis);
    hide InvokeAll, OpeningCalls;
  }

  /** An adapter's initialize succeeds exactly when neither its state nor the share account exists, the data
      is short, the call comes from a top-level dispatcher instruction, and its opening calls succeed. */
  lemma AdapterInitializeIff(w: World, tx: Transaction, pos: PositionId, market: nat, data: seq<Byte>, cpis: seq<Cpi>)
    requires pos.program.IsReference()
    ensures AdapterSpec.Initialize(w, tx, pos, market, data, cpis).Ok? <==>
        && pos !in w.states && pos !in w.holdings
        && (HoldsTokens(pos.program) ==> ShareAccount(pos, market) !in w.taken)
        && |data| <= 256 && tx.current < |tx.programs| && tx.programs[tx.current] == Dispatcher
        && OpeningCalls(WithEmptyHolding(w, pos, market), pos, cpis).Ok?
  {
    CallsAre(WithEmptyHolding(w, pos, market), pos, cpis);
    hide InvokeAll, OpeningCalls;
  }

  /** Somebody else may create that account first, and then an open that would have succeeded fails. */
  lemma ShareAccountBlocksOpen(w: World, a: Action)
    requires a.OpenPosition? && HoldsTokens(a.program) && Handle(w, a).Ok?
    ensures var c := CreateShareAccount(PositionId(a.owner, a.program), a.market);
      Handle(w, c).Ok? && Handle(Step(w, c), a) == Err(DispatcherError.AdapterMismatch)
  {
    OpenSteps(w, a);
    hide InvokeAll, OnlyProtocol;
  }

  /** It is not idempotent: once a position has been opened, the adapter's own initialize for it fails in
      every later state, whoever calls it with whatever arguments. */
  lemma InitializesOnce(w: World, actions: seq<Action>, open: Action, later: seq<Action>,
                        tx: Transaction, market: nat, data: seq<Byte>, cpis: seq<Cpi>)
    requires Initial(w) && open.OpenPosition? && Handle(Run(w, actions), open).Ok?
    ensures var w' := Run(Step(Run(w, actions), open), later);
      AdapterSpec.Initialize(w', tx, PositionId(open.owner, open.program), market, data, cpis) == Err(AdapterError.AccountExists)
  {
    hide Handle, Run, Initial, InvokeAll;
    InitialRegistry(w);
    RunRegistry(w, actions);
    var w1 := Run(w, actions);
    OpenSteps(w1, open);
    StepRegistry(w1, open);
    RunRegistry(Step(w1, open), later);
  }
}
