/** What the positions of one market report together, against what stands behind them. */
module Solvency {
  import opened Machine
  import opened Arithmetic
  import opened Accounts
  import opened Protocol
  import opened DispatcherSpec
  import opened Effects
  import opened Inversion
  import opened Governance
  import opened ReturnChannel
  import PoolNeutrality
  import AdapterSpec
  import KlendCpi
  import MarginfiCpi
  import OrcaCpi
  import ProRata

  // ----- shares by market -----

  /** The share numbers read for the positions of one market. */
  ghost function HeldIn(holdings: map<PositionId, Holding>, id: MarketId): map<PositionId, nat> {
    map pos | pos in holdings && MarketId(pos.program, holdings[pos].market) == id :: holdings[pos].amount
  }

  /** The shares booked for them by the adapter. */
  ghost function BookedIn(w: World, id: MarketId): map<PositionId, nat> {
    map pos | pos in w.holdings && MarketOf(w, pos) == id :: if pos in w.states then w.states[pos].totalShares else 0
  }

  lemma HeldUpdate(holdings: map<PositionId, Holding>, pos: PositionId, amount: U128, id: MarketId)
    requires pos in holdings
    ensures var holdings1 := holdings[pos := Holding(holdings[pos].market, amount)];
      Sum(HeldIn(holdings1, id)) == Sum(HeldIn(holdings, id))
        + if MarketId(pos.program, holdings[pos].market) == id then amount - holdings[pos].amount else 0
  {
    var holdings1 := holdings[pos := Holding(holdings[pos].market, amount)];
    if MarketId(pos.program, holdings[pos].market) == id {
      SumUpdate(HeldIn(holdings, id), pos, amount);
      assert HeldIn(holdings1, id) == HeldIn(holdings, id)[pos := amount];
    } else {
      assert HeldIn(holdings1, id) == HeldIn(holdings, id);
    }
  }

  lemma HeldAdded(holdings: map<PositionId, Holding>, pos: PositionId, market: nat, id: MarketId)
    requires pos !in holdings
    ensures Sum(HeldIn(holdings[pos := Holding(market, 0)], id)) == Sum(HeldIn(holdings, id))
  {
    var holdings1 := holdings[pos := Holding(market, 0)];
    if MarketId(pos.program, market) == id {
      SumUpdate(HeldIn(holdings, id), pos, 0);
      assert HeldIn(holdings1, id) == HeldIn(holdings, id)[pos := 0];
    } else {
      assert HeldIn(holdings1, id) == HeldIn(holdings, id);
    }
  }

  // ----- widths -----

  /** Share numbers and recorded supplies fit the counters they are read from. */
  ghost predicate Widths(w: World) {
    && (forall pos | pos in w.holdings :: w.holdings[pos].amount < ShareCap(pos.program))
    && (forall id | id in w.markets :: w.markets[id].supply < ShareCap(id.program))
  }

  lemma ProtocolWidths(w: World, w1: World, pos: PositionId)
    requires OnlyProtocol(w, w1, pos) && Widths(w)
    ensures Widths(w1)
  {}

  lemma RoutedWidths(w: World, a: Action)
    requires Widths(w) && a.Routed() && Handle(w, a).Ok?
    ensures Widths(Handle(w, a).value.0)
  {
    hide Handle, AdapterSpec.Deposit, AdapterSpec.Withdraw, AdapterSpec.CurrentValue, OnlyProtocol;
    var pos, w' := PositionId(a.owner, a.program), Handle(w, a).value.0;
    match a
    case OpenPosition(_, _, _, market, _) =>
      OpenSteps(w, a);
      var w0 := Opened(w, a).(holdings := w.holdings[pos := Holding(market, 0)]);
      ProtocolWidths(w0, w'.(states := w.states, log := w.log), pos);
    case Deposit(tx, _, _, _, amount, cpis) =>
      DepositSteps(w, a);
      var w0 := Funded(w, a);
      ProtocolWidths(w0, AdapterSpec.Deposit(w0, tx, pos, amount, [], cpis).value.(states := w0.states, log := w0.log), pos);
    case Withdraw(tx, _, _, _, shares, cpis) =>
      WithdrawSteps(w, a);
      ProtocolWidths(w, AdapterSpec.Withdraw(w, tx, pos, shares, [], cpis).value.(states := w.states, log := w.log), pos);
    case CurrentValue(tx, _, _, vaultBalance, cpis) =>
      ValueSteps(w, a);
      ProtocolWidths(w, AdapterSpec.CurrentValue(w, tx, pos, [], vaultBalance, cpis).value.(states := w.states, log := w.log), pos);
  }

  lemma StepWidths(w: World, a: Action)
    requires Widths(w)
    ensures Widths(Step(w, a))
  {
    hide Handle;
    if Handle(w, a).Ok? {
      if a.Routed() { RoutedWidths(w, a); }
      else if Environment(a) { EnvironmentSteps(w, a); }
      else { GovernanceSteps(w, a); }
    }
  }

  // ----- recorded supply covers the shares read -----

  /** The hypothesis the pro-rata bounds need, and which no adapter checks. */
  ghost predicate SharesCovered(w: World, id: MarketId)
    requires id in w.markets
  {
    Sum(HeldIn(w.holdings, id)) <= w.markets[id].supply
  }

  ghost predicate Covered(w: World, id: MarketId) {
    id in w.markets ==> SharesCovered(w, id)
  }

  /** Recorded shares that no position holds. */
  ghost function Outside(w: World, id: MarketId): int
    requires id in w.markets
  {
    w.markets[id].supply - Sum(HeldIn(w.holdings, id))
  }

  /** The hypothesis step by step, for one market: a call for one of its positions mints recorded supply
      along with the shares, and others burn, or send to its positions, only shares that no position
      holds. */
  ghost predicate SupplyFollows(w: World, a: Action, id: MarketId) {
    Handle(w, a).Ok? ==>
      var w' := Handle(w, a).value.0;
      && (a.Routed() ==>
            var pos := PositionId(a.owner, a.program);
            pos in w'.holdings && MarketOf(w', pos) == id && id in w'.markets && id in w.markets ==>
              w'.holdings[pos].amount - (if pos in w.holdings then w.holdings[pos].amount else 0)
              <= w'.markets[id].supply - w.markets[id].supply)
      && (a.MoveMarket? && a.id == id ==>
            if id in w.markets then w.markets[id].supply - a.supply <= Outside(w, id)
            else Sum(HeldIn(w.holdings, id)) <= a.supply)
      && (a.MoveShares? && a.position in w.holdings && MarketOf(w, a.position) == id && id in w.markets ==>
            a.held - w.holdings[a.position].amount <= Outside(w, id))
  }

  ghost predicate RunSupplyFollows(w: World, actions: seq<Action>, id: MarketId)
    decreases |actions|
  {
    actions == [] || (SupplyFollows(w, actions[0], id) && RunSupplyFollows(Step(w, actions[0]), actions[1..], id))
  }

  lemma ProtocolCovered(w: World, w1: World, pos: PositionId, id: MarketId)
    requires OnlyProtocol(w, w1, pos) && Covered(w, id)
    requires pos in w.holdings && MarketOf(w, pos) == id && id in w.markets ==>
      w1.holdings[pos].amount - w.holdings[pos].amount <= w1.markets[id].supply - w.markets[id].supply
    ensures Covered(w1, id)
  {
    if pos in w.holdings { HeldUpdate(w.holdings, pos, w1.holdings[pos].amount, id); }
  }

  /** Only the market's record and the sum of what its positions hold matter. */
  lemma CoveredIgnores(w: World, w1: World, id: MarketId)
    requires Covered(w, id) && Sum(HeldIn(w1.holdings, id)) == Sum(HeldIn(w.holdings, id))
    requires id in w1.markets ==> id in w.markets && w1.markets[id] == w.markets[id]
    ensures Covered(w1, id)
  {}

  lemma OpenCovered(w: World, a: Action, id: MarketId)
    requires Covered(w, id) && a.OpenPosition? && Handle(w, a).Ok? && SupplyFollows(w, a, id)
    ensures Covered(Handle(w, a).value.0, id)
  {
    OpenSteps(w, a);
    hide Handle, OnlyProtocol, HeldIn;
    var pos, w' := PositionId(a.owner, a.program), Handle(w, a).value.0;
    var w0 := Opened(w, a).(holdings := w.holdings[pos := Holding(a.market, 0)]);
    var w1 := w'.(states := w.states, log := w.log);
    HeldAdded(w.holdings, pos, a.market, id);
    CoveredIgnores(w, w0, id);
    OnlyProtocolTables(w0, w1, pos);
    ProtocolCovered(w0, w1, pos, id);
    CoveredIgnores(w1, w', id);
  }

  lemma OnlyProtocolTables(w: World, w1: World, pos: PositionId)
    requires OnlyProtocol(w, w1, pos)
    ensures w1.holdings.Keys == w.holdings.Keys && w1.markets.Keys == w.markets.Keys
    ensures pos in w.holdings ==> MarketOf(w1, pos) == MarketOf(w, pos)
  {}

  lemma CallCovered(w: World, w1: World, w': World, pos: PositionId, id: MarketId)
    requires AdapterEffect(w, w1, pos) && Covered(w, id) && w'.holdings == w1.holdings && w'.markets == w1.markets
    requires pos in w'.holdings && MarketOf(w', pos) == id && id in w'.markets && id in w.markets && pos in w.holdings ==>
      w'.holdings[pos].amount - w.holdings[pos].amount <= w'.markets[id].supply - w.markets[id].supply
    ensures Covered(w', id)
  {
    hide OnlyProtocol, Covered;
    var w2 := w1.(states := w.states, log := w.log);
    OnlyProtocolTables(w, w2, pos);
    ProtocolCovered(w, w2, pos, id);
    CoveredIgnores(w2, w', id);
  }

  lemma RoutedCovered(w: World, a: Action, id: MarketId)
    requires Covered(w, id) && a.Routed() && Handle(w, a).Ok? && SupplyFollows(w, a, id)
    ensures Covered(Handle(w, a).value.0, id)
  {
    hide Handle, Covered, AdapterSpec.Deposit, AdapterSpec.Withdraw, AdapterSpec.CurrentValue, AdapterEffect;
    var pos, w' := PositionId(a.owner, a.program), Handle(w, a).value.0;
    match a
    case OpenPosition(_, _, _, _, _) => OpenCovered(w, a, id);
    case Deposit(tx, _, _, _, amount, cpis) =>
      DepositSteps(w, a);
      var w0 := Funded(w, a);
      CoveredIgnores(w, w0, id);
      CallCovered(w0, AdapterSpec.Deposit(w0, tx, pos, amount, [], cpis).value, w', pos, id);
    case Withdraw(tx, _, _, _, shares, cpis) =>
      WithdrawSteps(w, a);
      CallCovered(w, AdapterSpec.Withdraw(w, tx, pos, shares, [], cpis).value, w', pos, id);
    case CurrentValue(tx, _, _, vaultBalance, cpis) =>
      ValueSteps(w, a);
      CallCovered(w, AdapterSpec.CurrentValue(w, tx, pos, [], vaultBalance, cpis).value, w', pos, id);
  }

  lemma EnvironmentCovered(w: World, a: Action, id: MarketId)
    requires Covered(w, id) && Environment(a) && Handle(w, a).Ok? && SupplyFollows(w, a, id)
    ensures Covered(Handle(w, a).value.0, id)
  {
    EnvironmentSteps(w, a);
    hide Handle, HeldIn, Covered;
    var w' := Handle(w, a).value.0;
    if a.MoveShares? {
      HeldUpdate(w.holdings, a.position, a.held, id);
      if MarketOf(w, a.position) != id { CoveredIgnores(w, w', id); }
    } else if !(a.MoveMarket? && a.id == id) {
      CoveredIgnores(w, w', id);
    }
  }

  lemma StepCovered(w: World, a: Action, id: MarketId)
    requires Covered(w, id) && SupplyFollows(w, a, id)
    ensures Covered(Step(w, a), id)
  {
    hide Covered, Handle, SupplyFollows;
    if Handle(w, a).Ok? {
      var w' := Handle(w, a).value.0;
      if a.Routed() { RoutedCovered(w, a, id); }
      else if Environment(a) { EnvironmentCovered(w, a, id); }
      else { GovernanceSteps(w, a); CoveredIgnores(w, w', id); }
      CoveredIgnores(w', Step(w, a), id);
    }
  }

  /** Where a market's own protocol keeps recorded supply up with what it mints, the market stays covered
      in every state of the run, whatever the protocols of other markets do. */
  lemma {:induction false} RunCovered(w: World, actions: seq<Action>, id: MarketId)
    requires Covered(w, id) && RunSupplyFollows(w, actions, id)
    ensures Covered(Run(w, actions), id)
    decreases |actions|
  {
    hide Covered, Step, SupplyFollows;
    if actions != [] {
      StepCovered(w, actions[0], id);
      RunCovered(Step(w, actions[0]), actions[1..], id);
    }
  }

  // ----- booked shares are really there -----

  /** In a market whose shares are tokens, no more is booked for a position than it holds. */
  ghost predicate BookedHeld(w: World, id: MarketId) {
    HoldsTokens(id.program) ==>
      forall pos | pos in w.states && pos in w.holdings && MarketOf(w, pos) == id ::
        w.states[pos].totalShares <= w.holdings[pos].amount
  }

  /** The protocol's side of a redemption in one market: it burns at most the shares it was asked to burn. */
  ghost predicate BurnsAtMostShares(w: World, a: Action, id: MarketId) {
    a.Withdraw? && Handle(w, a).Ok? ==>
      var pos, w' := PositionId(a.owner, a.program), Handle(w, a).value.0;
      pos in w.holdings && pos in w'.holdings && MarketOf(w, pos) == id ==>
        w'.holdings[pos].amount + a.shares >= w.holdings[pos].amount
  }

  ghost predicate RunBurnsAtMostShares(w: World, actions: seq<Action>, id: MarketId)
    decreases |actions|
  {
    actions == [] || (BurnsAtMostShares(w, actions[0], id) && RunBurnsAtMostShares(Step(w, actions[0]), actions[1..], id))
  }

  lemma RoutedHoldings(w: World, a: Action)
    requires (a.Deposit? || a.Withdraw? || a.CurrentValue?) && Handle(w, a).Ok?
    ensures var pos, w' := PositionId(a.owner, a.program), Handle(w, a).value.0;
      && w'.holdings.Keys == w.holdings.Keys
      && (forall p | p in w.holdings && p != pos :: w'.holdings[p] == w.holdings[p])
      && (pos in w.holdings ==> w'.holdings[pos].market == w.holdings[pos].market)
      && (a.CurrentValue? && pos in w.holdings ==> w'.holdings[pos].amount >= w.holdings[pos].amount)
      && (!a.program.IsReference() ==> w'.states == w.states)
  {
    hide Handle, AdapterSpec.Deposit, AdapterSpec.Withdraw, AdapterSpec.ValueOf, AdapterSpec.Foreign;
    var pos := PositionId(a.owner, a.program);
    if a.Deposit? { DepositSteps(w, a); }
    else if a.Withdraw? { WithdrawSteps(w, a); }
    else { ValueSteps(w, a); if pos in w.holdings { ValueHoldings(w, a.tx, pos, a.vaultBalance, a.cpis); } }
    if !a.program.IsReference() { ForeignReturns(w, a); }
  }

  lemma ValueHoldings(w: World, tx: Transaction, pos: PositionId, vaultBalance: U64, cpis: seq<Cpi>)
    requires AdapterSpec.CurrentValue(w, tx, pos, [], vaultBalance, cpis).Ok? && pos in w.holdings
    ensures var w1 := AdapterSpec.CurrentValue(w, tx, pos, [], vaultBalance, cpis).value;
      pos in w1.holdings && w1.holdings[pos].amount >= w.holdings[pos].amount
  {
    hide AdapterSpec.ValueOf;
    PoolNeutrality.UnsignedCalls(w, pos, cpis, if pos.program.IsReference() then AdapterSpec.ValueCalls(pos.program) else 1);
  }

  lemma RoutedBooked(w: World, a: Action, id: MarketId)
    requires BookedHeld(w, id) && BurnsAtMostShares(w, a, id)
    requires (a.Deposit? || a.Withdraw? || a.CurrentValue?) && Handle(w, a).Ok?
    ensures BookedHeld(Handle(w, a).value.0, id)
  {
    hide Handle;
    RoutedHoldings(w, a);
    if a.program.IsReference() {
      hide AdapterSpec.Deposit, AdapterSpec.Withdraw, AdapterSpec.ValueOf;
      if a.Deposit? { DepositReturns(w, a); }
      else if a.Withdraw? { WithdrawReturns(w, a); }
      else { ValueReturns(w, a); }
    }
  }

  lemma OpenBooked(w: World, a: Action, id: MarketId)
    requires BookedHeld(w, id) && a.OpenPosition? && Handle(w, a).Ok?
    ensures BookedHeld(Handle(w, a).value.0, id)
  {
    hide Handle;
    OpenSteps(w, a);
  }

  lemma StepBooked(w: World, a: Action, id: MarketId)
    requires BookedHeld(w, id) && BurnsAtMostShares(w, a, id)
    ensures BookedHeld(Step(w, a), id)
  {
    hide Handle, BurnsAtMostShares;
    if Handle(w, a).Ok? {
      if a.OpenPosition? { OpenBooked(w, a, id); }
      else if a.Routed() { RoutedBooked(w, a, id); }
      else if Environment(a) { EnvironmentSteps(w, a); }
      else { GovernanceSteps(w, a); }
    }
  }

  // ----- invariants of every run -----

  lemma {:induction false} RunWidths(w: World, actions: seq<Action>)
    requires Widths(w)
    ensures Widths(Run(w, actions))
    decreases |actions|
  {
    hide Widths, Step;
    if actions != [] {
      StepWidths(w, actions[0]);
      RunWidths(Step(w, actions[0]), actions[1..]);
    }
  }

  /** Where redemptions in a market burn at most what they were asked to, its positions hold at least
      what is booked for them in every state of the run, whatever happens in other markets. */
  lemma {:induction false} RunBooked(w: World, actions: seq<Action>, id: MarketId)
    requires BookedHeld(w, id) && RunBurnsAtMostShares(w, actions, id)
    ensures BookedHeld(Run(w, actions), id)
    decreases |actions|
  {
    hide BookedHeld, Step, BurnsAtMostShares;
    if actions != [] {
      StepBooked(w, actions[0], id);
      RunBooked(Step(w, actions[0]), actions[1..], id);
    }
  }

  lemma InitialSound(w: World, id: MarketId)
    requires Initial(w)
    ensures RegistryInv(w) && Widths(w) && BookedHeld(w, id) && Covered(w, id)
  {
    InitialRegistry(w);
    assert HeldIn(w.holdings, id) == map[];
  }

  // ----- what the positions of a market report -----

  /** What `adapter_current_value` reports now; nothing if it fails. */
  function Reported(w: World, pos: PositionId, vaultBalance: U64): nat {
    match AdapterSpec.ValueOf(w, pos, vaultBalance) case Ok(v) => v case Err(_) => 0
  }

  /** The reported values of all positions in one market. */
  ghost function ReportedIn(w: World, id: MarketId, vaultBalance: U64): map<PositionId, nat> {
    map pos | pos in w.holdings && MarketOf(w, pos) == id :: Reported(w, pos, vaultBalance)
  }

  /** The same accounts at other prices. */
  function Priced(w: World, id: MarketId, prices: Prices): (w1: World)
    requires id in w.markets
    ensures id in w1.markets
  {
    w.(markets := w.markets[id := w.markets[id].(prices := prices)])
  }

  function Liquidity(w: World, id: MarketId): nat
    requires id in w.markets
  {
    KlendCpi.TotalLiquidity(w.markets[id].prices.available, w.markets[id].prices.borrowedSf)
  }

  lemma KaminoReport(w: World, pos: PositionId)
    requires pos.program.Kamino? && pos in w.holdings && MarketOf(w, pos) in w.markets
    ensures Reported(w, pos, 0)
         == ProRata.Report(if pos in w.states then w.states[pos].totalShares else 0, Liquidity(w, MarketOf(w, pos)),
                           w.markets[MarketOf(w, pos)].supply)
  {
    var m := w.markets[MarketOf(w, pos)];
    var shares: U64 := if pos in w.states then w.states[pos].totalShares else 0;
    KlendCpi.IsShareOfLiquidity(m.prices.available, m.prices.borrowedSf, m.supply, shares);
    ProRata.ReportIs(shares, Liquidity(w, MarketOf(w, pos)), m.supply);
    if shares == 0 && m.supply > 0 { DivIs(0, m.supply, 0); }
    hide KlendCpi.CollateralValue, KlendCpi.TotalLiquidity;
  }

  /** Kamino prices what is booked, as floor shares of the reserve's liquidity. */
  lemma KaminoReports(w: World, id: MarketId)
    requires id.program.Kamino? && id in w.markets
    ensures ReportedIn(w, id, 0) == ProRata.Reports(BookedIn(w, id), Liquidity(w, id), w.markets[id].supply)
  {
    hide Reported, ProRata.Report, Liquidity;
    forall pos | pos in w.holdings && MarketOf(w, pos) == id
      ensures ReportedIn(w, id, 0)[pos] == ProRata.Reports(BookedIn(w, id), Liquidity(w, id), w.markets[id].supply)[pos]
    {
      KaminoReport(w, pos);
    }
  }

  /** Jupiter prices what is held, as floor shares of the pool's assets. */
  lemma JupiterReports(w: World, id: MarketId)
    requires id.program.Jupiter? && id in w.markets && Widths(w) && StatesInv(w.positions, w.states, w.holdings)
    ensures ReportedIn(w, id, 0) == ProRata.Reports(HeldIn(w.holdings, id), w.markets[id].prices.aum, w.markets[id].supply)
  {
    hide ProRata.Report;
    var m := w.markets[id];
    forall pos | pos in w.holdings && MarketOf(w, pos) == id
      ensures Reported(w, pos, 0) == ProRata.Report(w.holdings[pos].amount, m.prices.aum, m.supply)
    {
      assert pos in w.states by { assert pos in w.positions; }
      ProRata.ReportIs(w.holdings[pos].amount, m.prices.aum, m.supply);
    }
  }

  /** Drift prices what is staked, as floor shares of the vault it is shown. */
  lemma DriftReports(w: World, id: MarketId, vaultBalance: U64)
    requires id.program.Drift? && id in w.markets && StatesInv(w.positions, w.states, w.holdings)
    ensures ReportedIn(w, id, vaultBalance) == ProRata.Reports(HeldIn(w.holdings, id), vaultBalance, w.markets[id].supply)
  {
    hide ProRata.Report;
    var m := w.markets[id];
    forall pos | pos in w.holdings && MarketOf(w, pos) == id
      ensures Reported(w, pos, vaultBalance) == ProRata.Report(w.holdings[pos].amount, vaultBalance, m.supply)
    {
      assert pos in w.states by { assert pos in w.positions; }
      ProRata.ReportIs(w.holdings[pos].amount, vaultBalance, m.supply);
    }
  }

  lemma SumMono<K(!new)>(f: map<K, nat>, g: map<K, nat>)
    requires f.Keys == g.Keys && forall k | k in f :: f[k] <= g[k]
    ensures Sum(f) <= Sum(g)
  {
    SumScaled(f, g, 1, 1);
  }

  /** Booked shares are at most held ones, market by market. */
  lemma BookedAtMostHeld(w: World, id: MarketId)
    requires BookedHeld(w, id) && HoldsTokens(id.program)
    ensures Sum(BookedIn(w, id)) <= Sum(HeldIn(w.holdings, id))
  {
    SumMono(BookedIn(w, id), HeldIn(w.holdings, id));
  }

  // ----- the theorems -----

  /** In every state of every run in which redemptions in the reserve burn at most what they were asked
      to: if the reserve's recorded supply covers the collateral of its positions, their values add up to
      at most its total liquidity. Nothing is asked of other markets or their programs. */
  lemma KaminoSolvent(w: World, actions: seq<Action>, index: nat)
    requires Initial(w) && RunBurnsAtMostShares(w, actions, MarketId(Kamino, index))
    ensures var w', id := Run(w, actions), MarketId(Kamino, index);
      id in w'.markets && SharesCovered(w', id) ==> Sum(ReportedIn(w', id, 0)) <= Liquidity(w', id)
  {
    hide Initial, BookedHeld, Run, ReportedIn, Liquidity;
    var w', id := Run(w, actions), MarketId(Kamino, index);
    InitialSound(w, id);
    RunBooked(w, actions, id);
    if id in w'.markets && SharesCovered(w', id) {
      KaminoReports(w', id);
      BookedAtMostHeld(w', id);
      ProRata.ReportsFit(BookedIn(w', id), Liquidity(w', id), w'.markets[id].supply);
    }
  }

  /** The exact condition, in every state of every run: the reported values fit the liquidity at all
      prices if and only if the booked shares add up to at most the recorded supply, or that is zero. */
  lemma KaminoSolventIff(w: World, actions: seq<Action>, index: nat)
    requires Initial(w) && MarketId(Kamino, index) in Run(w, actions).markets
    ensures var w', id := Run(w, actions), MarketId(Kamino, index);
      (forall prices: Prices :: Sum(ReportedIn(Priced(w', id, prices), id, 0)) <= Liquidity(Priced(w', id, prices), id))
      <==> w'.markets[id].supply == 0 || Sum(BookedIn(w', id)) <= w'.markets[id].supply
  {
    hide Initial, Run;
    InitialSound(w, MarketId(Kamino, index));
    RunWidths(w, actions);
    KaminoIff(Run(w, actions), MarketId(Kamino, index));
  }

  lemma KaminoPriced(w: World, id: MarketId, prices: Prices)
    requires id in w.markets && id.program.Kamino?
    ensures Sum(ReportedIn(Priced(w, id, prices), id, 0))
         == Sum(ProRata.Reports(BookedIn(w, id), Liquidity(Priced(w, id, prices), id), w.markets[id].supply))
  {
    hide ProRata.Reports, ReportedIn, Liquidity;
    KaminoReports(Priced(w, id, prices), id);
    assert BookedIn(Priced(w, id, prices), id) == BookedIn(w, id);
  }

  lemma KaminoExceeds(w: World, id: MarketId) returns (prices: Prices)
    requires id in w.markets && id.program.Kamino? && 0 < w.markets[id].supply < TWO64
    requires Sum(BookedIn(w, id)) > w.markets[id].supply
    ensures Sum(ReportedIn(Priced(w, id, prices), id, 0)) > Liquidity(Priced(w, id, prices), id)
  {
    var supply := w.markets[id].supply;
    ProRata.ReportsFitIff(BookedIn(w, id), supply);
    hide ProRata.Reports, ReportedIn, BookedIn;
    var pot: U64 :| !(Sum(ProRata.Reports(BookedIn(w, id), pot, supply)) <= pot);
    prices := Prices(pot, 0, 0, 0, 0);
    KaminoPriced(w, id, prices);
    CashOnly(w, id, prices);
    hide Liquidity, Priced;
  }

  lemma KaminoIff(w: World, id: MarketId)
    requires Widths(w) && id in w.markets && id.program.Kamino?
    ensures (forall prices: Prices :: Sum(ReportedIn(Priced(w, id, prices), id, 0)) <= Liquidity(Priced(w, id, prices), id))
       <==> w.markets[id].supply == 0 || Sum(BookedIn(w, id)) <= w.markets[id].supply
  {
    hide ReportedIn, BookedIn, Liquidity, Priced, ProRata.Reports;
    var supply := w.markets[id].supply;
    if supply == 0 || Sum(BookedIn(w, id)) <= supply {
      forall prices: Prices
        ensures Sum(ReportedIn(Priced(w, id, prices), id, 0)) <= Liquidity(Priced(w, id, prices), id)
      {
        KaminoPriced(w, id, prices);
        ProRata.ReportsFit(BookedIn(w, id), Liquidity(Priced(w, id, prices), id), supply);
      }
    } else {
      var prices := KaminoExceeds(w, id);
    }
  }

  lemma PricedAsIs(w: World, id: MarketId)
    requires id in w.markets
    ensures Priced(w, id, w.markets[id].prices) == w
  {}

  lemma CashOnly(w: World, id: MarketId, prices: Prices)
    requires id in w.markets && prices.borrowedSf == 0
    ensures Liquidity(Priced(w, id, prices), id) == prices.available
  {}

  /** Jupiter prices what is held, so only the cover matters: if the recorded supply of the mint covers
      the LP tokens of the positions that pinned it, their values fit the pool; and they fit at all
      prices if and only if it does, or is zero. */
  lemma JupiterSolventIff(w: World, actions: seq<Action>, index: nat)
    requires Initial(w) && MarketId(Jupiter, index) in Run(w, actions).markets
    ensures var w', id := Run(w, actions), MarketId(Jupiter, index);
      && (SharesCovered(w', id) ==> Sum(ReportedIn(w', id, 0)) <= w'.markets[id].prices.aum)
      && ((forall prices: Prices :: Sum(ReportedIn(Priced(w', id, prices), id, 0)) <= prices.aum)
          <==> w'.markets[id].supply == 0 || SharesCovered(w', id))
  {
    hide Initial, Run, Widths, RegistryInv;
    InitialSound(w, MarketId(Jupiter, index));
    RunWidths(w, actions);
    RunRegistry(w, actions);
    JupiterIff(Run(w, actions), MarketId(Jupiter, index));
  }

  lemma JupiterPriced(w: World, id: MarketId, prices: Prices)
    requires Widths(w) && RegistryInv(w) && id in w.markets && id.program.Jupiter?
    ensures Sum(ReportedIn(Priced(w, id, prices), id, 0))
         == Sum(ProRata.Reports(HeldIn(w.holdings, id), prices.aum, w.markets[id].supply))
  {
    hide ProRata.Reports, ReportedIn, HeldIn, StatesInv;
    JupiterReports(Priced(w, id, prices), id);
  }

  lemma HeldSmall(w: World, id: MarketId)
    requires Widths(w) && id in w.markets && id.program.Jupiter?
    ensures w.markets[id].supply < TWO64
    ensures forall k | k in HeldIn(w.holdings, id) :: HeldIn(w.holdings, id)[k] < TWO64
  {}

  lemma JupiterExceeds(w: World, id: MarketId) returns (prices: Prices)
    requires Widths(w) && RegistryInv(w) && id in w.markets && id.program.Jupiter?
    requires w.markets[id].supply > 0 && !SharesCovered(w, id)
    ensures Sum(ReportedIn(Priced(w, id, prices), id, 0)) > prices.aum
  {
    var supply := w.markets[id].supply;
    HeldSmall(w, id);
    hide ProRata.Reports, ReportedIn, HeldIn, Priced, RegistryInv, Widths;
    ProRata.ReportsFitIff(HeldIn(w.holdings, id), supply);
    var pot: U64 :| !(Sum(ProRata.Reports(HeldIn(w.holdings, id), pot, supply)) <= pot);
    prices := Prices(0, 0, pot, 0, 0);
    JupiterPriced(w, id, prices);
  }

  lemma JupiterIff(w: World, id: MarketId)
    requires Widths(w) && RegistryInv(w) && id in w.markets && id.program.Jupiter?
    ensures SharesCovered(w, id) ==> Sum(ReportedIn(w, id, 0)) <= w.markets[id].prices.aum
    ensures (forall prices: Prices :: Sum(ReportedIn(Priced(w, id, prices), id, 0)) <= prices.aum)
       <==> w.markets[id].supply == 0 || SharesCovered(w, id)
  {
    hide ReportedIn, HeldIn, Priced, ProRata.Reports, RegistryInv, Widths;
    var supply := w.markets[id].supply;
    PricedAsIs(w, id);
    if supply == 0 || SharesCovered(w, id) {
      forall prices: Prices
        ensures Sum(ReportedIn(Priced(w, id, prices), id, 0)) <= prices.aum
      {
        JupiterPriced(w, id, prices);
        ProRata.ReportsFit(HeldIn(w.holdings, id), prices.aum, supply);
      }
    } else {
      var prices := JupiterExceeds(w, id);
    }
  }

  /** Drift stakes against whatever vault they are priced from: if the market's recorded total covers
      the stakes read, their values fit that vault; and, for u64 numbers, they fit every vault if and
      only if it does, or is zero. */
  lemma DriftSolvent(w: World, actions: seq<Action>, index: nat)
    requires Initial(w) && MarketId(Drift, index) in Run(w, actions).markets
    ensures var w', id := Run(w, actions), MarketId(Drift, index);
      && (SharesCovered(w', id) ==> forall vault: U64 :: Sum(ReportedIn(w', id, vault)) <= vault)
      && (SmallNumbers(w', id) ==>
            ((forall vault: U64 :: Sum(ReportedIn(w', id, vault)) <= vault)
             <==> w'.markets[id].supply == 0 || SharesCovered(w', id)))
  {
    hide Initial, Run;
    InitialRegistry(w);
    RunRegistry(w, actions);
    DriftIff(Run(w, actions), MarketId(Drift, index));
  }

  /** Stakes and total that would fit a u64. */
  ghost predicate SmallNumbers(w: World, id: MarketId)
    requires id in w.markets
  {
    w.markets[id].supply < TWO64 && forall k | k in HeldIn(w.holdings, id) :: HeldIn(w.holdings, id)[k] < TWO64
  }

  lemma DriftIff(w: World, id: MarketId)
    requires RegistryInv(w) && id in w.markets && id.program.Drift?
    ensures SharesCovered(w, id) ==> forall vault: U64 :: Sum(ReportedIn(w, id, vault)) <= vault
    ensures SmallNumbers(w, id) ==>
      ((forall vault: U64 :: Sum(ReportedIn(w, id, vault)) <= vault) <==> w.markets[id].supply == 0 || SharesCovered(w, id))
  {
    hide ReportedIn, HeldIn, ProRata.Reports, StatesInv;
    var supply := w.markets[id].supply;
    forall vault: U64
      ensures ReportedIn(w, id, vault) == ProRata.Reports(HeldIn(w.holdings, id), vault, supply)
      ensures supply == 0 || SharesCovered(w, id) ==> Sum(ReportedIn(w, id, vault)) <= vault
    {
      DriftReports(w, id, vault);
      if supply == 0 || SharesCovered(w, id) { ProRata.ReportsFit(HeldIn(w.holdings, id), vault, supply); }
    }
    if SmallNumbers(w, id) { ProRata.ReportsFitIff(HeldIn(w.holdings, id), supply); }
  }

  // ----- MarginFi and Maple price shares at a rate -----

  /** If each report is at most a fixed rate times the shares held, all reports fit the rate times the
      shares of all. */
  lemma RateFitsShares(w: World, id: MarketId, num: nat, den: nat)
    requires den > 0
    requires forall pos | pos in w.holdings && MarketOf(w, pos) == id ::
      Reported(w, pos, 0) * den <= w.holdings[pos].amount * num
    ensures Sum(ReportedIn(w, id, 0)) <= Sum(HeldIn(w.holdings, id)) * num / den
  {
    var f, g := ReportedIn(w, id, 0), HeldIn(w.holdings, id);
    SumScaled(f, g, den, num);
    DivAtLeast(Sum(g) * num, den, Sum(f));
  }

  function Positive(v: int): nat {
    if v > 0 then v else 0
  }

  lemma MarginfiReport(held: U128, v: I128)
    ensures var s := if held < TWO127 then held else TWO127 - 1;
      var r := MarginfiCpi.SharesToUsdc(s, v);
      (if r.Ok? then r.value else 0) * MarginfiCpi.TWO96 <= held * Positive(v)
  {
    var s := if held < TWO127 then held else TWO127 - 1;
    if s > 0 && v > 0 && MarginfiCpi.SharesToUsdc(s, v).Ok? {
      MarginfiCpi.ValueError(s, v);
      DivAtLeast(s * v, MarginfiCpi.TWO96, MarginfiCpi.SharesToUsdc(s, v).value);
      MulMono(s, held, v);
    }
  }

  function Squared(p: nat): nat {
    p * p
  }

  lemma MapleReport(held: U64, sqrtPrice: U128)
    ensures var r := OrcaCpi.SpotValue(sqrtPrice, held);
      (if r.Ok? then r.value else 0) * TWO128 <= held * Squared(sqrtPrice)
  {
    if OrcaCpi.SpotValue(sqrtPrice, held).Ok? {
      OrcaCpi.StagedError(sqrtPrice, held);
      DivAtLeast(held * Squared(sqrtPrice), TWO128, OrcaCpi.SpotValue(sqrtPrice, held).value);
    }
  }

  lemma MapleReported(w: World, pos: PositionId)
    requires pos in w.holdings && pos.program.Maple? && MarketOf(w, pos) in w.markets
    ensures Reported(w, pos, 0) * TWO128 <= w.holdings[pos].amount * Squared(w.markets[MarketOf(w, pos)].prices.sqrtPrice)
  {
    hide OrcaCpi.SpotValue, Squared;
    if w.holdings[pos].amount < TWO64 { MapleReport(w.holdings[pos].amount, w.markets[MarketOf(w, pos)].prices.sqrtPrice); }
  }

  lemma ExactIsRate(p: nat, shares: nat)
    ensures OrcaCpi.ExactValue(p, shares) == shares * Squared(p) / TWO128
  {}

  /** Positions in one MarginFi bank together report at most the exact value of all the shares read for
      them, in any accounts whatever. */
  lemma MarginfiBounded(w: World, id: MarketId)
    requires id in w.markets && id.program.MarginFi?
    ensures Sum(ReportedIn(w, id, 0))
         <= MarginfiCpi.ExactValue(Sum(HeldIn(w.holdings, id)), Positive(w.markets[id].prices.shareValue))
  {
    var v := w.markets[id].prices.shareValue;
    forall pos | pos in w.holdings && MarketOf(w, pos) == id
      ensures Reported(w, pos, 0) * MarginfiCpi.TWO96 <= w.holdings[pos].amount * Positive(v)
    {
      MarginfiReport(w.holdings[pos].amount, v);
      hide MarginfiCpi.SharesToUsdc, Positive;
    }
    RateFitsShares(w, id, Positive(v), MarginfiCpi.TWO96);
  }

  /** Positions in one whirlpool together report at most the exact spot value of all the syrupUSDC they hold. */
  lemma MapleBounded(w: World, id: MarketId)
    requires id in w.markets && id.program.Maple?
    ensures Sum(ReportedIn(w, id, 0)) <= OrcaCpi.ExactValue(w.markets[id].prices.sqrtPrice, Sum(HeldIn(w.holdings, id)))
  {
    hide Reported, Squared, HeldIn;
    var p := w.markets[id].prices.sqrtPrice;
    forall pos | pos in w.holdings && MarketOf(w, pos) == id
      ensures Reported(w, pos, 0) * TWO128 <= w.holdings[pos].amount * Squared(p)
    {
      MapleReported(w, pos);
    }
    RateFitsShares(w, id, Squared(p), TWO128);
    ExactIsRate(p, Sum(HeldIn(w.holdings, id)));
    hide OrcaCpi.ExactValue;
  }
}
