/** The protocol calls every instruction makes, written out call by call, and what they leave. */
module ProtocolCalls {
  import opened Machine
  import opened Accounts
  import opened Protocol
  import AdapterSpec

  // ----- one call -----

  /** Width of a program's share counter, in numbers. */
  function Width(program: Program): nat {
    if program.MarginFi? then 0x8000_0000_0000_0000_0000_0000_0000_0000
    else if program.Drift? then 0x1_0000_0000_0000_0000_0000_0000_0000_0000
    else 0x1_0000_0000_0000_0000
  }

  /** The accounts let an outcome through: all there, balances and numbers in range, and nothing leaving
      the position without its signature. */
  predicate Admits(w: World, pos: PositionId, signed: bool, cpi: Cpi) {
    && cpi.CpiDone? && pos in w.holdings
    && var id := MarketId(pos.program, w.holdings[pos].market);
    && id in w.markets && Pool(pos) in w.usdc && Vault(id) in w.usdc
    && 0 <= w.usdc[Pool(pos)] + cpi.flow < 0x1_0000_0000_0000_0000
    && 0 <= w.usdc[Vault(id)] - cpi.flow < 0x1_0000_0000_0000_0000
    && cpi.amount < Width(pos.program) && cpi.supply < Width(pos.program)
    && (signed || (cpi.flow >= 0 && cpi.amount >= w.holdings[pos].amount))
  }

  /** The accounts after calls for a position that moved `flow` in all and of which `last` was the last. */
  function Left(w: World, pos: PositionId, flow: int, last: Cpi): World
    requires last.CpiDone? && pos in w.holdings
    requires var id := MarketId(pos.program, w.holdings[pos].market);
      && Pool(pos) in w.usdc && Vault(id) in w.usdc
      && 0 <= w.usdc[Pool(pos)] + flow && 0 <= w.usdc[Vault(id)] - flow
  {
    var id := MarketId(pos.program, w.holdings[pos].market);
    w.(usdc := w.usdc[Pool(pos) := w.usdc[Pool(pos)] + flow][Vault(id) := w.usdc[Vault(id)] - flow],
       holdings := w.holdings[pos := Holding(w.holdings[pos].market, last.amount)],
       markets := w.markets[id := Market(last.supply, last.prices)],
       ret := last.ret)
  }

  lemma InvokeIff(w: World, pos: PositionId, signed: bool, cpi: Cpi)
    ensures Invoke(w, pos, signed, cpi).Ok? <==> Admits(w, pos, signed, cpi)
    ensures Admits(w, pos, signed, cpi) ==> Invoke(w, pos, signed, cpi) == Ok(Left(w, pos, cpi.flow, cpi))
    ensures !Admits(w, pos, signed, cpi) ==> Invoke(w, pos, signed, cpi) == Err(CpiFailed)
  {}

  // ----- one call, and two calls in a row -----

  function Once(w: World, pos: PositionId, signed: bool, cpis: seq<Cpi>): Result<World, AdapterError> {
    if |cpis| < 1 || !Admits(w, pos, signed, cpis[0]) then Err(CpiFailed)
    else Ok(Left(w, pos, cpis[0].flow, cpis[0]))
  }

  function Twice(w: World, pos: PositionId, signed: bool, cpis: seq<Cpi>): Result<World, AdapterError> {
    if |cpis| < 2 || !Admits(w, pos, signed, cpis[0]) then Err(CpiFailed)
    else
      var w1 := Left(w, pos, cpis[0].flow, cpis[0]);
      if !Admits(w1, pos, signed, cpis[1]) then Err(CpiFailed)
      else Ok(Left(w1, pos, cpis[1].flow, cpis[1]))
  }

  lemma OnceIs(w: World, pos: PositionId, signed: bool, cpis: seq<Cpi>)
    ensures InvokeAll(w, pos, signed, cpis, 1) == Once(w, pos, signed, cpis)
  {
    OneCall(w, pos, signed, cpis);
    InvokeIff(w, pos, signed, CpiAt(cpis, 0));
    hide Invoke, InvokeAll;
  }

  lemma TwiceIs(w: World, pos: PositionId, signed: bool, cpis: seq<Cpi>)
    ensures InvokeAll(w, pos, signed, cpis, 2) == Twice(w, pos, signed, cpis)
  {
    TwoCalls(w, pos, signed, cpis);
    InvokeIff(w, pos, signed, CpiAt(cpis, 0));
    var r := Invoke(w, pos, signed, CpiAt(cpis, 0));
    if r.Ok? { InvokeIff(r.value, pos, signed, CpiAt(cpis, 1)); }
    hide Invoke, InvokeAll, Left, Admits;
  }

  /** Two calls in a row: the flows add up, and the second one's numbers stand. */
  lemma TwiceLeaves(w: World, pos: PositionId, signed: bool, cpis: seq<Cpi>)
    requires Twice(w, pos, signed, cpis).Ok?
    ensures |cpis| >= 2 && cpis[0].CpiDone? && cpis[1].CpiDone? && pos in w.holdings
    ensures var id := MarketId(pos.program, w.holdings[pos].market);
      && Pool(pos) in w.usdc && Vault(id) in w.usdc
      && 0 <= w.usdc[Pool(pos)] + (cpis[0].flow + cpis[1].flow) && 0 <= w.usdc[Vault(id)] - (cpis[0].flow + cpis[1].flow)
    ensures Twice(w, pos, signed, cpis).value == Left(w, pos, cpis[0].flow + cpis[1].flow, cpis[1])
  {
    var w2, w3 := Twice(w, pos, signed, cpis).value, Left(w, pos, cpis[0].flow + cpis[1].flow, cpis[1]);
    assert w2.usdc == w3.usdc && w2.holdings == w3.holdings && w2.markets == w3.markets;
  }

  // ----- which calls -----

  /** MarginFi's account is opened by one call, Drift's user stats and stake by two; the share accounts of the
      others are plain token accounts. */
  function OpeningCalls(w: World, pos: PositionId, cpis: seq<Cpi>): Result<World, AdapterError> {
    match pos.program
    case MarginFi => Once(w, pos, true, cpis)
    case Drift => Twice(w, pos, true, cpis)
    case _ => Ok(w)
  }

  /** Kamino refreshes its reserve before it deposits. */
  function DepositCalls(w: World, pos: PositionId, cpis: seq<Cpi>): Result<World, AdapterError> {
    if pos.program.Kamino? then Twice(w, pos, true, cpis) else Once(w, pos, true, cpis)
  }

  /** Kamino refreshes before it redeems, and Drift requests the removal before it removes. */
  function RedemptionCalls(w: World, pos: PositionId, cpis: seq<Cpi>): Result<World, AdapterError> {
    if pos.program.Kamino? || pos.program.Drift? then Twice(w, pos, true, cpis) else Once(w, pos, true, cpis)
  }

  /** Kamino refreshes, without the position's signature; the others only read. */
  function ReadCalls(w: World, pos: PositionId, cpis: seq<Cpi>): Result<World, AdapterError> {
    if pos.program.Kamino? then Once(w, pos, false, cpis) else Ok(w)
  }

  /** The adapters make exactly these calls. */
  lemma CallsAre(w: World, pos: PositionId, cpis: seq<Cpi>)
    requires pos.program.IsReference()
    ensures InvokeAll(w, pos, true, cpis, AdapterSpec.InitializeCalls(pos.program)) == OpeningCalls(w, pos, cpis)
    ensures InvokeAll(w, pos, true, cpis, AdapterSpec.DepositCalls(pos.program)) == DepositCalls(w, pos, cpis)
    ensures InvokeAll(w, pos, true, cpis, AdapterSpec.WithdrawCalls(pos.program)) == RedemptionCalls(w, pos, cpis)
    ensures InvokeAll(w, pos, false, cpis, AdapterSpec.ValueCalls(pos.program)) == ReadCalls(w, pos, cpis)
  {
    OnceIs(w, pos, true, cpis);
    OnceIs(w, pos, false, cpis);
    TwiceIs(w, pos, true, cpis);
    NoCalls(w, pos, true, cpis);
    NoCalls(w, pos, false, cpis);
    hide InvokeAll, Once, Twice;
  }

  lemma NoCalls(w: World, pos: PositionId, signed: bool, cpis: seq<Cpi>)
    ensures InvokeAll(w, pos, signed, cpis, 0) == Ok(w)
  {}

  /** An adapter outside this repository makes one call, signed but for a value read, and that is all it does; the
      dispatcher itself is no adapter. */
  lemma ForeignCallsAre(w: World, tx: Transaction, pos: PositionId, market: nat, n: U64, data: seq<Byte>, cpis: seq<Cpi>)
    requires !pos.program.IsReference()
    ensures pos.program.Other? ==>
      && AdapterSpec.Deposit(w, tx, pos, n, data, cpis) == Once(w, pos, true, cpis)
      && AdapterSpec.Withdraw(w, tx, pos, n, data, cpis) == Once(w, pos, true, cpis)
      && AdapterSpec.CurrentValue(w, tx, pos, data, n, cpis) == Once(w, pos, false, cpis)
      && (pos !in w.states && pos !in w.holdings ==>
            AdapterSpec.Initialize(w, tx, pos, market, data, cpis)
            == Once(w.(holdings := w.holdings[pos := Holding(market, 0)]), pos, true, cpis))
    ensures pos.program.Dispatcher? ==>
      && AdapterSpec.Deposit(w, tx, pos, n, data, cpis).Err? && AdapterSpec.Withdraw(w, tx, pos, n, data, cpis).Err?
      && AdapterSpec.CurrentValue(w, tx, pos, data, n, cpis).Err? && AdapterSpec.Initialize(w, tx, pos, market, data, cpis).Err?
  {
    OnceIs(w, pos, true, cpis);
    OnceIs(w, pos, false, cpis);
    OnceIs(w.(holdings := w.holdings[pos := Holding(market, 0)]), pos, true, cpis);
    hide InvokeAll, Once;
  }
}
