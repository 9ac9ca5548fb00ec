/** What protocol calls and adapter instructions leave alone, and how they move the rest. */
module Effects {
  import opened Machine
  import opened Accounts
  import opened Protocol
  import AdapterInterface
  import AdapterSpec

  /** The most that calls made for `pos` can do, whatever the protocol answers: move USDC between the
      position's pool and its market's vault, and set the position's share amount and its
      market, within their widths. */
  ghost predicate OnlyProtocol(w: World, w1: World, pos: PositionId) {
    && w1.registry == w.registry && w1.entries == w.entries && w1.positions == w.positions
    && w1.states == w.states && w1.taken == w.taken && w1.log == w.log
    && w1.holdings.Keys == w.holdings.Keys && w1.usdc.Keys == w.usdc.Keys && w1.markets.Keys == w.markets.Keys
    && (pos !in w.holdings ==> w1.holdings == w.holdings && w1.usdc == w.usdc && w1.markets == w.markets)
    && (pos in w.holdings ==>
          var id := MarketOf(w, pos);
          && w1.holdings == w.holdings[pos := Holding(w.holdings[pos].market, w1.holdings[pos].amount)]
          && (forall a | a in w.usdc && a != Pool(pos) && a != Vault(id) :: w1.usdc[a] == w.usdc[a])
          && (forall m | m in w.markets && m != id :: w1.markets[m] == w.markets[m])
          && (w1.usdc == w.usdc || (
                && Pool(pos) in w.usdc && Vault(id) in w.usdc
                && w1.usdc[Pool(pos)] + w1.usdc[Vault(id)] == w.usdc[Pool(pos)] + w.usdc[Vault(id)]))
          && (w1.holdings == w.holdings || w1.holdings[pos].amount < ShareCap(pos.program))
          && (id in w.markets ==> w1.markets[id] == w.markets[id] || w1.markets[id].supply < ShareCap(pos.program))
          && (id !in w.markets ==> w1.holdings == w.holdings))
  }

  lemma OnlyProtocolTransitive(w: World, w1: World, w2: World, pos: PositionId)
    requires OnlyProtocol(w, w1, pos) && OnlyProtocol(w1, w2, pos)
    ensures OnlyProtocol(w, w2, pos)
  {}

  lemma InvokeEffect(w: World, pos: PositionId, signed: bool, cpi: Cpi)
    requires Invoke(w, pos, signed, cpi).Ok?
    ensures OnlyProtocol(w, Invoke(w, pos, signed, cpi).value, pos)
  {}

  lemma {:induction false} InvokeAllEffect(w: World, pos: PositionId, signed: bool, cpis: seq<Cpi>, n: nat)
    requires InvokeAll(w, pos, signed, cpis, n).Ok?
    ensures OnlyProtocol(w, InvokeAll(w, pos, signed, cpis, n).value, pos)
  {
    if n > 0 {
      var w1 := InvokeAll(w, pos, signed, cpis, n - 1).value;
      InvokeAllEffect(w, pos, signed, cpis, n - 1);
      InvokeEffect(w1, pos, signed, CpiAt(cpis, n - 1));
      OnlyProtocolTransitive(w, w1, InvokeAll(w, pos, signed, cpis, n).value, pos);
    }
  }

  /** Calls leave the books, the log and the sets of accounts alone. */
  lemma InvokeAllKeeps(w: World, pos: PositionId, signed: bool, cpis: seq<Cpi>, n: nat)
    requires InvokeAll(w, pos, signed, cpis, n).Ok?
    ensures var w1 := InvokeAll(w, pos, signed, cpis, n).value;
      w1.states == w.states && w1.log == w.log && w1.holdings.Keys == w.holdings.Keys && w1.usdc.Keys == w.usdc.Keys
  {
    InvokeAllEffect(w, pos, signed, cpis, n);
  }

  /** An adapter instruction: protocol calls, then at most this position's state, its return data
      and one event of its own. */
  ghost predicate AdapterEffect(w: World, w1: World, pos: PositionId) {
    && OnlyProtocol(w, w1.(states := w.states, log := w.log), pos)
    && w1.states.Keys == w.states.Keys
    && (forall p | p in w.states && p != pos :: w1.states[p] == w.states[p])
    && (pos in w.states ==> w1.states[pos] == w.states[pos].(totalShares := w1.states[pos].totalShares))
  }

  lemma OnlyProtocolIgnores(w: World, w1: World, w2: World, pos: PositionId)
    requires OnlyProtocol(w, w1, pos)
    requires w2 == w1.(states := w2.states, log := w2.log, ret := w2.ret)
    ensures OnlyProtocol(w, w2.(states := w.states, log := w.log), pos)
  {}

  /** A fresh share account is opened, the calls follow, and a reference adapter adds its empty state. */
  lemma InitializeEffect(w: World, tx: Transaction, pos: PositionId, market: nat, data: seq<Byte>, cpis: seq<Cpi>)
    requires AdapterSpec.Initialize(w, tx, pos, market, data, cpis).Ok?
    ensures !AdapterSpec.ShareAccountExists(w, pos, market) && pos !in w.states
    ensures var w1 := AdapterSpec.Initialize(w, tx, pos, market, data, cpis).value;
      && OnlyProtocol(w.(holdings := w.holdings[pos := Holding(market, 0)]), w1.(states := w.states, log := w.log), pos)
      && w1.log == w.log
      && w1.states == if pos.program.IsReference() then w.states[pos := AdapterState(pos, pos.program, 0)] else w.states
  {
    var w0 := w.(holdings := w.holdings[pos := Holding(market, 0)]);
    var n := if pos.program.IsReference() then AdapterSpec.InitializeCalls(pos.program) else 1;
    InvokeAllEffect(w0, pos, true, cpis, n);
    OnlyProtocolIgnores(w0, InvokeAll(w0, pos, true, cpis, n).value,
                        AdapterSpec.Initialize(w, tx, pos, market, data, cpis).value, pos);
  }

  /** After the calls an adapter changes at most its own state, the log and the return data. */
  lemma CallsThenBooks(w: World, w1: World, w2: World, pos: PositionId)
    requires OnlyProtocol(w, w1, pos)
    requires w2 == w1.(states := w2.states, log := w2.log, ret := w2.ret)
    requires w2.states == w1.states
      || (pos in w1.states && pos in w2.states
          && w2.states == w1.states[pos := w1.states[pos].(totalShares := w2.states[pos].totalShares)])
    ensures AdapterEffect(w, w2, pos)
  {
    OnlyProtocolIgnores(w, w1, w2, pos);
    assert w1.states == w.states;
    hide OnlyProtocol;
  }

  lemma DepositEffect(w: World, tx: Transaction, pos: PositionId, amount: U64, data: seq<Byte>, cpis: seq<Cpi>)
    requires AdapterSpec.Deposit(w, tx, pos, amount, data, cpis).Ok?
    ensures AdapterEffect(w, AdapterSpec.Deposit(w, tx, pos, amount, data, cpis).value, pos)
  {
    hide InvokeAll, OnlyProtocol, AdapterInterface.U64Return, AdapterInterface.CalledByDispatcher;
    var n := if pos.program.IsReference() then AdapterSpec.DepositCalls(pos.program) else 1;
    var w1 := InvokeAll(w, pos, true, cpis, n).value;
    InvokeAllEffect(w, pos, true, cpis, n);
    CallsThenBooks(w, w1, AdapterSpec.Deposit(w, tx, pos, amount, data, cpis).value, pos);
  }

  lemma WithdrawEffect(w: World, tx: Transaction, pos: PositionId, shares: U64, data: seq<Byte>, cpis: seq<Cpi>)
    requires AdapterSpec.Withdraw(w, tx, pos, shares, data, cpis).Ok?
    ensures AdapterEffect(w, AdapterSpec.Withdraw(w, tx, pos, shares, data, cpis).value, pos)
  {
    hide InvokeAll, OnlyProtocol, AdapterInterface.U64Return, AdapterInterface.CalledByDispatcher;
    var n := if pos.program.IsReference() then AdapterSpec.WithdrawCalls(pos.program) else 1;
    var w1 := InvokeAll(w, pos, true, cpis, n).value;
    InvokeAllEffect(w, pos, true, cpis, n);
    CallsThenBooks(w, w1, AdapterSpec.Withdraw(w, tx, pos, shares, data, cpis).value, pos);
  }

  lemma CurrentValueEffect(w: World, tx: Transaction, pos: PositionId, data: seq<Byte>, vaultBalance: U64, cpis: seq<Cpi>)
    requires AdapterSpec.CurrentValue(w, tx, pos, data, vaultBalance, cpis).Ok?
    ensures AdapterEffect(w, AdapterSpec.CurrentValue(w, tx, pos, data, vaultBalance, cpis).value, pos)
  {
    hide InvokeAll, OnlyProtocol, AdapterInterface.U64Return, AdapterInterface.CalledByDispatcher, AdapterSpec.ValueOf;
    var n := if pos.program.IsReference() then AdapterSpec.ValueCalls(pos.program) else 1;
    var w1 := InvokeAll(w, pos, false, cpis, n).value;
    InvokeAllEffect(w, pos, false, cpis, n);
    CallsThenBooks(w, w1, AdapterSpec.CurrentValue(w, tx, pos, data, vaultBalance, cpis).value, pos);
  }
}
