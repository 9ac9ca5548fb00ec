/** The accounts as the programs change them: field by field, in place. */
module Chain {
  import opened Machine
  import opened Accounts
  import Protocol
  import AdapterInterface

  /** The accounts and result of a call agree with a specification's outcome. What a failed call leaves
      behind is for the enclosing transaction to discard. */
  ghost predicate Agrees<E>(r: Result<(), E>, after: World, spec: Result<World, E>) {
    if spec.Ok? then r.Ok? && after == spec.value else r == Err(spec.error)
  }

  class Ledger {
    var registry: Option<Registry>
    var entries: map<Program, AdapterEntry>
    var positions: map<PositionId, Position>
    var states: map<PositionId, AdapterState>
    var holdings: map<PositionId, Holding>
    var markets: map<MarketId, Market>
    var usdc: map<UsdcAccount, nat>
    var taken: set<ShareAccount>
    var log: seq<Event>
    var ret: Option<ReturnData>

    constructor (w: World)
      ensures View() == w
    {
      registry, entries, positions, states, holdings := w.registry, w.entries, w.positions, w.states, w.holdings;
      markets, usdc, taken, log, ret := w.markets, w.usdc, w.taken, w.log, w.ret;
    }

    function View(): World
      reads this
    {
      World(registry, entries, positions, states, holdings, markets, usdc, taken, log, ret)
    }

    /** The accounts go back to a snapshot. */
    method Restore(w: World)
      modifies this
      ensures View() == w
    {
      registry, entries, positions, states, holdings := w.registry, w.entries, w.positions, w.states, w.holdings;
      markets, usdc, taken, log, ret := w.markets, w.usdc, w.taken, w.log, w.ret;
    }

    /** SPL token transfer; nothing moves when it fails. */
    method TransferTokens(from: UsdcAccount, to: UsdcAccount, amount: nat) returns (r: Result<(), Protocol.TokenError>)
      modifies `usdc
      ensures var t := Protocol.Transfer(old(usdc), from, to, amount);
        if t.Ok? then r.Ok? && usdc == t.value else r == Err(t.error) && usdc == old(usdc)
    {
      if from !in usdc || to !in usdc { return Err(Protocol.UnknownAccount); }
      if usdc[from] < amount { return Err(Protocol.InsufficientFunds); }
      if from == to { return Ok(()); }
      if usdc[to] + amount >= TWO64 { return Err(Protocol.Overflow); }
      usdc := usdc[from := usdc[from] - amount];
      usdc := usdc[to := usdc[to] + amount];
      return Ok(());
    }

    /** A call into the position's protocol, with the outcome the protocol chose. */
    method Invoke(pos: PositionId, signed: bool, cpi: Protocol.Cpi) returns (r: Result<(), AdapterError>)
      modifies `usdc, `holdings, `markets, `ret
      ensures Agrees(r, View(), Protocol.Invoke(old(View()), pos, signed, cpi))
    {
      if cpi.CpiFails? || pos !in holdings { return Err(CpiFailed); }
      var id := MarketId(pos.program, holdings[pos].market);
      if id !in markets || Pool(pos) !in usdc || Vault(id) !in usdc { return Err(CpiFailed); }
      if !signed && (cpi.flow < 0 || cpi.amount < holdings[pos].amount) { return Err(CpiFailed); }
      var pool, vault := usdc[Pool(pos)] + cpi.flow, usdc[Vault(id)] - cpi.flow;
      if pool < 0 || pool >= TWO64 || vault < 0 || vault >= TWO64 { return Err(CpiFailed); }
      var cap := Protocol.ShareCap(pos.program);
      if cpi.amount >= cap || cpi.supply >= cap { return Err(CpiFailed); }
      usdc := usdc[Pool(pos) := pool][Vault(id) := vault];
      holdings := holdings[pos := holdings[pos].(amount := cpi.amount)];
      markets := markets[id := Market(cpi.supply, cpi.prices)];
      ret := cpi.ret;
      return Ok(());
    }

    /** `set_u64_return`, called by a program. */
    method SetU64Return(program: Program, value: U64)
      modifies `ret
      ensures ret == Some(AdapterInterface.U64Return(program, value))
    {
      ret := Some(ReturnData(program, LeBytes(value, 8)));
    }

    method Emit(e: Event)
      modifies `log
      ensures log == old(log) + [e]
    {
      log := log + [e];
    }
  }
}
