/** What lies outside the repository: token transfers and the calls into the yield protocols. */
module Protocol {
  import opened Machine
  import opened Accounts

  datatype TokenError = UnknownAccount | InsufficientFunds | Overflow

  /** SPL transfer of an exact amount. */
  function Transfer(usdc: map<UsdcAccount, nat>, from: UsdcAccount, to: UsdcAccount, amount: nat)
    : Result<map<UsdcAccount, nat>, TokenError>
  {
    if from !in usdc || to !in usdc then Err(UnknownAccount)
    else if usdc[from] < amount then Err(InsufficientFunds)
    else if from == to then Ok(usdc)
    else if usdc[to] + amount >= TWO64 then Err(Overflow)
    else Ok(usdc[from := usdc[from] - amount][to := usdc[to] + amount])
  }

  /** The outcome the protocol chooses for one call. `flow` is the USDC it moves from the market's
      vault into the position's pool (negative when it takes USDC); the other fields are new values.
      `ret` is whatever return data is left behind, by any program. */
  datatype Cpi =
    | CpiFails
    | CpiDone(flow: int, amount: U128, supply: U128, prices: Prices, ret: Option<ReturnData>)

  /** The outcome of the k-th call an adapter makes. */
  function CpiAt(cpis: seq<Cpi>, k: nat): Cpi {
    if k < |cpis| then cpis[k] else CpiFails
  }

  /** Width of the share counter of each protocol: SPL amounts, MarginFi's i128, Drift's u128. */
  function ShareCap(program: Program): nat {
    match program
    case MarginFi => TWO127
    case Drift => TWO128
    case _ => TWO64
  }

  /** Kamino, Jupiter and Maple shares are tokens in an account that initialize creates for the position;
      MarginFi's and Drift's are numbers in an account that belongs to whatever program wrote it. */
  predicate HoldsTokens(program: Program) {
    program.Kamino? || program.Jupiter? || program.Maple?
  }

  /** One call into the protocol on behalf of a position. The token program refuses balances that
      do not fit, and anything leaving the position unless the position's signature came along;
      shares, recorded supply and prices are whatever the protocol writes. */
  function Invoke(w: World, pos: PositionId, signed: bool, cpi: Cpi): Result<World, AdapterError> {
    if cpi.CpiFails? || pos !in w.holdings then Err(CpiFailed)
    else
      var id := MarketOf(w, pos);
      if id !in w.markets || Pool(pos) !in w.usdc || Vault(id) !in w.usdc then Err(CpiFailed)
      else
        var pool, vault := w.usdc[Pool(pos)] + cpi.flow, w.usdc[Vault(id)] - cpi.flow;
        if !signed && (cpi.flow < 0 || cpi.amount < w.holdings[pos].amount) then Err(CpiFailed)
        else if !(0 <= pool < TWO64) || !(0 <= vault < TWO64) then Err(CpiFailed)
        else if cpi.amount >= ShareCap(pos.program) || cpi.supply >= ShareCap(pos.program) then Err(CpiFailed)
        else Ok(w.(usdc := w.usdc[Pool(pos) := pool][Vault(id) := vault],
                   holdings := w.holdings[pos := w.holdings[pos].(amount := cpi.amount)],
                   markets := w.markets[id := Market(cpi.supply, cpi.prices)],
                   ret := cpi.ret))
  }

  /** The first n calls, in order. */
  function InvokeAll(w: World, pos: PositionId, signed: bool, cpis: seq<Cpi>, n: nat): Result<World, AdapterError> {
    if n == 0 then Ok(w)
    else
      var w1 :- InvokeAll(w, pos, signed, cpis, n - 1);
      Invoke(w1, pos, signed, CpiAt(cpis, n - 1))
  }

  lemma OneCall(w: World, pos: PositionId, signed: bool, cpis: seq<Cpi>)
    ensures InvokeAll(w, pos, signed, cpis, 1) == Invoke(w, pos, signed, CpiAt(cpis, 0))
  {}

  lemma TwoCalls(w: World, pos: PositionId, signed: bool, cpis: seq<Cpi>)
    ensures var r := Invoke(w, pos, signed, CpiAt(cpis, 0));
      InvokeAll(w, pos, signed, cpis, 2) == if r.Ok? then Invoke(r.value, pos, signed, CpiAt(cpis, 1)) else r
  {
    OneCall(w, pos, signed, cpis);
  }

  /** When a transfer goes through, and what it leaves. */
  lemma TransferSucceedsIff(usdc: map<UsdcAccount, nat>, from: UsdcAccount, to: UsdcAccount, amount: nat)
    ensures Transfer(usdc, from, to, amount).Ok? <==>
        && from in usdc && to in usdc && amount <= usdc[from]
        && (from == to || usdc[to] + amount < 0x1_0000_0000_0000_0000)
    ensures Transfer(usdc, from, to, amount).Ok? ==>
      var usdc1 := Transfer(usdc, from, to, amount).value;
      && usdc1.Keys == usdc.Keys
      && (forall x | x in usdc && x != from && x != to :: usdc1[x] == usdc[x])
      && (if from == to then usdc1[from] == usdc[from]
          else usdc1[from] == usdc[from] - amount && usdc1[to] == usdc[to] + amount)
  {}
}
