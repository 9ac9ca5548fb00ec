/** The dispatcher's seven instructions and the environment's steps as one transition function. */
module DispatcherSpec {
  import opened Machine
  import opened Accounts
  import opened Protocol
  import AdapterInterface
  import AdapterSpec

  const MAX_NAME_LEN: nat := 32
  const MAX_ADAPTERS: nat := 256

  datatype DispatcherError =
    | Unauthorized
    | AdapterInactive
    | VersionMismatch
    | RegistryFull
    | NameTooLong
    | ZeroAmount
    | MathOverflow
    | NotExecutable
    | MissingReturnData
    | AdapterMismatch
    | AccountMissing
    | AccountExists
    | WrongTokenOwner
    | TokenFailed(why: TokenError)

  datatype Action =
    // governance
    | InitializeRegistry(signer: nat)
    | WhitelistAdapter(signer: nat, program: Program, name: seq<Byte>, version: nat, executable: bool)
    | PauseAdapter(signer: nat, program: Program, paused: bool)
    // routed to an adapter
    | OpenPosition(tx: Transaction, owner: nat, program: Program, market: nat, cpis: seq<Cpi>)
    | Deposit(tx: Transaction, owner: nat, program: Program, wallet: UsdcAccount, amount: U64, cpis: seq<Cpi>)
    | Withdraw(tx: Transaction, owner: nat, program: Program, wallet: UsdcAccount, shares: U64, cpis: seq<Cpi>)
    | CurrentValue(tx: Transaction, owner: nat, program: Program, vaultBalance: U64, cpis: seq<Cpi>)
    // environment: anything others may do to the shared accounts
    | CreateTokenAccount(account: UsdcAccount)
    | MoveUsdc(from: UsdcAccount, to: UsdcAccount, quantity: nat)
    | MoveMarket(id: MarketId, supply: U128, prices: Prices)
    | MoveShares(position: PositionId, held: U128)
    | CreateShareAccount(position: PositionId, market: nat)
  {
    predicate Routed() {
      OpenPosition? || Deposit? || Withdraw? || CurrentValue?
    }
  }

  type Outcome = Result<(World, nat), DispatcherError>

  // ----- governance -----

  function HandleInitializeRegistry(w: World, signer: nat): Outcome {
    if w.registry.Some? then Err(DispatcherError.AccountExists)
    else Ok((w.(registry := Some(Registry(signer, 0))), 0))
  }

  function HandleWhitelistAdapter(w: World, signer: nat, program: Program, name: seq<Byte>, version: nat, executable: bool)
    : Outcome
  {
    if w.registry.None? then Err(DispatcherError.AccountMissing)
    else if w.registry.value.admin != signer then Err(DispatcherError.Unauthorized)
    else if program in w.entries then Err(DispatcherError.AccountExists)
    else if !executable then Err(DispatcherError.NotExecutable)
    else if |name| > MAX_NAME_LEN then Err(DispatcherError.NameTooLong)
    else if version != AdapterInterface.ADAPTER_INTERFACE_VERSION then Err(DispatcherError.VersionMismatch)
    else if w.registry.value.adapterCount >= MAX_ADAPTERS then Err(DispatcherError.RegistryFull)
    else
      var count := w.registry.value.adapterCount + 1;
      if count >= 0x1_0000_0000 then Err(DispatcherError.MathOverflow)
      else Ok((w.(registry := Some(w.registry.value.(adapterCount := count)),
                  entries := w.entries[program := AdapterEntry(program, version, name, true)],
                  log := w.log + [AdapterWhitelisted(program, name, version)]), 0))
  }

  function HandlePauseAdapter(w: World, signer: nat, program: Program, paused: bool): Outcome {
    if w.registry.None? || program !in w.entries then Err(DispatcherError.AccountMissing)
    else if w.registry.value.admin != signer then Err(DispatcherError.Unauthorized)
    else Ok((w.(entries := w.entries[program := w.entries[program].(isActive := !paused)],
                log := w.log + [AdapterPaused(program, !paused)]), 0))
  }

  // ----- routing -----

  /** A failed adapter call surfaces as AdapterMismatch. */
  function Routed(r: Result<World, AdapterError>): Result<World, DispatcherError> {
    match r case Ok(w) => Ok(w) case Err(_) => Err(DispatcherError.AdapterMismatch)
  }

  function RoutedValue(r: Result<World, AdapterError>, program: Program): Outcome {
    var w1 :- Routed(r);
    match AdapterInterface.GetU64Return(w1.ret, program)
    case None => Err(DispatcherError.MissingReturnData)
    case Some(v) => Ok((w1, v))
  }

  /** The entry is there and active; the version is the dispatcher's own. */
  function Live(w: World, program: Program): Result<(), DispatcherError> {
    if program !in w.entries then Err(DispatcherError.AccountMissing)
    else if !w.entries[program].isActive then Err(DispatcherError.AdapterInactive)
    else Ok(())
  }

  function SameVersion(w: World, program: Program): Result<(), DispatcherError>
    requires program in w.entries
  {
    if w.entries[program].version != AdapterInterface.ADAPTER_INTERFACE_VERSION then
      Err(DispatcherError.VersionMismatch)
    else Ok(())
  }

  function HandleOpenPosition(w: World, tx: Transaction, owner: nat, program: Program, market: nat, cpis: seq<Cpi>): Outcome {
    var pos := PositionId(owner, program);
    var _ :- Live(w, program);
    if pos in w.positions || Pool(pos) in w.usdc then Err(DispatcherError.AccountExists)
    else
      var _ :- SameVersion(w, program);
      var w0 := w.(positions := w.positions[pos := Position(owner, program)], usdc := w.usdc[Pool(pos) := 0]);
      var w1 :- Routed(AdapterSpec.Initialize(w0, tx, pos, market, [], cpis));
      Ok((w1.(log := w1.log + [PositionOpened(pos)]), 0))
  }

  /** Accounts and constraints that deposit and withdraw share. */
  function FundMovement(w: World, pos: PositionId, owner: nat, wallet: UsdcAccount): Result<(), DispatcherError> {
    if pos.program !in w.entries || pos !in w.positions || Pool(pos) !in w.usdc || wallet !in w.usdc then
      Err(DispatcherError.AccountMissing)
    else
      var _ :- Live(w, pos.program);
      if w.positions[pos].program != pos.program then Err(DispatcherError.AdapterMismatch)
      else if w.positions[pos].owner != owner then Err(DispatcherError.Unauthorized)
      else if !wallet.Wallet? || wallet.owner != owner then Err(DispatcherError.WrongTokenOwner)
      else Ok(())
  }

  function HandleDeposit(w: World, tx: Transaction, owner: nat, program: Program, wallet: UsdcAccount, amount: U64, cpis: seq<Cpi>)
    : Outcome
  {
    var pos := PositionId(owner, program);
    var _ :- FundMovement(w, pos, owner, wallet);
    if amount == 0 then Err(DispatcherError.ZeroAmount)
    else
      var _ :- SameVersion(w, program);
      match Transfer(w.usdc, wallet, Pool(pos), amount)
      case Err(e) => Err(TokenFailed(e))
      case Ok(usdc) =>
        var (w1, shares) :- RoutedValue(AdapterSpec.Deposit(w.(usdc := usdc), tx, pos, amount, [], cpis), program);
        Ok((w1.(log := w1.log + [Deposited(pos, amount, shares)]), shares))
  }

  function HandleWithdraw(w: World, tx: Transaction, owner: nat, program: Program, wallet: UsdcAccount, shares: U64, cpis: seq<Cpi>)
    : Outcome
  {
    var pos := PositionId(owner, program);
    var _ :- FundMovement(w, pos, owner, wallet);
    if shares == 0 then Err(DispatcherError.ZeroAmount)
    else
      var _ :- SameVersion(w, program);
      var (w1, amountOut) :- RoutedValue(AdapterSpec.Withdraw(w, tx, pos, shares, [], cpis), program);
      match if amountOut > 0 then Transfer(w1.usdc, Pool(pos), wallet, amountOut) else Ok(w1.usdc)
      case Err(e) => Err(TokenFailed(e))
      case Ok(usdc) =>
        Ok((w1.(usdc := usdc, log := w1.log + [Withdrawn(pos, shares, amountOut)]), amountOut))
  }

  function HandleCurrentValue(w: World, tx: Transaction, owner: nat, program: Program, vaultBalance: U64, cpis: seq<Cpi>)
    : Outcome
  {
    var pos := PositionId(owner, program);
    if program !in w.entries || pos !in w.positions then Err(DispatcherError.AccountMissing)
    else
      var _ :- Live(w, program);
      if w.positions[pos].program != program then Err(DispatcherError.AdapterMismatch)
      else
        var _ :- SameVersion(w, program);
        var (w1, value) :-
          RoutedValue(AdapterSpec.CurrentValue(w, tx, pos, [], vaultBalance, cpis), program);
        Ok((w1.(ret := Some(AdapterInterface.U64Return(Dispatcher, value)),
                log := w1.log + [ValueRead(pos, value)]), value))
  }

  // ----- environment -----

  function HandleCreateTokenAccount(w: World, account: UsdcAccount): Outcome {
    if account in w.usdc then Err(DispatcherError.AccountExists)
    else Ok((w.(usdc := w.usdc[account := 0]), 0))
  }

  /** Owners move their wallets and protocols their vaults; only the dispatcher signs for a pool. */
  function HandleMoveUsdc(w: World, from: UsdcAccount, to: UsdcAccount, amount: nat): Outcome {
    if from.Pool? then Err(DispatcherError.Unauthorized)
    else
      match Transfer(w.usdc, from, to, amount)
      case Err(e) => Err(TokenFailed(e))
      case Ok(usdc) => Ok((w.(usdc := usdc), 0))
  }

  /** A market's accounts are rewritten, or appear. */
  function HandleMoveMarket(w: World, id: MarketId, supply: U128, prices: Prices): Outcome {
    if supply >= ShareCap(id.program) then Err(TokenFailed(Overflow))
    else Ok((w.(markets := w.markets[id := Market(supply, prices)]), 0))
  }

  /** Others send shares to a position's token account, which only the position signs for; an account
      of a protocol's own may come to say anything. */
  function HandleMoveShares(w: World, pos: PositionId, amount: U128): Outcome {
    if pos !in w.holdings then Err(DispatcherError.AccountMissing)
    else if amount >= ShareCap(pos.program) then Err(TokenFailed(Overflow))
    else if HoldsTokens(pos.program) && amount < w.holdings[pos].amount then Err(TokenFailed(InsufficientFunds))
    else Ok((w.(holdings := w.holdings[pos := w.holdings[pos].(amount := amount)]), 0))
  }

  /** Anyone may create a token account at anyone's associated address, once. */
  function HandleCreateShareAccount(w: World, pos: PositionId, market: nat): Outcome {
    if !HoldsTokens(pos.program) then Err(DispatcherError.Unauthorized)
    else if ShareAccount(pos, market) in w.taken || (pos in w.holdings && w.holdings[pos].market == market) then
      Err(DispatcherError.AccountExists)
    else Ok((w.(taken := w.taken + {ShareAccount(pos, market)}), 0))
  }

  // ----- transactions and runs -----

  function Handle(w: World, a: Action): Outcome {
    match a
    case InitializeRegistry(signer) => HandleInitializeRegistry(w, signer)
    case WhitelistAdapter(signer, program, name, version, executable) =>
      HandleWhitelistAdapter(w, signer, program, name, version, executable)
    case PauseAdapter(signer, program, paused) => HandlePauseAdapter(w, signer, program, paused)
    case OpenPosition(tx, owner, program, market, cpis) => HandleOpenPosition(w, tx, owner, program, market, cpis)
    case Deposit(tx, owner, program, wallet, amount, cpis) => HandleDeposit(w, tx, owner, program, wallet, amount, cpis)
    case Withdraw(tx, owner, program, wallet, shares, cpis) => HandleWithdraw(w, tx, owner, program, wallet, shares, cpis)
    case CurrentValue(tx, owner, program, vaultBalance, cpis) => HandleCurrentValue(w, tx, owner, program, vaultBalance, cpis)
    case CreateTokenAccount(account) => HandleCreateTokenAccount(w, account)
    case MoveUsdc(from, to, amount) => HandleMoveUsdc(w, from, to, amount)
    case MoveMarket(id, supply, prices) => HandleMoveMarket(w, id, supply, prices)
    case MoveShares(pos, held) => HandleMoveShares(w, pos, held)
    case CreateShareAccount(pos, market) => HandleCreateShareAccount(w, pos, market)
  }

  /** A transaction starts with an empty return-data slot and commits only if its instruction succeeds. */
  function Step(w: World, a: Action): World {
    match Handle(w, a)
    case Ok((w1, _)) => w1.(ret := None)
    case Err(_) => w
  }

  function Run(w: World, actions: seq<Action>): World
    decreases |actions|
  {
    if actions == [] then w else Run(Step(w, actions[0]), actions[1..])
  }

  /** Any starting point: wallets, vaults and markets as they are, nothing of the system created yet. */
  ghost predicate Initial(w: World) {
    && w.registry.None? && w.entries == map[] && w.positions == map[]
    && w.states == map[] && w.holdings == map[] && w.log == [] && w.ret.None?
    && forall id | id in w.markets ::
         w.markets[id].supply < ShareCap(id.program)
  }
}
