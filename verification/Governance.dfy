/** The registry and the position table over whole runs. */
module Governance {
  import opened Machine
  import opened Accounts
  import opened Protocol
  import opened DispatcherSpec
  import opened Inversion
  import AdapterInterface
  import AdapterSpec

  ghost predicate EntriesInv(registry: Option<Registry>, entries: map<Program, AdapterEntry>) {
    && (registry.None? ==> entries == map[])
    && (registry.Some? ==> registry.value.adapterCount == |entries| <= 256)
    && (forall p | p in entries ::
          && entries[p].program == p
          && entries[p].version == 1
          && |entries[p].name| <= 32)
  }

  ghost predicate PositionsInv(entries: map<Program, AdapterEntry>, positions: map<PositionId, Position>,
                               usdc: map<UsdcAccount, nat>) {
    forall pos | pos in positions ::
      && positions[pos] == Position(pos.owner, pos.program)
      && pos.program in entries
      && Pool(pos) in usdc
  }

  ghost predicate StatesInv(positions: map<PositionId, Position>, states: map<PositionId, AdapterState>,
                            holdings: map<PositionId, Holding>) {
    && holdings.Keys == positions.Keys
    && (forall pos | pos in states ::
          pos in positions && pos.program.IsReference()
          && states[pos].position == pos && states[pos].program == pos.program)
    && (forall pos | pos in positions && pos.program.IsReference() :: pos in states)
  }

  /** Count, versions and names of the registry; every position has its entry, its own fields, its pool
      and share account, and, for a reference adapter, its state. */
  ghost predicate RegistryInv(w: World) {
    && EntriesInv(w.registry, w.entries)
    && PositionsInv(w.entries, w.positions, w.usdc)
    && StatesInv(w.positions, w.states, w.holdings)
  }

  ghost predicate EntriesGrown(registry: Option<Registry>, entries: map<Program, AdapterEntry>,
                               registry1: Option<Registry>, entries1: map<Program, AdapterEntry>) {
    && (registry.Some? ==>
          && registry1.Some?
          && registry1.value.admin == registry.value.admin
          && registry.value.adapterCount <= registry1.value.adapterCount)
    && (forall p | p in entries :: p in entries1 && entries1[p].(isActive := true) == entries[p].(isActive := true))
  }

  /** What later states keep of earlier ones: the admin, the count, every entry but for its pause
      switch, and every position. */
  ghost predicate Grown(w: World, w1: World) {
    && EntriesGrown(w.registry, w.entries, w1.registry, w1.entries)
    && (forall pos | pos in w.positions :: pos in w1.positions && w1.positions[pos] == w.positions[pos])
  }

  lemma SameTablesKeep(w: World, w1: World)
    requires RegistryInv(w) && SameTables(w, w1)
    ensures RegistryInv(w1) && Grown(w, w1)
  {}

  lemma PositionAdded(entries: map<Program, AdapterEntry>, positions: map<PositionId, Position>,
                      usdc: map<UsdcAccount, nat>, pos: PositionId, usdc1: map<UsdcAccount, nat>)
    requires PositionsInv(entries, positions, usdc)
    requires pos.program in entries && usdc.Keys <= usdc1.Keys && Pool(pos) in usdc1
    ensures PositionsInv(entries, positions[pos := Position(pos.owner, pos.program)], usdc1)
  {}

  lemma StateAdded(positions: map<PositionId, Position>, states: map<PositionId, AdapterState>,
                   holdings: map<PositionId, Holding>, pos: PositionId, p: Position,
                   states1: map<PositionId, AdapterState>, holdings1: map<PositionId, Holding>)
    requires StatesInv(positions, states, holdings)
    requires holdings1.Keys == holdings.Keys + {pos}
    requires states1 == if pos.program.IsReference() then states[pos := AdapterState(pos, pos.program, 0)] else states
    ensures StatesInv(positions[pos := p], states1, holdings1)
  {}

  lemma OpenRegistry(w: World, a: Action)
    requires RegistryInv(w) && a.OpenPosition? && Handle(w, a).Ok?
    ensures RegistryInv(Handle(w, a).value.0) && Grown(w, Handle(w, a).value.0)
  {
    hide Handle, PositionsInv, StatesInv, EntriesInv;
    OpenSteps(w, a);
    var w1 := Handle(w, a).value.0;
    var pos := PositionId(a.owner, a.program);
    PositionAdded(w.entries, w.positions, w.usdc, pos, w1.usdc);
    StateAdded(w.positions, w.states, w.holdings, pos, Position(a.owner, a.program), w1.states, w1.holdings);
  }

  lemma RoutedRegistry(w: World, a: Action)
    requires RegistryInv(w) && a.Routed() && Handle(w, a).Ok?
    ensures RegistryInv(Handle(w, a).value.0) && Grown(w, Handle(w, a).value.0)
  {
    hide Handle;
    if a.OpenPosition? {
      OpenRegistry(w, a);
    } else {
      if a.Deposit? { DepositSteps(w, a); }
      if a.Withdraw? { WithdrawSteps(w, a); }
      if a.CurrentValue? { ValueSteps(w, a); }
      SameTablesKeep(w, Handle(w, a).value.0);
    }
  }

  lemma EntryAdded(registry: Registry, entries: map<Program, AdapterEntry>, program: Program, name: seq<Byte>,
                   registry1: Registry)
    requires EntriesInv(Some(registry), entries)
    requires program !in entries && |name| <= 32 && registry.adapterCount < 256
    requires registry1 == registry.(adapterCount := registry.adapterCount + 1)
    ensures EntriesInv(Some(registry1), entries[program := AdapterEntry(program, 1, name, true)])
  {
    assert entries[program := AdapterEntry(program, 1, name, true)].Keys == entries.Keys + {program};
  }

  lemma EntrySwitched(registry: Option<Registry>, entries: map<Program, AdapterEntry>, program: Program, active: bool)
    requires EntriesInv(registry, entries) && program in entries
    ensures EntriesInv(registry, entries[program := entries[program].(isActive := active)])
  {
    assert entries[program := entries[program].(isActive := active)].Keys == entries.Keys;
  }

  lemma GovernanceRegistry(w: World, a: Action)
    requires RegistryInv(w) && !a.Routed() && !Environment(a) && Handle(w, a).Ok?
    ensures RegistryInv(Handle(w, a).value.0) && Grown(w, Handle(w, a).value.0)
  {
    hide Handle, StatesInv;
    GovernanceSteps(w, a);
    match a
    case WhitelistAdapter(_, program, name, _, _) =>
      hide EntriesInv;
      EntryAdded(w.registry.value, w.entries, program, name, Handle(w, a).value.0.registry.value);
    case PauseAdapter(_, program, paused) =>
      hide EntriesInv;
      EntrySwitched(w.registry, w.entries, program, !paused);
    case _ =>
  }

  lemma StepRegistry(w: World, a: Action)
    requires RegistryInv(w)
    ensures RegistryInv(Step(w, a)) && Grown(w, Step(w, a))
  {
    hide Handle;
    if Handle(w, a).Ok? {
      if a.Routed() {
        RoutedRegistry(w, a);
      } else if Environment(a) {
        EnvironmentSteps(w, a);
        SameTablesKeep(w, Handle(w, a).value.0);
      } else {
        GovernanceRegistry(w, a);
      }
    }
  }

  /** The registry invariant holds in every state of every run, and nothing recorded is ever lost. */
  lemma {:induction false} RunRegistry(w: World, actions: seq<Action>)
    requires RegistryInv(w)
    ensures RegistryInv(Run(w, actions)) && Grown(w, Run(w, actions))
    decreases |actions|
  {
    if actions != [] {
      StepRegistry(w, actions[0]);
      RunRegistry(Step(w, actions[0]), actions[1..]);
      GrownTransitive(w, Step(w, actions[0]), Run(w, actions));
    }
  }

  lemma GrownTransitive(w: World, w1: World, w2: World)
    requires Grown(w, w1) && Grown(w1, w2)
    ensures Grown(w, w2)
  {
    forall p | p in w.entries
      ensures p in w2.entries && w2.entries[p].(isActive := true) == w.entries[p].(isActive := true)
    {
      assert p in w1.entries;
    }
    forall pos | pos in w.positions
      ensures pos in w2.positions && w2.positions[pos] == w.positions[pos]
    {
      assert pos in w1.positions;
    }
  }

  lemma InitialRegistry(w: World)
    requires Initial(w)
    ensures RegistryInv(w)
  {}

  lemma ChecksPass(w: World, pos: PositionId, owner: nat, wallet: UsdcAccount)
    requires RegistryInv(w) && pos.owner == owner
    ensures pos.program in w.entries ==> SameVersion(w, pos.program).Ok?
    ensures Live(w, pos.program) != Err(DispatcherError.VersionMismatch)
    ensures FundMovement(w, pos, owner, wallet) != Err(DispatcherError.VersionMismatch)
    ensures FundMovement(w, pos, owner, wallet) != Err(DispatcherError.Unauthorized)
    ensures Live(w, pos.program).Ok? || FundMovement(w, pos, owner, wallet).Ok? ==> pos.program in w.entries
  {}

  lemma RoutedErrors(r: Result<World, AdapterError>, program: Program)
    ensures Routed(r).Err? ==> Routed(r).error == DispatcherError.AdapterMismatch
    ensures var v := RoutedValue(r, program);
      v.Err? ==> v.error == DispatcherError.AdapterMismatch || v.error == DispatcherError.MissingReturnData
  {
    hide AdapterInterface.GetU64Return;
  }

  lemma DeadNow(w: World, a: Action)
    requires RegistryInv(w)
    ensures a.Routed() ==> Handle(w, a) != Err(DispatcherError.VersionMismatch)
    ensures a.Deposit? || a.Withdraw? ==> Handle(w, a) != Err(DispatcherError.Unauthorized)
  {
    hide RegistryInv, Live, FundMovement, SameVersion, Routed, RoutedValue, Transfer,
      AdapterSpec.Initialize, AdapterSpec.Deposit, AdapterSpec.Withdraw, AdapterSpec.CurrentValue;
    match a
    case OpenPosition(tx, owner, program, market, cpis) =>
      var pos := PositionId(owner, program);
      ChecksPass(w, pos, owner, Pool(pos));
      RoutedErrors(AdapterSpec.Initialize(Opened(w, a), tx, pos, market, [], cpis), program);
    case Deposit(tx, owner, program, wallet, amount, cpis) =>
      var pos := PositionId(owner, program);
      ChecksPass(w, pos, owner, wallet);
      RoutedErrors(AdapterSpec.Deposit(Funded(w, a), tx, pos, amount, [], cpis), program);
    case Withdraw(tx, owner, program, wallet, shares, cpis) =>
      var pos := PositionId(owner, program);
      ChecksPass(w, pos, owner, wallet);
      RoutedErrors(AdapterSpec.Withdraw(w, tx, pos, shares, [], cpis), program);
    case CurrentValue(tx, owner, program, vaultBalance, cpis) =>
      var pos := PositionId(owner, program);
      ChecksPass(w, pos, owner, Pool(pos));
      RoutedErrors(AdapterSpec.CurrentValue(w, tx, pos, [], vaultBalance, cpis), program);
    case _ =>
  }

  /** Checks that can never fire: the routed instructions' version check, the stored-owner check of
      fund movements, and the count's checked addition. */
  lemma DeadChecks(w: World, actions: seq<Action>, a: Action)
    requires Initial(w)
    ensures a.Routed() ==> Handle(Run(w, actions), a) != Err(DispatcherError.VersionMismatch)
    ensures a.Deposit? || a.Withdraw? ==> Handle(Run(w, actions), a) != Err(DispatcherError.Unauthorized)
    ensures a.WhitelistAdapter? ==> Handle(Run(w, actions), a) != Err(DispatcherError.MathOverflow)
  {
    InitialRegistry(w);
    RunRegistry(w, actions);
    DeadNow(Run(w, actions), a);
    hide Run, RegistryInv, Initial;
    if !a.WhitelistAdapter? { hide Handle; }
  }

  /** A position is opened once: whatever happens in between, opening it again fails and changes nothing. */
  lemma OpensOnce(w: World, actions: seq<Action>, a: Action)
    requires RegistryInv(w) && a.OpenPosition? && PositionId(a.owner, a.program) in w.positions
    ensures Handle(Run(w, actions), a).Err? && Step(Run(w, actions), a) == Run(w, actions)
  {
    hide AdapterSpec.Initialize, Run;
    RunRegistry(w, actions);
  }
}
