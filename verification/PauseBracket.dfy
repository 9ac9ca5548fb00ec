/** Pausing an adapter stops everything routed to it and changes nothing else. */
module PauseBracket {
  import opened Machine
  import opened Accounts
  import opened Protocol
  import opened DispatcherSpec
  import opened Inversion
  import opened ReturnChannel
  import AdapterInterface
  import AdapterSpec

  predicate RoutedTo(a: Action, p: Program) {
    a.Routed() && a.program == p
  }

  /** The admin's own switch of an adapter; anyone else's attempt is refused and changes nothing. */
  predicate Switches(a: Action, p: Program, admin: nat) {
    a.PauseAdapter? && a.program == p && a.signer == admin
  }

  /** Nothing routed to a paused adapter succeeds. */
  lemma RejectedWhilePaused(w: World, a: Action)
    requires a.Routed() && (a.program !in w.entries || !w.entries[a.program].isActive)
    ensures Handle(w, a).Err? && Step(w, a) == w
  {
    hide AdapterSpec.Initialize, AdapterSpec.Deposit, AdapterSpec.Withdraw, AdapterSpec.CurrentValue, Transfer;
  }

  // ----- the adapters and protocols do not look at the entries or the log -----

  /** The same accounts under other entries and another log. */
  function Dress(w: World, entries: map<Program, AdapterEntry>, log: seq<Event>): World {
    w.(entries := entries, log := log)
  }

  /** Two results that differ in entries and log only. */
  ghost predicate Agree(ru: Result<World, AdapterError>, rw: Result<World, AdapterError>,
                        entries: map<Program, AdapterEntry>) {
    match rw
    case Ok(w1) => ru.Ok? && ru.value == Dress(w1, entries, ru.value.log)
    case Err(e) => ru == Err(e)
  }

  lemma InvokeAgrees(w: World, pos: PositionId, signed: bool, cpi: Cpi,
                     entries: map<Program, AdapterEntry>, log: seq<Event>)
    ensures Agree(Invoke(Dress(w, entries, log), pos, signed, cpi), Invoke(w, pos, signed, cpi), entries)
  {}

  lemma {:induction false} InvokeAllAgrees(w: World, pos: PositionId, signed: bool, cpis: seq<Cpi>, n: nat,
                                           entries: map<Program, AdapterEntry>, log: seq<Event>)
    ensures Agree(InvokeAll(Dress(w, entries, log), pos, signed, cpis, n), InvokeAll(w, pos, signed, cpis, n), entries)
  {
    hide Invoke;
    if n > 0 {
      InvokeAllAgrees(w, pos, signed, cpis, n - 1, entries, log);
      var r := InvokeAll(w, pos, signed, cpis, n - 1);
      if r.Ok? {
        InvokeAgrees(r.value, pos, signed, CpiAt(cpis, n - 1), entries,
                     InvokeAll(Dress(w, entries, log), pos, signed, cpis, n - 1).value.log);
      }
    }
  }

  lemma InitializeAgrees(w: World, tx: Transaction, pos: PositionId, market: nat, cpis: seq<Cpi>,
                         entries: map<Program, AdapterEntry>, log: seq<Event>)
    ensures Agree(AdapterSpec.Initialize(Dress(w, entries, log), tx, pos, market, [], cpis),
                  AdapterSpec.Initialize(w, tx, pos, market, [], cpis), entries)
  {
    var w0 := w.(holdings := w.holdings[pos := Holding(market, 0)]);
    assert Dress(w0, entries, log) == Dress(w, entries, log).(holdings := w.holdings[pos := Holding(market, 0)]);
    InvokeAllAgrees(w0, pos, true, cpis, if pos.program.IsReference() then AdapterSpec.InitializeCalls(pos.program) else 1,
                    entries, log);
    hide InvokeAll;
  }

  lemma DepositAgrees(w: World, tx: Transaction, pos: PositionId, amount: U64, cpis: seq<Cpi>,
                      entries: map<Program, AdapterEntry>, log: seq<Event>)
    ensures Agree(AdapterSpec.Deposit(Dress(w, entries, log), tx, pos, amount, [], cpis),
                  AdapterSpec.Deposit(w, tx, pos, amount, [], cpis), entries)
  {
    hide InvokeAll, AdapterSpec.SharesMinted, ToU64, AdapterInterface.U64Return, AdapterInterface.CalledByDispatcher;
    if pos.program.IsReference() {
      InvokeAllAgrees(w, pos, true, cpis, AdapterSpec.DepositCalls(pos.program), entries, log);
    } else {
      InvokeAllAgrees(w, pos, true, cpis, 1, entries, log);
    }
  }

  lemma WithdrawAgrees(w: World, tx: Transaction, pos: PositionId, shares: U64, cpis: seq<Cpi>,
                       entries: map<Program, AdapterEntry>, log: seq<Event>)
    ensures Agree(AdapterSpec.Withdraw(Dress(w, entries, log), tx, pos, shares, [], cpis),
                  AdapterSpec.Withdraw(w, tx, pos, shares, [], cpis), entries)
  {
    hide InvokeAll, AdapterSpec.SharesLeft, ToU64, AdapterInterface.U64Return, AdapterInterface.CalledByDispatcher;
    if pos.program.IsReference() {
      InvokeAllAgrees(w, pos, true, cpis, AdapterSpec.WithdrawCalls(pos.program), entries, log);
    } else {
      InvokeAllAgrees(w, pos, true, cpis, 1, entries, log);
    }
  }

  lemma ValueOfAgrees(w: World, pos: PositionId, vaultBalance: U64,
                      entries: map<Program, AdapterEntry>, log: seq<Event>)
    ensures AdapterSpec.ValueOf(Dress(w, entries, log), pos, vaultBalance) == AdapterSpec.ValueOf(w, pos, vaultBalance)
  {}

  lemma ValueAgrees(w: World, tx: Transaction, pos: PositionId, vaultBalance: U64, cpis: seq<Cpi>,
                    entries: map<Program, AdapterEntry>, log: seq<Event>)
    ensures Agree(AdapterSpec.CurrentValue(Dress(w, entries, log), tx, pos, [], vaultBalance, cpis),
                  AdapterSpec.CurrentValue(w, tx, pos, [], vaultBalance, cpis), entries)
  {
    var n := if pos.program.IsReference() then AdapterSpec.ValueCalls(pos.program) else 1;
    InvokeAllAgrees(w, pos, false, cpis, n, entries, log);
    var r := InvokeAll(w, pos, false, cpis, n);
    if r.Ok? {
      ValueOfAgrees(r.value, pos, vaultBalance, entries, InvokeAll(Dress(w, entries, log), pos, false, cpis, n).value.log);
    }
    hide InvokeAll, AdapterInterface.U64Return, AdapterSpec.ValueOf;
  }

  // ----- every action but those of the switched adapter commutes with the switch -----

  function Switched(entries: map<Program, AdapterEntry>, p: Program, active: bool): map<Program, AdapterEntry> {
    if p in entries then entries[p := entries[p].(isActive := active)] else entries
  }

  /** The accounts with adapter p switched, under a log of their own. */
  function Variant(w: World, p: Program, active: bool, log: seq<Event>): World {
    Dress(w, Switched(w.entries, p, active), log)
  }

  ghost predicate OutcomesAgree(ou: Outcome, ow: Outcome, entries: map<Program, AdapterEntry>) {
    match ow
    case Ok((w1, v)) => ou.Ok? && ou.value.1 == v && ou.value.0 == Dress(w1, entries, ou.value.0.log)
    case Err(e) => ou == Err(e)
  }

  lemma RoutedValueAgrees(ru: Result<World, AdapterError>, rw: Result<World, AdapterError>, program: Program,
                          entries: map<Program, AdapterEntry>)
    requires Agree(ru, rw, entries)
    ensures OutcomesAgree(RoutedValue(ru, program), RoutedValue(rw, program), entries)
  {}

  /** The dispatcher's entry checks see the same thing before and after the switch. */
  lemma ChecksAgree(w: World, pos: PositionId, owner: nat, wallet: UsdcAccount, p: Program, active: bool, log: seq<Event>)
    requires pos.program != p
    ensures var u := Variant(w, p, active, log);
      && Live(u, pos.program) == Live(w, pos.program)
      && FundMovement(u, pos, owner, wallet) == FundMovement(w, pos, owner, wallet)
      && (pos.program in u.entries <==> pos.program in w.entries)
      && (pos.program in w.entries ==> SameVersion(u, pos.program) == SameVersion(w, pos.program))
  {}

  lemma OpenVariant(w: World, a: Action, p: Program, active: bool, log: seq<Event>)
    requires a.OpenPosition? && a.program != p
    ensures OutcomesAgree(Handle(Variant(w, p, active, log), a), Handle(w, a), Switched(w.entries, p, active))
  {
    var pos, u := PositionId(a.owner, a.program), Variant(w, p, active, log);
    var w0, u0 := Opened(w, a), Opened(u, a);
    ChecksAgree(w, pos, a.owner, Pool(pos), p, active, log);
    assert u0 == Dress(w0, u.entries, log);
    InitializeAgrees(w0, a.tx, pos, a.market, a.cpis, u.entries, log);
    hide AdapterSpec.Initialize, Live, SameVersion, Switched;
  }

  lemma DepositVariant(w: World, a: Action, p: Program, active: bool, log: seq<Event>)
    requires a.Deposit? && a.program != p
    ensures OutcomesAgree(Handle(Variant(w, p, active, log), a), Handle(w, a), Switched(w.entries, p, active))
  {
    var pos, u := PositionId(a.owner, a.program), Variant(w, p, active, log);
    var w0, u0 := Funded(w, a), Funded(u, a);
    ChecksAgree(w, pos, a.owner, a.wallet, p, active, log);
    assert u0 == Dress(w0, u.entries, log);
    DepositAgrees(w0, a.tx, pos, a.amount, a.cpis, u.entries, log);
    RoutedValueAgrees(AdapterSpec.Deposit(u0, a.tx, pos, a.amount, [], a.cpis),
                      AdapterSpec.Deposit(w0, a.tx, pos, a.amount, [], a.cpis), a.program, u.entries);
    hide AdapterSpec.Deposit, RoutedValue, FundMovement, SameVersion, Transfer, Switched, Agree;
  }

  lemma WithdrawVariant(w: World, a: Action, p: Program, active: bool, log: seq<Event>)
    requires a.Withdraw? && a.program != p
    ensures OutcomesAgree(Handle(Variant(w, p, active, log), a), Handle(w, a), Switched(w.entries, p, active))
  {
    var pos, u := PositionId(a.owner, a.program), Variant(w, p, active, log);
    ChecksAgree(w, pos, a.owner, a.wallet, p, active, log);
    WithdrawAgrees(w, a.tx, pos, a.shares, a.cpis, u.entries, log);
    RoutedValueAgrees(AdapterSpec.Withdraw(u, a.tx, pos, a.shares, [], a.cpis),
                      AdapterSpec.Withdraw(w, a.tx, pos, a.shares, [], a.cpis), a.program, u.entries);
    hide AdapterSpec.Withdraw, RoutedValue, FundMovement, SameVersion, Transfer, Switched, Agree;
  }

  lemma ValueVariant(w: World, a: Action, p: Program, active: bool, log: seq<Event>)
    requires a.CurrentValue? && a.program != p
    ensures OutcomesAgree(Handle(Variant(w, p, active, log), a), Handle(w, a), Switched(w.entries, p, active))
  {
    var pos, u := PositionId(a.owner, a.program), Variant(w, p, active, log);
    ChecksAgree(w, pos, a.owner, Pool(pos), p, active, log);
    ValueAgrees(w, a.tx, pos, a.vaultBalance, a.cpis, u.entries, log);
    RoutedValueAgrees(AdapterSpec.CurrentValue(u, a.tx, pos, [], a.vaultBalance, a.cpis),
                      AdapterSpec.CurrentValue(w, a.tx, pos, [], a.vaultBalance, a.cpis), a.program, u.entries);
    hide AdapterSpec.CurrentValue, RoutedValue, Live, SameVersion, Switched, Agree, AdapterInterface.U64Return;
  }

  lemma EnvironmentVariant(w: World, a: Action, p: Program, active: bool, log: seq<Event>)
    requires Environment(a)
    ensures OutcomesAgree(Handle(Variant(w, p, active, log), a), Handle(w, a), Switched(w.entries, p, active))
    ensures Handle(w, a).Ok? ==> Handle(w, a).value.0.entries == w.entries
  {
    hide Transfer, Switched;
  }

  lemma SwitchTwice(entries: map<Program, AdapterEntry>, p: Program, first: bool, second: bool)
    ensures Switched(Switched(entries, p, first), p, second) == Switched(entries, p, second)
    ensures p in entries && entries[p].isActive == first ==> Switched(entries, p, first) == entries
  {}

  lemma SwitchCommutes(entries: map<Program, AdapterEntry>, p: Program, active: bool, q: Program, other: bool)
    requires p != q
    ensures Switched(Switched(entries, p, active), q, other) == Switched(Switched(entries, q, other), p, active)
  {}

  lemma SwitchAndAdd(entries: map<Program, AdapterEntry>, p: Program, active: bool, q: Program, entry: AdapterEntry)
    requires p != q
    ensures Switched(entries, p, active)[q := entry] == Switched(entries[q := entry], p, active)
  {}

  lemma WhitelistVariant(w: World, a: Action, p: Program, active: bool, log: seq<Event>)
    requires a.WhitelistAdapter? && p in w.entries
    ensures Handle(w, a).Ok? ==> p in Handle(w, a).value.0.entries
    ensures Handle(w, a).Ok? ==>
      OutcomesAgree(Handle(Variant(w, p, active, log), a), Handle(w, a), Switched(Handle(w, a).value.0.entries, p, active))
    ensures Handle(w, a).Err? ==> Handle(Variant(w, p, active, log), a) == Handle(w, a)
  {
    assert Variant(w, p, active, log).entries.Keys == w.entries.Keys;
    if a.program != p { SwitchAndAdd(w.entries, p, active, a.program, AdapterEntry(a.program, a.version, a.name, true)); }
    hide Switched;
  }

  lemma SwitchedKeys(entries: map<Program, AdapterEntry>, p: Program, active: bool)
    ensures Switched(entries, p, active).Keys == entries.Keys
  {}

  lemma PauseHandled(w: World, a: Action)
    requires a.PauseAdapter?
    ensures Handle(w, a) ==
      if w.registry.None? || a.program !in w.entries then Err(DispatcherError.AccountMissing)
      else if w.registry.value.admin != a.signer then Err(DispatcherError.Unauthorized)
      else Ok((Dress(w, Switched(w.entries, a.program, !a.paused), w.log + [AdapterPaused(a.program, !a.paused)]), 0))
  {
    PauseIsSwitch(w, a.signer, a.program, a.paused);
    hide HandlePauseAdapter, Switched;
  }

  lemma PauseVariant(w: World, a: Action, p: Program, active: bool, log: seq<Event>)
    requires a.PauseAdapter? && p in w.entries && w.registry.Some? && !Switches(a, p, w.registry.value.admin)
    ensures Handle(w, a).Ok? ==> p in Handle(w, a).value.0.entries
    ensures Handle(w, a).Ok? ==>
      OutcomesAgree(Handle(Variant(w, p, active, log), a), Handle(w, a), Switched(Handle(w, a).value.0.entries, p, active))
    ensures Handle(w, a).Err? ==> Handle(Variant(w, p, active, log), a) == Handle(w, a)
  {
    hide Switched;
    var u := Variant(w, p, active, log);
    PauseHandled(w, a);
    PauseHandled(u, a);
    hide Handle;
    SwitchedKeys(w.entries, p, active);
    SwitchedKeys(w.entries, a.program, !a.paused);
    if a.program in w.entries && w.registry.value.admin == a.signer {
      SwitchCommutes(w.entries, p, active, a.program, !a.paused);
    }
  }

  lemma GovernanceVariant(w: World, a: Action, p: Program, active: bool, log: seq<Event>)
    requires !a.Routed() && !Environment(a) && p in w.entries
    requires w.registry.Some? && !Switches(a, p, w.registry.value.admin)
    ensures Handle(w, a).Ok? ==> p in Handle(w, a).value.0.entries
    ensures Handle(w, a).Ok? ==>
      OutcomesAgree(Handle(Variant(w, p, active, log), a), Handle(w, a), Switched(Handle(w, a).value.0.entries, p, active))
    ensures Handle(w, a).Err? ==> Handle(Variant(w, p, active, log), a) == Handle(w, a)
  {
    if a.WhitelistAdapter? { WhitelistVariant(w, a, p, active, log); hide Handle, Variant, OutcomesAgree; }
    else if a.PauseAdapter? { PauseVariant(w, a, p, active, log); hide Handle, Variant, OutcomesAgree; }
  }

  lemma PauseIsSwitch(w: World, signer: nat, q: Program, paused: bool)
    ensures HandlePauseAdapter(w, signer, q, paused) ==
      if w.registry.None? || q !in w.entries then Err(DispatcherError.AccountMissing)
      else if w.registry.value.admin != signer then Err(DispatcherError.Unauthorized)
      else Ok((Dress(w, Switched(w.entries, q, !paused), w.log + [AdapterPaused(q, !paused)]), 0))
    ensures Switched(w.entries, q, !paused).Keys == w.entries.Keys
  {}

  lemma RoutedEntries(w: World, a: Action)
    requires a.Routed() && Handle(w, a).Ok?
    ensures Handle(w, a).value.0.entries == w.entries
  {
    hide Handle;
    if a.OpenPosition? { OpenSteps(w, a); }
    else if a.Deposit? { DepositSteps(w, a); }
    else if a.Withdraw? { WithdrawSteps(w, a); }
    else { ValueSteps(w, a); }
  }

  /** Any step that is neither routed to the adapter nor switches it has the same effect either way. */
  lemma StepVariant(w: World, a: Action, p: Program, active: bool, log: seq<Event>)
    requires p in w.entries && !RoutedTo(a, p)
    requires w.registry.Some? && !Switches(a, p, w.registry.value.admin)
    ensures p in Step(w, a).entries && w.log <= Step(w, a).log
    ensures Step(Variant(w, p, active, log), a)
         == Variant(Step(w, a), p, active, log + Step(w, a).log[|w.log|..])
  {
    var u := Variant(w, p, active, log);
    if Environment(a) { EnvironmentVariant(w, a, p, active, log); }
    else if !a.Routed() { GovernanceVariant(w, a, p, active, log); }
    else if a.OpenPosition? { OpenVariant(w, a, p, active, log); }
    else if a.Deposit? { DepositVariant(w, a, p, active, log); }
    else if a.Withdraw? { WithdrawVariant(w, a, p, active, log); }
    else { ValueVariant(w, a, p, active, log); }
    hide Handle;
    LogGrowth(w, a);
    LogGrowth(u, a);
    if a.Routed() && Handle(w, a).Ok? { RoutedEntries(w, a); }
    if Handle(w, a).Ok? {
      assert (w.log + EventsOf(a, Handle(w, a).value.1))[|w.log|..] == EventsOf(a, Handle(w, a).value.1);
    } else {
      assert w.log[|w.log|..] == [] && log + [] == log;
    }
  }

  // ----- the bracket -----

  /** The actions that remain when everything routed to p is dropped. */
  function NotRoutedTo(actions: seq<Action>, p: Program): seq<Action> {
    if actions == [] then []
    else (if RoutedTo(actions[0], p) then [] else [actions[0]]) + NotRoutedTo(actions[1..], p)
  }

  /** The admin of a registry that exists. */
  predicate Admin(w: World, admin: nat) {
    w.registry.Some? && w.registry.value.admin == admin
  }

  lemma StepKeepsAdmin(w: World, a: Action, admin: nat)
    requires Admin(w, admin)
    ensures Admin(Step(w, a), admin)
  {
    hide Handle;
    if Handle(w, a).Ok? {
      if a.OpenPosition? { OpenSteps(w, a); }
      else if a.Deposit? { DepositSteps(w, a); }
      else if a.Withdraw? { WithdrawSteps(w, a); }
      else if a.CurrentValue? { ValueSteps(w, a); }
      else if Environment(a) { EnvironmentSteps(w, a); }
      else { GovernanceSteps(w, a); }
    }
  }

  lemma LogsJoin(log: seq<Event>, l0: seq<Event>, l1: seq<Event>, l2: seq<Event>)
    requires l0 <= l1 <= l2
    ensures log + l1[|l0|..] + l2[|l1|..] == log + l2[|l0|..]
  {
    assert l2[|l0|..] == l1[|l0|..] + l2[|l1|..];
  }

  lemma RunKept(w: World, actions: seq<Action>, p: Program)
    requires actions != [] && !RoutedTo(actions[0], p)
    ensures Run(w, NotRoutedTo(actions, p)) == Run(Step(w, actions[0]), NotRoutedTo(actions[1..], p))
  {
    hide Step;
    assert NotRoutedTo(actions, p)[1..] == NotRoutedTo(actions[1..], p);
  }

  lemma RunDropped(w: World, actions: seq<Action>, p: Program)
    requires actions != [] && RoutedTo(actions[0], p)
    ensures Run(w, NotRoutedTo(actions, p)) == Run(w, NotRoutedTo(actions[1..], p))
  {
    hide Step, Run;
    assert NotRoutedTo(actions, p) == NotRoutedTo(actions[1..], p);
  }

  lemma RejectedVariant(w: World, a: Action, p: Program, log: seq<Event>)
    requires RoutedTo(a, p)
    ensures Step(Variant(w, p, false, log), a) == Variant(w, p, false, log)
  {
    hide Handle, Step;
    RejectedWhilePaused(Variant(w, p, false, log), a);
  }

  /** While p is paused a run goes as if nothing had been routed to p, but for the entry's switch. */
  lemma {:induction false} PausedRun(w: World, actions: seq<Action>, p: Program, log: seq<Event>, admin: nat)
    requires p in w.entries && Admin(w, admin)
    requires forall a | a in actions :: !Switches(a, p, admin)
    ensures var w1 := Run(w, NotRoutedTo(actions, p));
      && p in w1.entries && w.log <= w1.log
      && Run(Variant(w, p, false, log), actions) == Variant(w1, p, false, log + w1.log[|w.log|..])
    decreases |actions|
  {
    hide Step, Variant, NotRoutedTo, Admin, Switches;
    if actions == [] {
      PausedNothing(w, p, log);
    } else {
      var a, rest := actions[0], actions[1..];
      if RoutedTo(a, p) {
        RejectedVariant(w, a, p, log);
        RunDropped(w, actions, p);
        PausedRun(w, rest, p, log, admin);
      } else {
        var w1 := Step(w, a);
        NotTheAdmin(w, a, p, admin);
        StepVariant(w, a, p, false, log);
        StepKeepsAdmin(w, a, admin);
        RunKept(w, actions, p);
        PausedRun(w1, rest, p, log + w1.log[|w.log|..], admin);
        LogsJoin(log, w.log, w1.log, Run(w1, NotRoutedTo(rest, p)).log);
      }
    }
  }

  lemma NotTheAdmin(w: World, a: Action, p: Program, admin: nat)
    requires Admin(w, admin) && !Switches(a, p, admin)
    ensures w.registry.Some? && !Switches(a, p, w.registry.value.admin)
  {}

  lemma PausedNothing(w: World, p: Program, log: seq<Event>)
    ensures NotRoutedTo([], p) == []
    ensures Variant(w, p, false, log) == Variant(w, p, false, log + w.log[|w.log|..])
  {
    assert log + w.log[|w.log|..] == log;
  }

  lemma {:induction false} RunConcat(w: World, a: seq<Action>, b: seq<Action>)
    ensures Run(w, a + b) == Run(Run(w, a), b)
    decreases |a|
  {
    if a == [] {
      assert a + b == b;
    } else {
      assert (a + b)[0] == a[0] && (a + b)[1..] == a[1..] + b;
      RunConcat(Step(w, a[0]), a[1..], b);
    }
  }

  /** Pausing, running anything that does not switch the adapter itself, and unpausing ends like the run
      without the bracket and without the actions routed to the adapter in between; only the two notices
      are added to the log, around the same events. */
  lemma Bracket(w: World, signer: nat, p: Program, actions: seq<Action>)
    requires Admin(w, signer) && p in w.entries && w.entries[p].isActive && w.ret.None?
    requires forall a | a in actions :: !Switches(a, p, signer)
    ensures var w1 := Run(w, NotRoutedTo(actions, p));
      && w.log <= w1.log
      && Run(w, [PauseAdapter(signer, p, true)] + actions + [PauseAdapter(signer, p, false)])
         == Variant(w1, p, true, w.log + [AdapterPaused(p, false)] + w1.log[|w.log|..] + [AdapterPaused(p, true)])
      && Switched(w1.entries, p, true) == w1.entries
  {
    var pause, unpause := PauseAdapter(signer, p, true), PauseAdapter(signer, p, false);
    var log := w.log + [AdapterPaused(p, false)];
    var others := NotRoutedTo(actions, p);
    var w1 := Run(w, others);
    RunRet(w, others);
    NotRoutedToKeeps(actions, p);
    StaysActive(w, others, p, signer);
    PausedRun(w, actions, p, log, signer);
    SwitchStep(w, p, true, w.log, signer, true);
    SwitchStep(w1, p, false, log + w1.log[|w.log|..], signer, false);
    RunConcat(w, [pause] + actions, [unpause]);
    RunConcat(w, [pause], actions);
    hide Step, Variant;
    assert Run(w, [pause]) == Step(w, pause);
    var u := Run(Step(w, pause), actions);
    assert Run(u, [unpause]) == Step(u, unpause);
  }

  /** The admin's switch on a variant of the accounts is the other variant, with a notice. */
  lemma SwitchStep(w: World, p: Program, active: bool, log: seq<Event>, signer: nat, paused: bool)
    requires w.registry.Some? && w.registry.value.admin == signer && p in w.entries && w.ret.None?
    ensures Step(Variant(w, p, active, log), PauseAdapter(signer, p, paused))
         == Variant(w, p, !paused, log + [AdapterPaused(p, !paused)])
    ensures w.entries[p].isActive == active && log == w.log ==> Variant(w, p, active, log) == w
    ensures w.entries[p].isActive ==> Switched(w.entries, p, true) == w.entries
  {
    SwitchTwice(w.entries, p, active, !paused);
    SwitchTwice(w.entries, p, true, true);
    PauseIsSwitch(Variant(w, p, active, log), signer, p, paused);
    assert p in Variant(w, p, active, log).entries;
    hide Switched, HandlePauseAdapter;
  }

  lemma {:induction false} NotRoutedToKeeps(actions: seq<Action>, p: Program)
    ensures forall a | a in NotRoutedTo(actions, p) :: a in actions
  {
    if actions != [] { NotRoutedToKeeps(actions[1..], p); }
  }

  lemma {:induction false} RunRet(w: World, actions: seq<Action>)
    requires w.ret.None?
    ensures Run(w, actions).ret.None?
    decreases |actions|
  {
    if actions != [] { RunRet(Step(w, actions[0]), actions[1..]); }
  }

  lemma StepStaysActive(w: World, a: Action, p: Program)
    requires p in w.entries && w.entries[p].isActive
    requires w.registry.Some? && !Switches(a, p, w.registry.value.admin)
    ensures p in Step(w, a).entries && Step(w, a).entries[p].isActive
  {
    if a.PauseAdapter? { PauseHandled(w, a); }
    hide Handle;
    if Handle(w, a).Ok? {
      if a.Routed() { RoutedEntries(w, a); }
      else if Environment(a) { EnvironmentSteps(w, a); }
      else { GovernanceSteps(w, a); }
    }
  }

  lemma {:induction false} StaysActive(w: World, actions: seq<Action>, p: Program, admin: nat)
    requires p in w.entries && w.entries[p].isActive && Admin(w, admin)
    requires forall a | a in actions :: !Switches(a, p, admin)
    ensures p in Run(w, actions).entries && Run(w, actions).entries[p].isActive && Admin(Run(w, actions), admin)
    decreases |actions|
  {
    hide Step;
    if actions != [] {
      StepStaysActive(w, actions[0], p);
      StepKeepsAdmin(w, actions[0], admin);
      StaysActive(Step(w, actions[0]), actions[1..], p, admin);
    }
  }
}
