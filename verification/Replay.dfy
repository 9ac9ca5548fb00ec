/** A position's booked shares are what its event log adds up to. */
module Replay {
  import opened Accounts
  import opened DispatcherSpec
  import opened Inversion
  import opened Governance
  import opened ReturnChannel

  datatype Log = DispatcherLog | AdapterLog
  datatype Movement = In(shares: nat) | Out(shares: nat) | Unrelated

  /** What an event says about a position, read from the dispatcher's or from the adapter's events. */
  function MovementOf(e: Event, pos: PositionId, which: Log): Movement {
    match which
    case DispatcherLog =>
      if e.Deposited? && e.position == pos then In(e.sharesMinted)
      else if e.Withdrawn? && e.position == pos then Out(e.sharesBurned)
      else Unrelated
    case AdapterLog =>
      if e.AdapterDepositEvent? && e.position == pos then In(e.sharesMinted)
      else if e.AdapterWithdrawEvent? && e.position == pos then Out(e.sharesBurned)
      else Unrelated
  }

  /** Plain subtraction, except that MarginFi stops at zero. */
  function Apply(program: Program, total: int, m: Movement): int {
    match m
    case In(n) => total + n
    case Out(n) => if program.MarginFi? && n >= total then 0 else total - n
    case Unrelated => total
  }

  function Replayed(log: seq<Event>, pos: PositionId, which: Log): int {
    if log == [] then 0
    else Apply(pos.program, Replayed(log[..|log| - 1], pos, which), MovementOf(log[|log| - 1], pos, which))
  }

  lemma ReplayAppend(log: seq<Event>, e: Event, pos: PositionId, which: Log)
    ensures Replayed(log + [e], pos, which)
         == Apply(pos.program, Replayed(log, pos, which), MovementOf(e, pos, which))
  {
    assert (log + [e])[..|log|] == log;
  }

  lemma ReplayAppendTwo(log: seq<Event>, d: Event, e: Event, pos: PositionId, which: Log)
    ensures Replayed(log + [d, e], pos, which)
         == Apply(pos.program, Apply(pos.program, Replayed(log, pos, which), MovementOf(d, pos, which)),
                  MovementOf(e, pos, which))
  {
    assert log + [d, e] == (log + [d]) + [e];
    ReplayAppend(log, d, pos, which);
    ReplayAppend(log + [d], e, pos, which);
  }

  function Booked(w: World, pos: PositionId): nat {
    if pos in w.states then w.states[pos].totalShares else 0
  }

  ghost predicate Replays(w: World) {
    forall pos: PositionId, which | pos.program.IsReference() :: Replayed(w.log, pos, which) == Booked(w, pos)
  }

  lemma DepositReplays(w: World, a: Action, pos: PositionId, which: Log)
    requires a.Deposit? && a.program.IsReference() && Handle(w, a).Ok?
    requires Replayed(w.log, pos, which) == Booked(w, pos)
    ensures Replayed(Handle(w, a).value.0.log, pos, which) == Booked(Handle(w, a).value.0, pos)
  {
    hide Handle, Replayed;
    var own, v := PositionId(a.owner, a.program), Handle(w, a).value.1;
    DepositReturns(w, a);
    ReplayAppendTwo(w.log, AdapterDepositEvent(own, a.amount, v), Deposited(own, a.amount, v), pos, which);
  }

  lemma WithdrawReplays(w: World, a: Action, pos: PositionId, which: Log)
    requires a.Withdraw? && a.program.IsReference() && Handle(w, a).Ok?
    requires Replayed(w.log, pos, which) == Booked(w, pos)
    ensures Replayed(Handle(w, a).value.0.log, pos, which) == Booked(Handle(w, a).value.0, pos)
  {
    hide Handle, Replayed;
    var own, v := PositionId(a.owner, a.program), Handle(w, a).value.1;
    WithdrawReturns(w, a);
    ReplayAppendTwo(w.log, AdapterWithdrawEvent(own, a.shares, v), Withdrawn(own, a.shares, v), pos, which);
  }

  lemma RoutedReplays(w: World, a: Action, pos: PositionId, which: Log)
    requires a.Routed() && Handle(w, a).Ok? && pos.program.IsReference()
    requires Replayed(w.log, pos, which) == Booked(w, pos)
    ensures Replayed(Handle(w, a).value.0.log, pos, which) == Booked(Handle(w, a).value.0, pos)
  {
    hide Handle, Replayed;
    var own, v := PositionId(a.owner, a.program), Handle(w, a).value.1;
    if a.OpenPosition? {
      OpenSteps(w, a);
      ReplayAppend(w.log, PositionOpened(own), pos, which);
    } else if !a.program.IsReference() {
      ForeignReplays(w, a, pos, which);
    } else if a.Deposit? {
      DepositReplays(w, a, pos, which);
    } else if a.Withdraw? {
      WithdrawReplays(w, a, pos, which);
    } else {
      ValueReturns(w, a);
      ReplayAppendTwo(w.log, AdapterValueEvent(own, v), ValueRead(own, v), pos, which);
    }
  }

  lemma ForeignReplays(w: World, a: Action, pos: PositionId, which: Log)
    requires (a.Deposit? || a.Withdraw? || a.CurrentValue?) && !a.program.IsReference() && Handle(w, a).Ok?
    requires pos.program.IsReference() && Replayed(w.log, pos, which) == Booked(w, pos)
    ensures Replayed(Handle(w, a).value.0.log, pos, which) == Booked(Handle(w, a).value.0, pos)
  {
    hide Handle, Replayed;
    ForeignReturns(w, a);
    var log1 := Handle(w, a).value.0.log;
    ReplayAppend(w.log, log1[|w.log|], pos, which);
  }

  lemma HandledReplays(w: World, a: Action, pos: PositionId, which: Log)
    requires Handle(w, a).Ok? && pos.program.IsReference()
    requires Replayed(w.log, pos, which) == Booked(w, pos)
    ensures Replayed(Handle(w, a).value.0.log, pos, which) == Booked(Handle(w, a).value.0, pos)
  {
    hide Handle, Replayed;
    if a.Routed() {
      RoutedReplays(w, a, pos, which);
    } else if Environment(a) {
      EnvironmentSteps(w, a);
    } else {
      GovernanceSteps(w, a);
      if a.WhitelistAdapter? {
        ReplayAppend(w.log, AdapterWhitelisted(a.program, a.name, a.version), pos, which);
      } else if a.PauseAdapter? {
        ReplayAppend(w.log, AdapterPaused(a.program, !a.paused), pos, which);
      }
    }
  }

  lemma StepReplays(w: World, a: Action)
    requires Replays(w)
    ensures Replays(Step(w, a))
  {
    hide Handle, Replayed;
    if Handle(w, a).Ok? {
      forall pos: PositionId, which | pos.program.IsReference()
        ensures Replayed(Step(w, a).log, pos, which) == Booked(Step(w, a), pos)
      {
        assert Replayed(w.log, pos, which) == Booked(w, pos);
        HandledReplays(w, a, pos, which);
      }
    }
  }

  lemma {:induction false} RunReplays(w: World, actions: seq<Action>)
    requires Replays(w)
    ensures Replays(Run(w, actions))
    decreases |actions|
  {
    if actions != [] {
      StepReplays(w, actions[0]);
      RunReplays(Step(w, actions[0]), actions[1..]);
    }
  }

  /** In every state of every run both logs replay to the booked shares of every position. */
  lemma EveryStateReplays(w: World, actions: seq<Action>, pos: PositionId)
    requires Initial(w) && pos in Run(w, actions).states
    ensures Replayed(Run(w, actions).log, pos, DispatcherLog) == Run(w, actions).states[pos].totalShares
    ensures Replayed(Run(w, actions).log, pos, AdapterLog) == Run(w, actions).states[pos].totalShares
  {
    RunReplays(w, actions);
    InitialRegistry(w);
    RunRegistry(w, actions);
  }
}
