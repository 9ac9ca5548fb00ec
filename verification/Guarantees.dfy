/** What the programs guarantee together, from any starting accounts and for any sequence of actions. */
module Guarantees {
  import opened Arithmetic
  import opened Accounts
  import opened Chain
  import opened DispatcherSpec
  import DispatcherProgram
  import Conservation
  import Governance
  import Replay
  import Routing
  import Solvency

  /** Executing the programs conserves USDC, keeps the registry invariant and leaves books that both event
      logs replay to. Market by market: if its redemptions burn at most what was asked, booked tokens are
      held; if its protocol keeps recorded supply up with what it mints, it covers the shares read. */
  method Serve(ledger: Ledger, actions: seq<Action>, remaining: seq<seq<Routing.AccountInfo>>)
    requires Initial(ledger.View()) && |remaining| == |actions|
    modifies ledger
    ensures Sum(ledger.usdc) == Sum(old(ledger.usdc))
    ensures Governance.RegistryInv(ledger.View())
    ensures Replay.Replays(ledger.View())
    ensures forall id :: Solvency.RunBurnsAtMostShares(old(ledger.View()), actions, id) ==> Solvency.BookedHeld(ledger.View(), id)
    ensures forall id :: Solvency.RunSupplyFollows(old(ledger.View()), actions, id) ==> Solvency.Covered(ledger.View(), id)
  {
    hide Run, Solvency.Covered, Solvency.BookedHeld, Replay.Replays, Governance.RegistryInv;
    ghost var w := ledger.View();
    Governance.InitialRegistry(w);
    Governance.RunRegistry(w, actions);
    Conservation.RunConserves(w, actions);
    InitialReplays(w);
    Replay.RunReplays(w, actions);
    forall id
      ensures Solvency.RunBurnsAtMostShares(w, actions, id) ==> Solvency.BookedHeld(Run(w, actions), id)
      ensures Solvency.RunSupplyFollows(w, actions, id) ==> Solvency.Covered(Run(w, actions), id)
    {
      Solvency.InitialSound(w, id);
      if Solvency.RunBurnsAtMostShares(w, actions, id) { Solvency.RunBooked(w, actions, id); }
      if Solvency.RunSupplyFollows(w, actions, id) { Solvency.RunCovered(w, actions, id); }
    }
    DispatcherProgram.ExecuteAll(ledger, actions, remaining);
  }

  lemma InitialReplays(w: World)
    requires Initial(w)
    ensures Replay.Replays(w)
  {}
}
