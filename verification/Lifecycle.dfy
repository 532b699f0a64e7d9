/**
 What the lifecycle state that the backend shows for a project says about the
 contract's money, over every run.
 */
module Lifecycle {
  import opened Options
  import opened SplitTypes
  import opened Sums
  import opened Protocol
  import opened Invariant
  import opened Preservation
  import opened Runs
  import PaymentStatus

  /** The snapshot the backend takes of a project, with no off-chain marker on it. */
  function Snapshot(s: Store, id: Symbol): PaymentStatus.Snapshot
    requires id in s.projects
  {
    PaymentStatus.Snapshot(s.projects[id].locked, Balance(s, id), s.projects[id].totalDistributed, [], false, None)
  }

  function StateOf(s: Store, id: Symbol, now: int): PaymentStatus.SplitState
    requires id in s.projects
  {
    PaymentStatus.DeriveState(Snapshot(s, id), false, now)
  }

  /**
   For a project created during a run the state tells what became of its
   deposits. It is settled exactly when all of them have been paid out and
   either there were some or the project is locked, and draft exactly when it
   is unlocked and there were none.
   */
  lemma StateOverRuns(s: Store, run: seq<Invocation>, id: Symbol, now: int)
    requires Inv(s) && id !in s.projects && id in Run(s, run).projects
    ensures var end := Run(s, run);
            var state, locked := StateOf(end, id, now), end.projects[id].locked;
            var paidIn, paidOut := Deposited(s, run, id), ClaimedTotal(end.claimed, id);
            && 0 <= paidOut <= paidIn
            && (state == PaymentStatus.Settled <==> paidOut == paidIn && (paidIn > 0 || locked))
            && (state == PaymentStatus.Draft <==> paidIn == 0 && !locked)
            && (state == PaymentStatus.Distributing <==> paidOut < paidIn && locked)
            && (state == PaymentStatus.Active <==> paidOut < paidIn && !locked)
  {
    hide Run, Deposited, ClaimedTotal, Inv;
    var end := Run(s, run);
    RunKeepsInv(s, run);
    ConservedOverRuns(s, run, id);
    BalanceInRange(end, id);
    PaidInRange(end, id);
  }

  lemma PaidInRange(s: Store, id: Symbol)
    requires Inv(s) && id in s.projects
    ensures s.projects[id].totalDistributed >= 0
  {
  }

  /**
   A settled project is promised to have paid something out. The promise is
   kept exactly when the project is not locked with nothing ever deposited.
   */
  lemma SettledHasPaidIff(s: Store, run: seq<Invocation>, id: Symbol, now: int)
    requires Inv(s) && id !in s.projects && id in Run(s, run).projects
    ensures (StateOf(Run(s, run), id, now) == PaymentStatus.Settled ==> ClaimedTotal(Run(s, run).claimed, id) > 0) <==>
            !(Run(s, run).projects[id].locked && Deposited(s, run, id) == 0)
  {
    hide Run, Deposited, ClaimedTotal, Inv, StateOf;
    StateOverRuns(s, run, id, now);
  }

  /** Once locked, a project is distributing or settled for the rest of every run. */
  lemma LockedStates(s: Store, run: seq<Invocation>, id: Symbol, now: int)
    requires Inv(s) && id in s.projects && s.projects[id].locked
    ensures var end := Run(s, run);
            id in end.projects && StateOf(end, id, now) in {PaymentStatus.Distributing, PaymentStatus.Settled}
  {
    hide Run, Inv;
    PermanentOverRuns(s, run, id);
  }
}
