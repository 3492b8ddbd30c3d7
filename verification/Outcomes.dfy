/** What a succeeded task says about the hardware. */
module Outcomes {
  import opened Xnames
  import opened TransitionModel
  import opened Sequencing
  import opened TierRunner
  import opened TierShape
  import opened TierCounts

  /** The event reads the state that the action of the current tier leads to, and no later
      tier lists the component. */
  predicate ConfirmsLast(r: Run, e: Event, x: Xname) {
    && e.PollOne? && e.x == x && r.phase.Polling? && r.phase.k < TIERS && Pending(r, x)
    && e.answer == PollState(EndState(TierAction(r.phase.k)))
    && ActionsDue(r.lists, r.phase.k + 1, x) == 0
  }

  lemma PollSucceeds(r: Run, y: Xname, answer: Answer, x: Xname)
    requires Coherent(r) && r.phase.Polling? && r.phase.k < TIERS && y in r.phase.left && y in r.comps
    requires x in r.comps && Balanced(r, x) && r.comps[x].status != TaskSucceeded
    requires x in Polled(r, y, answer).comps && Polled(r, y, answer).comps[x].status == TaskSucceeded
    ensures ConfirmsLast(r, PollOne(y, answer), x)
  {
    hide TierAction, FailWithDependents, ActionsDue, NoDup;
    FailingOnlyFails(r.comps, TierAction(r.phase.k), y);
  }

  lemma OthersDoNotSucceed(cfg: Config, r: Run, e: Event, x: Xname)
    requires Placed(r.phase) && Enabled(cfg, r, e) && !e.PollOne? && cfg.deadline != 0
    requires x in r.comps && r.comps[x].status != TaskSucceeded
    ensures x in Apply(cfg, r, e).comps ==> Apply(cfg, r, e).comps[x].status != TaskSucceeded
  {
    hide TypeOf, ListOf, TierAction, TierList, FailWithDependents, TransitionPayload;
    match e
    case ScanNext => FailingOnlyFails(r.comps, TierAction(r.phase.k), r.phase.todo[0]);
    case Respond(y, _) => FailingOnlyFails(r.comps, TierAction(r.phase.k), y);
    case ExpireOne(y) => FailingOnlyFails(r.comps, TierAction(r.phase.k), y);
    case LoseReservation(y, a) => FailingOnlyFails(r.comps, a, y);
    case _ =>
  }

  /** The last event for which the task was not yet succeeded. */
  ghost predicate Observed(cfg: Config, r: Run, log: seq<Event>, i: nat, x: Xname) {
    && i < |log| && After(cfg, r, log[..i]).Some?
    && ConfirmsLast(After(cfg, r, log[..i]).value, log[i], x)
  }

  /** In every run with a non-zero deadline, a task that succeeded did so when its
      component was seen in the end state of the last tier that lists it. */
  lemma {:induction false} SuccessWasObserved(cfg: Config, r: Run, log: seq<Event>, x: Xname)
    requires Shape(r) && x in r.comps && Balanced(r, x) && cfg.deadline != 0 && After(cfg, r, log).Some?
    requires r.comps[x].status != TaskSucceeded
    ensures x in After(cfg, r, log).value.comps
    ensures After(cfg, r, log).value.comps[x].status == TaskSucceeded ==> exists i: nat :: Observed(cfg, r, log, i, x)
  {
    hide Shape, Balanced, Apply, Enabled, ConfirmsLast;
    RunStaysBalanced(cfg, r, log, x);
    if log != [] {
      var n := |log| - 1;
      var mid := After(cfg, r, log[..n]).value;
      SuccessWasObserved(cfg, r, log[..n], x);
      RunStaysBalanced(cfg, r, log[..n], x);
      RunKeepsShape(cfg, r, log[..n]);
      if After(cfg, r, log).value.comps[x].status == TaskSucceeded {
        if mid.comps[x].status == TaskSucceeded {
          var i: nat :| Observed(cfg, r, log[..n], i, x);
          assert log[..n][..i] == log[..i];
          assert Observed(cfg, r, log, i, x);
        } else {
          SuccessStep(cfg, mid, log[n], x);
          assert Observed(cfg, r, log, n, x);
        }
      }
    }
  }

  lemma SuccessStep(cfg: Config, r: Run, e: Event, x: Xname)
    requires Shape(r) && Enabled(cfg, r, e) && cfg.deadline != 0
    requires x in r.comps && Balanced(r, x) && r.comps[x].status != TaskSucceeded
    requires x in Apply(cfg, r, e).comps && Apply(cfg, r, e).comps[x].status == TaskSucceeded
    ensures ConfirmsLast(r, e, x)
  {
    ShapeParts(r);
    hide Shape, Balanced, Polled, ConfirmsLast, TierList, TierAction;
    if e.PollOne? {
      PollSucceeds(r, e.x, e.answer, x);
    } else {
      OthersDoNotSucceed(cfg, r, e, x);
    }
  }

  // ----- The lists of a run -------------------------------------------------------------------

  /** Only force-off lists grow, and only by components that were to be shut down. */
  ghost predicate Grown(ls: Lists, ls': Lists) {
    forall a, t ::
      && (a != ForceOff ==> ListOf(ls', a, t) == ListOf(ls, a, t))
      && (forall x :: x in ListOf(ls', ForceOff, t) ==> x in ListOf(ls, ForceOff, t) || x in ListOf(ls, GracefulShutdown, t))
  }

  lemma ExpiryGrows(cfg: Config, r: Run, y: Xname, ls: Lists)
    requires Shape(r) && Enabled(cfg, r, ExpireOne(y)) && Grown(ls, r.lists)
    ensures Grown(ls, Expired(cfg, r, y).lists)
  {
    ShapeParts(r);
    AppendLists(r.lists, y);
    assert Pending(r, y);
    hide TypeOf, ListOf, TierOf, TierAction, FailWithDependents, Append, WellListed, EscalatedLate, Shape, NoDup;
  }

  lemma {:induction false} RunGrows(cfg: Config, r: Run, log: seq<Event>)
    requires Shape(r) && After(cfg, r, log).Some?
    ensures Grown(r.lists, After(cfg, r, log).value.lists)
  {
    hide Shape, Enabled, Apply, Expired;
    if log != [] {
      var mid := log[..|log| - 1];
      RunGrows(cfg, r, mid);
      RunKeepsShape(cfg, r, mid);
      var m, e := After(cfg, r, mid).value, log[|log| - 1];
      StepGrows(cfg, m, e, r.lists);
    }
  }

  lemma StepGrows(cfg: Config, r: Run, e: Event, ls: Lists)
    requires Shape(r) && Enabled(cfg, r, e) && Grown(ls, r.lists)
    ensures Grown(ls, Apply(cfg, r, e).lists)
  {
    hide Shape, Grown, Expired, TierList, TierAction;
    if e.ExpireOne? {
      ExpiryGrows(cfg, r, e.x, ls);
    } else {
      ListsUnchanged(cfg, r, e);
    }
  }

  /** The state that the queued actions lead to when they are carried out in tier order. */
  function FinalState(ls: Lists, x: Xname): PowerState {
    if x in ListOf(ls, PowerUp, TypeOf(x)) || x in ListOf(ls, GracefulRestart, TypeOf(x)) then PowerOn else PowerOff
  }

  lemma LateTiers(a: PowerAction, t: HMSType, k: nat)
    requires k < TIERS && TierOf(a, t) < TIERS && !IsOffAction(a) && IsOffAction(TierAction(k))
    ensures k < TierOf(a, t)
  {
  }

  lemma LastTierGivesFinalState(r: Run, e: Event, ls: Lists, x: Xname)
    requires Shape(r) && ConfirmsLast(r, e, x) && Grown(ls, r.lists) && Served(ls, x)
    ensures e.answer == PollState(FinalState(ls, x))
    ensures exists a :: x in ListOf(ls, a, TypeOf(x))
  {
    ShapeParts(r);
    var k := r.phase.k;
    assert x in ListOf(r.lists, TierAction(k), TypeOf(x));
    hide TypeOf, ListOf, TierOf, TierAction, WellListed, EscalatedLate, Shape, PendingServed;
    if IsOffAction(TierAction(k)) {
      NothingLater(ls, r.lists, k, x, PowerUp);
      NothingLater(ls, r.lists, k, x, GracefulRestart);
    }
  }

  lemma NothingLater(ls: Lists, ls': Lists, k: nat, x: Xname, a: PowerAction)
    requires k < TIERS && IsOffAction(TierAction(k)) && !IsOffAction(a)
    requires Grown(ls, ls') && Served(ls, x) && ActionsDue(ls', k + 1, x) == 0
    ensures x !in ListOf(ls, a, TypeOf(x))
  {
    hide TypeOf, ListOf, TierOf, TierAction;
    if x in ListOf(ls, a, TypeOf(x)) {
      LateTiers(a, TypeOf(x), k);
    }
  }

  /** Success means the goal was seen: whenever a queued task has succeeded, its component
      was read in the state that its queued actions lead to. */
  lemma SucceededInFinalState(cfg: Config, comps: Request, ls: Lists, sig: Option<nat>, log: seq<Event>, x: Xname)
    requires Sequenced(comps, ls) && x in comps && Counted(comps, ls, x) && Served(ls, x) && comps[x].status != TaskSucceeded
    requires cfg.deadline != 0 && After(cfg, Start(comps, ls, sig), log).Some?
    ensures var r := After(cfg, Start(comps, ls, sig), log).value;
            && x in r.comps
            && (r.comps[x].status == TaskSucceeded ==>
                  PollOne(x, PollState(FinalState(ls, x))) in log && exists a :: x in ListOf(ls, a, TypeOf(x)))
  {
    hide Apply, Enabled, ConfirmsLast, Grown, Balanced, Shape, Sequenced, Served, FinalState;
    var r0 := Start(comps, ls, sig);
    StartHasShape(comps, ls, sig);
    StartIsBalanced(comps, ls, sig, x);
    SuccessWasObserved(cfg, r0, log, x);
    if After(cfg, r0, log).value.comps[x].status == TaskSucceeded {
      var i: nat :| Observed(cfg, r0, log, i, x);
      RunGrows(cfg, r0, log[..i]);
      RunKeepsShape(cfg, r0, log[..i]);
      LastTierGivesFinalState(After(cfg, r0, log[..i]).value, log[i], ls, x);
      assert log[i] == PollOne(x, PollState(FinalState(ls, x))) by { ConfirmedEvent(After(cfg, r0, log[..i]).value, log[i], x); }
    }
  }

  lemma ConfirmedEvent(r: Run, e: Event, x: Xname)
    requires ConfirmsLast(r, e, x)
    ensures e.PollOne? && e.x == x
  {
  }
}
