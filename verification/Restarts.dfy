/** A restart by off and on really goes through off. */
module Restarts {
  import opened Xnames
  import opened TransitionModel
  import opened Sequencing
  import opened TierRunner
  import opened TierShape
  import opened TierCounts
  import opened Bystanders
  import opened Outcomes

  /** An off action is still to come for the component, or under way. */
  ghost predicate OffAhead(r: Run, x: Xname) {
    || (exists a :: IsOffAction(a) && Due(r.lists, NextTier(r.phase), x, a))
    || (Pending(r, x) && Busy(r.phase) && r.phase.k < TIERS && IsOffAction(TierAction(r.phase.k)))
  }

  /** The component has not been given up. */
  predicate Alive(r: Run, x: Xname) {
    x in r.comps && (r.comps[x].status != TaskFailed || x in r.inflight || x in r.waiting)
  }

  /** As long as the component is alive, its off actions are ahead or it was read off. */
  ghost predicate OffSeen(r: Run, log: seq<Event>, x: Xname) {
    Alive(r, x) && !r.phase.Aborted? ==> OffAhead(r, x) || PollOne(x, PollState(PowerOff)) in log
  }

  lemma BesideKeepsOff(r: Run, r': Run, log: seq<Event>, e: Event, x: Xname)
    requires Shape(r) && Shape(r') && OffSeen(r, log, x) && Beside(r, r', x) && !r.phase.Aborted?
    ensures OffSeen(r', log + [e], x)
  {
    ShapeParts(r);
    ShapeParts(r');
    hide TypeOf, ListOf, TierOf, TierAction, Shape, WellListed, EscalatedLate, Coherent;
    if OffAhead(r, x) {
      forall a ensures Due(r'.lists, NextTier(r'.phase), x, a) <==> Due(r.lists, NextTier(r.phase), x, a) {
      }
    }
  }

  lemma TierStepKeepsOff(cfg: Config, r: Run, log: seq<Event>, e: Event, x: Xname)
    requires Shape(r) && Enabled(cfg, r, e) && (e.SkipTier? || e.StartScan?) && OffSeen(r, log, x)
    ensures OffSeen(Apply(cfg, r, e), log + [e], x)
  {
    ShapeParts(r);
    TierStepFields(cfg, r, e, x);
    var k, r' := r.phase.k, Apply(cfg, r, e);
    TierListHas(r.comps, r.lists, k);
    hide TypeOf, ListOf, TierOf, TierAction, TierList, Shape, WellListed, EscalatedLate, Coherent, Enabled, Apply, PendingServed, Due,
         Pending;
    if a :| IsOffAction(a) && Due(r.lists, k, x, a) {
      DueStep(r.lists, k, x, a);
    }
  }

  /** A scanned component is under way in the tier, or given up. */
  lemma ScannedOrGivenUp(r: Run)
    requires Coherent(r) && r.phase.Scanning? && r.phase.k < TIERS && r.phase.todo != [] && r.phase.todo[0] in r.comps
    ensures var x, r' := r.phase.todo[0], ScanOne(r);
            && (Pending(r', x) || !Alive(r', x)) && Busy(r'.phase) && r'.phase.k == r.phase.k && r'.lists == r.lists
  {
    FailingOnlyFails(r.comps, TierAction(r.phase.k), r.phase.todo[0]);
    hide TierAction, FailWithDependents, TransitionPayload, NoDup;
  }

  lemma ScannedKeepsOff(r: Run, log: seq<Event>, e: Event)
    requires Shape(r) && r.phase.Scanning? && r.phase.todo != [] && r.phase.todo[0] in r.comps
    requires OffSeen(r, log, r.phase.todo[0])
    ensures OffSeen(ScanOne(r), log + [e], r.phase.todo[0])
  {
    ShapeParts(r);
    var x := r.phase.todo[0];
    assert Pending(r, x);
    ScannedOrGivenUp(r);
    assert Alive(ScanOne(r), x) ==> Alive(r, x) by {
      hide TierAction, FailWithDependents, TransitionPayload, NoDup, Shape, WellListed, EscalatedLate, PendingServed;
      FailingOnlyFails(r.comps, TierAction(r.phase.k), x);
    }
    hide TypeOf, ListOf, TierOf, TierAction, Shape, WellListed, EscalatedLate, PendingServed, Due, ScanOne, Coherent, Alive, Pending;
  }

  lemma AnsweredKeepsOff(cfg: Config, r: Run, log: seq<Event>, e: Event, x: Xname, ok: bool)
    requires Shape(r) && Enabled(cfg, r, Respond(x, ok)) && OffSeen(r, log, x)
    ensures OffSeen(Answered(cfg, r, x, ok), log + [e], x)
  {
    ShapeParts(r);
    FailingOnlyFails(r.comps, TierAction(r.phase.k), x);
    hide TypeOf, ListOf, TierOf, TierAction, FailWithDependents, Shape, WellListed, EscalatedLate, PendingServed, Due, NoDup, TierList;
  }

  lemma PolledKeepsOff(cfg: Config, r: Run, log: seq<Event>, x: Xname, answer: Answer)
    requires Shape(r) && Enabled(cfg, r, PollOne(x, answer)) && OffSeen(r, log, x)
    ensures OffSeen(Polled(r, x, answer), log + [PollOne(x, answer)], x)
  {
    ShapeParts(r);
    FailingOnlyFails(r.comps, TierAction(r.phase.k), x);
    assert PollOne(x, answer) in log + [PollOne(x, answer)];
    hide TypeOf, ListOf, TierOf, TierAction, FailWithDependents, Shape, WellListed, EscalatedLate, PendingServed, Due, NoDup, TierList,
         Confirm;
  }

  lemma ExpiredKeepsOff(cfg: Config, r: Run, log: seq<Event>, e: Event, x: Xname)
    requires Shape(r) && Enabled(cfg, r, ExpireOne(x)) && OffSeen(r, log, x)
    ensures OffSeen(Expired(cfg, r, x), log + [e], x)
  {
    ShapeParts(r);
    assert Pending(r, x);
    FailingOnlyFails(r.comps, TierAction(r.phase.k), x);
    var r' := Expired(cfg, r, x);
    if Escalates(cfg, r.comps[x], TierAction(r.phase.k)) {
      AppendLists(r.lists, x);
      ForceOffFollows(TypeOf(x));
      ForceOffTier(TypeOf(x));
      assert Due(r'.lists, NextTier(r'.phase), x, ForceOff) by {
        hide TypeOf, ListOf, TierOf, FailWithDependents, Shape, WellListed, EscalatedLate, Append, NoDup, TierList, Coherent;
      }
    } else {
      hide TypeOf, ListOf, TierOf, TierAction, FailWithDependents, Shape, WellListed, EscalatedLate, PendingServed, Due, NoDup, TierList,
           Append, Escalates;
    }
  }

  lemma ForceOffTier(t: HMSType)
    ensures TierOf(GracefulShutdown, t) < TIERS ==> TierOf(ForceOff, t) < TIERS
  {
  }

  lemma StepKeepsOff(cfg: Config, r: Run, log: seq<Event>, e: Event, x: Xname)
    requires Shape(r) && Enabled(cfg, r, e) && x in r.comps && OffSeen(r, log, x)
    ensures OffSeen(Apply(cfg, r, e), log + [e], x)
  {
    ShapeParts(r);
    StepKeepsShape(cfg, r, e);
    hide TypeOf, ListOf, TierAction, TierList, FailWithDependents, ScanOne, Answered, Polled, Expired, WellListed,
         EscalatedLate, PendingServed, Shape, NoDup, Beside, OffAhead, Coherent;
    if r.phase.Aborted? {
      assert e == SignalAbort;
    } else if !Targets(r, e, x) {
      EventIsBeside(cfg, r, e, x);
      BesideKeepsOff(r, Apply(cfg, r, e), log, e, x);
    } else {
      match e
      case ScanNext => ScannedKeepsOff(r, log, e);
      case Respond(_, ok) => AnsweredKeepsOff(cfg, r, log, e, x, ok);
      case PollOne(_, answer) => PolledKeepsOff(cfg, r, log, x, answer);
      case ExpireOne(_) => ExpiredKeepsOff(cfg, r, log, e, x);
      case SeeAbort =>
      case SkipTier => TierStepKeepsOff(cfg, r, log, e, x);
      case StartScan => TierStepKeepsOff(cfg, r, log, e, x);
    }
  }

  lemma {:induction false} RunKeepsOff(cfg: Config, r: Run, log: seq<Event>, x: Xname)
    requires Shape(r) && x in r.comps && OffAhead(r, x) && After(cfg, r, log).Some?
    ensures x in After(cfg, r, log).value.comps && OffSeen(After(cfg, r, log).value, log, x)
  {
    hide Shape, OffAhead, Apply, Enabled, Alive;
    if log != [] {
      var n := |log| - 1;
      RunKeepsOff(cfg, r, log[..n], x);
      RunKeepsShape(cfg, r, log[..n]);
      var m := After(cfg, r, log[..n]).value;
      StepKeepsKeys(cfg, m, log[n]);
      hide OffSeen;
      StepKeepsOff(cfg, m, log[..n], log[n], x);
      assert log[..n] + [log[n]] == log;
    }
  }

  lemma NoOffLeft(r: Run, e: Event, x: Xname, ls: Lists)
    requires Shape(r) && ConfirmsLast(r, e, x) && Grown(ls, r.lists) && Served(ls, x) && FinalState(ls, x) == PowerOn
    ensures !OffAhead(r, x)
  {
    LastTierGivesFinalState(r, e, ls, x);
    ShapeParts(r);
    hide TypeOf, ListOf, TierOf, TierAction, Shape, WellListed, EscalatedLate, PendingServed, Grown, Served, FinalState;
    forall a | IsOffAction(a) ensures !Due(r.lists, NextTier(r.phase), x, a) {
    }
  }

  /** A task that was queued for off and then on and has succeeded was read off before it was
      read on, in every run with a non-zero deadline. */
  lemma RestartedThroughOff(cfg: Config, comps: Request, ls: Lists, sig: Option<nat>, log: seq<Event>, x: Xname, off: PowerAction)
    requires Sequenced(comps, ls) && x in comps && Counted(comps, ls, x) && Served(ls, x)
    requires IsOffAction(off) && x in ListOf(ls, off, TypeOf(x)) && x in ListOf(ls, PowerUp, TypeOf(x))
    requires cfg.deadline != 0 && After(cfg, Start(comps, ls, sig), log).Some?
    requires var r := After(cfg, Start(comps, ls, sig), log).value; x in r.comps && r.comps[x].status == TaskSucceeded
    ensures exists i, j :: 0 <= i < j < |log| && log[i] == PollOne(x, PollState(PowerOff)) && log[j] == PollOne(x, PollState(PowerOn))
  {
    var r0 := Start(comps, ls, sig);
    StartHasShape(comps, ls, sig);
    StartIsBalanced(comps, ls, sig, x);
    assert Due(ls, 0, x, off);
    assert Unfinished(comps[x].status);
    assert FinalState(ls, x) == PowerOn;
    assert OffAhead(r0, x);
    hide Apply, Enabled, ConfirmsLast, Grown, Balanced, Shape, Sequenced, Served, FinalState, OffAhead, TypeOf, ListOf, TierOf, After;
    SuccessWasObserved(cfg, r0, log, x);
    var j: nat :| Observed(cfg, r0, log, j, x);
    var m := After(cfg, r0, log[..j]).value;
    RunGrows(cfg, r0, log[..j]);
    RunKeepsShape(cfg, r0, log[..j]);
    RunKeepsOff(cfg, r0, log[..j], x);
    LastTierGivesFinalState(m, log[j], ls, x);
    NoOffLeft(m, log[j], x, ls);
    ConfirmerIsAlive(m, log[j], x);
    var i :| 0 <= i < j && log[..j][i] == PollOne(x, PollState(PowerOff));
    assert log[i] == PollOne(x, PollState(PowerOff));
  }

  lemma ConfirmerIsAlive(r: Run, e: Event, x: Xname)
    requires Shape(r) && ConfirmsLast(r, e, x)
    ensures Alive(r, x) && !r.phase.Aborted? && e.PollOne? && e.x == x
  {
    ShapeParts(r);
    hide TypeOf, ListOf, TierOf, TierAction, Shape, WellListed, EscalatedLate, ActionsDue;
  }
}
