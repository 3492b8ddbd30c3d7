/** What an event means for a component that it is not about. */
module Bystanders {
  import opened Xnames
  import opened TransitionModel
  import opened Sequencing
  import opened TierRunner
  import opened TierShape
  import opened TierCounts

  /** The event handles `x`, or moves on to another tier. */
  predicate Targets(r: Run, e: Event, x: Xname) {
    match e
    case ScanNext => r.phase.Scanning? && r.phase.todo != [] && r.phase.todo[0] == x
    case Respond(y, _) => y == x
    case PollOne(y, _) => y == x
    case ExpireOne(y) => y == x
    case SkipTier => true
    case StartScan => true
    case SeeAbort => true
    case _ => false
  }

  /** As far as `x` goes nothing happened, but that it may have been failed by another. */
  ghost predicate Beside(r: Run, r': Run, x: Xname) {
    && x in r.comps && x in r'.comps
    && (r'.comps[x] == r.comps[x] || r'.comps[x] == r.comps[x].(status := TaskFailed))
    && (x in r'.inflight <==> x in r.inflight) && (x in r'.waiting <==> x in r.waiting)
    && (x in Todo(r'.phase) <==> x in Todo(r.phase))
    && NextTier(r'.phase) == NextTier(r.phase) && (Busy(r'.phase) && Busy(r.phase) ==> r'.phase.k == r.phase.k)
    && (forall a :: x in ListOf(r'.lists, a, TypeOf(x)) <==> x in ListOf(r.lists, a, TypeOf(x)))
  }

  lemma ScanIsBeside(r: Run, x: Xname)
    requires r.phase.Scanning? && r.phase.k < TIERS && r.phase.todo != [] && r.phase.todo[0] in r.comps && NoDup(r.phase.todo)
    requires x in r.comps && r.phase.todo[0] != x
    ensures Beside(r, ScanOne(r), x)
  {
    hide TypeOf, ListOf, TierAction, FailWithDependents, TransitionPayload, NoDup;
    NoDupTail(r.phase.todo);
    FailingOnlyFails(r.comps, TierAction(r.phase.k), r.phase.todo[0]);
  }

  lemma AnswerIsBeside(cfg: Config, r: Run, y: Xname, ok: bool, x: Xname)
    requires r.phase.Responding? && r.phase.k < TIERS && y in r.comps && x in r.comps && x != y
    ensures Beside(r, Answered(cfg, r, y, ok), x)
  {
    hide TypeOf, ListOf, TierAction, FailWithDependents;
    FailingOnlyFails(r.comps, TierAction(r.phase.k), y);
  }

  lemma PollIsBeside(r: Run, y: Xname, answer: Answer, x: Xname)
    requires r.phase.Polling? && r.phase.k < TIERS && y in r.comps && x in r.comps && x != y
    ensures Beside(r, Polled(r, y, answer), x)
  {
    hide TypeOf, ListOf, TierAction, FailWithDependents, Confirm;
    FailingOnlyFails(r.comps, TierAction(r.phase.k), y);
  }

  lemma ExpiryIsBeside(cfg: Config, r: Run, y: Xname, x: Xname)
    requires r.phase.Expiring? && r.phase.k < TIERS && y in r.comps && x in r.comps && x != y
    ensures Beside(r, Expired(cfg, r, y), x)
  {
    AppendLists(r.lists, y);
    hide TypeOf, ListOf, TierAction, FailWithDependents, Append, Escalates;
    FailingOnlyFails(r.comps, TierAction(r.phase.k), y);
  }

  lemma EventIsBeside(cfg: Config, r: Run, e: Event, x: Xname)
    requires Shape(r) && Enabled(cfg, r, e) && x in r.comps && !Targets(r, e, x)
    ensures Beside(r, Apply(cfg, r, e), x)
  {
    ShapeParts(r);
    hide TypeOf, ListOf, TierAction, TierList, FailWithDependents, ScanOne, Answered, Polled, Expired, WellListed,
         EscalatedLate, PendingServed, Shape, NoDup, Beside;
    match e
    case ScanNext => ScanIsBeside(r, x);
    case Respond(y, ok) => AnswerIsBeside(cfg, r, y, ok, x);
    case PollOne(y, answer) => PollIsBeside(r, y, answer, x);
    case ExpireOne(y) => ExpiryIsBeside(cfg, r, y, x);
    case LoseReservation(y, a) => LossIsBeside(cfg, r, y, a, x);
    case _ => QuietIsBeside(cfg, r, e, x);
  }

  lemma LossIsBeside(cfg: Config, r: Run, y: Xname, a: PowerAction, x: Xname)
    requires Placed(r.phase) && Enabled(cfg, r, LoseReservation(y, a)) && x in r.comps
    ensures Beside(r, Apply(cfg, r, LoseReservation(y, a)), x)
  {
    hide TypeOf, ListOf, TierAction, FailWithDependents;
    FailingOnlyFails(r.comps, a, y);
  }

  lemma QuietIsBeside(cfg: Config, r: Run, e: Event, x: Xname)
    requires Placed(r.phase) && Enabled(cfg, r, e) && x in r.comps
    requires e.SignalAbort? || e.PassCheck? || e.EndScan? || e.EndResponses? || e.EndRound? || e.EndExpiry? || e.Finish?
    ensures Beside(r, Apply(cfg, r, e), x)
  {
    hide TypeOf, ListOf, TierAction, TierList, TierOf;
  }

  /** A tier is passed over or started. */
  lemma TierStepFields(cfg: Config, r: Run, e: Event, x: Xname)
    requires Placed(r.phase) && PendingServed(r) && Enabled(cfg, r, e) && (e.SkipTier? || e.StartScan?)
    ensures var r' := Apply(cfg, r, e);
            && r'.comps == r.comps && r'.lists == r.lists && r'.inflight == r.inflight && r'.waiting == r.waiting
            && (r.phase.Boundary? || r.phase.Reserving?) && r.phase.k < TIERS && !Pending(r, x)
            && NextTier(r.phase) == r.phase.k && NextTier(r'.phase) == r.phase.k + 1
            && (Pending(r', x) <==> x in TierList(r.lists, r.phase.k))
            && (e.StartScan? ==> r'.phase == Scanning(r.phase.k, TierList(r.lists, r.phase.k)))
            && (e.SkipTier? ==> r'.phase == Boundary(r.phase.k + 1))
  {
    hide TypeOf, ListOf, TierOf, TierAction, TierList;
  }
}
