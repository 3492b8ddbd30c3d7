/** Runs with a task deadline of zero.  The runner then counts an action both when
    the command is accepted and when the power state is confirmed; this module
    proves exactly which tasks still finish. */
module ZeroDeadline {
  import opened Xnames
  import opened TransitionModel
  import opened Sequencing
  import opened TierRunner
  import opened TierShape
  import opened TierCounts
  import opened RunBuilding
  import opened Bystanders

  predicate MayEscalate(cfg: Config, comps: Request, ls: Lists, x: Xname)
    requires x in comps
  {
    x in ListOf(ls, GracefulShutdown, TypeOf(x)) && Escalates(cfg, comps[x], GracefulShutdown)
  }

  /** The action is the first one queued, in tier order. */
  predicate FirstQueued(ls: Lists, x: Xname, a: PowerAction) {
    && x in ListOf(ls, a, TypeOf(x))
    && forall b :: x in ListOf(ls, b, TypeOf(x)) ==> TierOf(a, TypeOf(x)) <= TierOf(b, TypeOf(x))
  }

  /** The first command was sent by an earlier runner, and is only waited for. */
  predicate AwaitsFirst(comps: Request, ls: Lists, x: Xname)
    requires x in comps
  {
    exists a :: FirstQueued(ls, x, a) && Awaited(comps[x], a)
  }

  /** At most one command is left to be counted twice, a possible force-off included; one
      more is harmless if the first is only waited for.  Decidable before the run starts. */
  predicate SafeAtZero(cfg: Config, comps: Request, ls: Lists, x: Xname)
    requires x in comps
  {
    Listings(ls, x) + One(MayEscalate(cfg, comps, ls, x)) <= 1 + One(AwaitsFirst(comps, ls, x))
  }

  // ----- Safe tasks finish -------------------------------------------------------------

  /** The component can still be escalated. */
  ghost predicate CanEscalate(cfg: Config, r: Run, x: Xname)
    requires x in r.comps
  {
    && Escalates(cfg, r.comps[x], GracefulShutdown)
    && (|| Due(r.lists, NextTier(r.phase), x, GracefulShutdown)
        || (Pending(r, x) && Busy(r.phase) && r.phase.k < TIERS && TierAction(r.phase.k) == GracefulShutdown))
  }

  ghost predicate SingleVisit(cfg: Config, r: Run, x: Xname) {
    && x in r.comps
    && var c := r.comps[x];
       && Owed(r, x) + One(CanEscalate(cfg, r, x)) <= 1
       && (Unfinished(c.status) ==> Owed(r, x) == 1)
       && (Unfinished(c.status) || x in r.inflight ==> c.actionCount == 1)
       && (Owed(r, x) > 0 && x !in r.inflight && x !in r.waiting ==> c.status != TaskSucceeded && c.status != TaskUnsupported)
  }

  // --- Events that are not about the component ---

  lemma BesideOwesTheSame(cfg: Config, r: Run, r': Run, x: Xname)
    requires PendingServed(r) && Beside(r, r', x)
    ensures Owed(r', x) == Owed(r, x) && (CanEscalate(cfg, r', x) ==> CanEscalate(cfg, r, x))
    ensures forall k: nat, a :: Due(r'.lists, k, x, a) <==> Due(r.lists, k, x, a)
  {
    hide TypeOf, ListOf, TierOf, TierAction;
  }

  lemma BesideStaysSingle(cfg: Config, r: Run, r': Run, x: Xname)
    requires PendingServed(r) && SingleVisit(cfg, r, x) && Beside(r, r', x)
    ensures SingleVisit(cfg, r', x)
  {
    BesideOwesTheSame(cfg, r, r', x);
    hide Owed, CanEscalate, PendingServed, ListOf, TypeOf;
  }

  // --- Its own events ---

  lemma ShutdownComesFirst(a: PowerAction, t: HMSType)
    requires TierOf(a, t) < TIERS && TierOf(GracefulShutdown, t) < TIERS
    ensures TierOf(GracefulShutdown, t) <= TierOf(a, t)
  {
  }

  /** Once its visit in a tier is over, a component cannot be escalated any more. */
  lemma NoSecondChance(cfg: Config, r: Run, r': Run, x: Xname)
    requires PendingServed(r) && Busy(r.phase) && r.phase.k < TIERS && Pending(r, x)
    requires x in r'.comps && !Pending(r', x) && NextTier(r'.phase) == NextTier(r.phase)
    ensures !CanEscalate(cfg, r', x)
  {
    hide TypeOf, ListOf, TierOf, TierAction;
    if TierOf(GracefulShutdown, TypeOf(x)) < TIERS {
      ShutdownComesFirst(TierAction(r.phase.k), TypeOf(x));
    }
  }

  /** A visit that is over, with the lists unchanged, is no longer owed. */
  lemma VisitOver(cfg: Config, r: Run, r': Run, x: Xname)
    requires PendingServed(r) && Busy(r.phase) && r.phase.k < TIERS && Pending(r, x)
    requires x in r'.comps && !Pending(r', x) && NextTier(r'.phase) == NextTier(r.phase) && r'.lists == r.lists
    ensures Owed(r', x) == Owed(r, x) - 1 && !CanEscalate(cfg, r', x)
  {
    NoSecondChance(cfg, r, r', x);
    hide ActionsDue, CanEscalate;
  }

  lemma ScannedStaysSingle(cfg: Config, r: Run)
    requires Coherent(r) && PendingServed(r) && r.phase.Scanning? && r.phase.k < TIERS
    requires r.phase.todo != [] && r.phase.todo[0] in r.comps && SingleVisit(cfg, r, r.phase.todo[0])
    ensures SingleVisit(cfg, ScanOne(r), r.phase.todo[0])
  {
    var x := r.phase.todo[0];
    NoDupTail(r.phase.todo);
    FailingOnlyFails(r.comps, TierAction(r.phase.k), x);
    assert Pending(r, x);
    var r' := ScanOne(r);
    hide TypeOf, ListOf, TierOf, TierAction, FailWithDependents, TransitionPayload, ActionsDue, NoDup, PendingServed, Escalates;
    if !Pending(r', x) {
      VisitOver(cfg, r, r', x);
    }
  }

  lemma AnsweredStaysSingle(cfg: Config, r: Run, x: Xname, ok: bool)
    requires Coherent(r) && PendingServed(r) && r.phase.Responding? && r.phase.k < TIERS && x in r.inflight && cfg.deadline == 0
    requires SingleVisit(cfg, r, x)
    ensures SingleVisit(cfg, Answered(cfg, r, x, ok), x)
  {
    FailingOnlyFails(r.comps, TierAction(r.phase.k), x);
    assert Pending(r, x);
    var r' := Answered(cfg, r, x, ok);
    hide TypeOf, ListOf, TierOf, TierAction, FailWithDependents, ActionsDue, NoDup, PendingServed;
    if !Pending(r', x) {
      VisitOver(cfg, r, r', x);
    }
  }

  lemma PolledStaysSingle(cfg: Config, r: Run, x: Xname, answer: Answer)
    requires Coherent(r) && PendingServed(r) && r.phase.Polling? && r.phase.k < TIERS && x in r.phase.left && x in r.comps
    requires SingleVisit(cfg, r, x)
    ensures SingleVisit(cfg, Polled(r, x, answer), x)
  {
    FailingOnlyFails(r.comps, TierAction(r.phase.k), x);
    assert Pending(r, x);
    var r' := Polled(r, x, answer);
    hide TypeOf, ListOf, TierOf, TierAction, FailWithDependents, ActionsDue, NoDup, PendingServed, Escalates;
    if !Pending(r', x) {
      VisitOver(cfg, r, r', x);
    }
  }

  lemma ExpiredStaysSingle(cfg: Config, r: Run, x: Xname)
    requires Coherent(r) && PendingServed(r) && r.phase.Expiring? && r.phase.k < TIERS && x in r.waiting && x in r.comps
    requires SingleVisit(cfg, r, x)
    ensures SingleVisit(cfg, Expired(cfg, r, x), x)
  {
    FailingOnlyFails(r.comps, TierAction(r.phase.k), x);
    assert Pending(r, x);
    var r' := Expired(cfg, r, x);
    assert !Escalates(cfg, r.comps[x], TierAction(r.phase.k));
    hide TypeOf, ListOf, TierOf, TierAction, FailWithDependents, ActionsDue, NoDup, PendingServed, Escalates, Append;
    VisitOver(cfg, r, r', x);
  }

  lemma TierStep(cfg: Config, r: Run, e: Event, x: Xname)
    requires Shape(r) && Enabled(cfg, r, e) && (e.SkipTier? || e.StartScan?) && x in r.comps
    ensures var r' := Apply(cfg, r, e);
            x in r'.comps && Owed(r', x) == Owed(r, x) && (CanEscalate(cfg, r', x) ==> CanEscalate(cfg, r, x))
  {
    ShapeParts(r);
    TierStepFields(cfg, r, e, x);
    var k := r.phase.k;
    ActionsDueStep(r.comps, r.lists, k, x);
    TierListHas(r.comps, r.lists, k);
    DueStep(r.lists, k, x, GracefulShutdown);
    hide TypeOf, ListOf, TierOf, TierAction, TierList, ActionsDue, WellListed, EscalatedLate, Shape, Due, PendingServed, Coherent,
         Enabled, Apply, Pending, Escalates;
  }

  lemma TierStepStaysSingle(cfg: Config, r: Run, e: Event, x: Xname)
    requires Shape(r) && Enabled(cfg, r, e) && (e.SkipTier? || e.StartScan?) && SingleVisit(cfg, r, x)
    ensures SingleVisit(cfg, Apply(cfg, r, e), x)
  {
    ShapeParts(r);
    TierStep(cfg, r, e, x);
    TierStepFields(cfg, r, e, x);
    hide Owed, CanEscalate, Shape, TierList, Enabled, Apply, Pending, PendingServed, Coherent, WellListed, EscalatedLate;
  }

  /** After an abort nothing is owed and nothing is unfinished. */
  lemma AbortIsSingle(cfg: Config, r: Run, x: Xname)
    requires Placed(r.phase) && Enabled(cfg, r, SeeAbort) && x in r.comps
    ensures SingleVisit(cfg, Apply(cfg, r, SeeAbort), x)
  {
    var r' := Apply(cfg, r, SeeAbort);
    NothingDueAtTheEnd(r'.lists, x);
    hide TypeOf, ListOf, TierOf, TierList, ActionsDue;
  }

  lemma StepKeepsSingle(cfg: Config, r: Run, e: Event, x: Xname)
    requires Shape(r) && Enabled(cfg, r, e) && cfg.deadline == 0 && SingleVisit(cfg, r, x)
    ensures SingleVisit(cfg, Apply(cfg, r, e), x)
  {
    ShapeParts(r);
    hide TypeOf, ListOf, TierAction, TierList, FailWithDependents, ScanOne, Answered, Polled, Expired, WellListed,
         EscalatedLate, PendingServed, Shape, NoDup, AbortTasks, Owed, CanEscalate, Beside;
    if !Targets(r, e, x) {
      EventIsBeside(cfg, r, e, x);
      BesideStaysSingle(cfg, r, Apply(cfg, r, e), x);
    } else {
      match e
      case ScanNext => ScannedStaysSingle(cfg, r);
      case Respond(_, ok) => AnsweredStaysSingle(cfg, r, x, ok);
      case PollOne(_, answer) => PolledStaysSingle(cfg, r, x, answer);
      case ExpireOne(_) => ExpiredStaysSingle(cfg, r, x);
      case SeeAbort => AbortIsSingle(cfg, r, x);
      case SkipTier => TierStepStaysSingle(cfg, r, e, x);
      case StartScan => TierStepStaysSingle(cfg, r, e, x);
    }
  }

  // --- Before the first visit of a component whose command is only waited for ---

  /** Action `a` is the next one that is due. */
  predicate FirstDue(ls: Lists, k: nat, x: Xname, a: PowerAction) {
    Due(ls, k, x, a) && forall b :: Due(ls, k, x, b) ==> TierOf(a, TypeOf(x)) <= TierOf(b, TypeOf(x))
  }

  ghost predicate FirstAwaited(cfg: Config, r: Run, x: Xname, a: PowerAction) {
    && x in r.comps && x !in r.inflight
    && var c := r.comps[x];
       && Awaited(c, a) && c.status != TaskSucceeded && c.status != TaskUnsupported
       && c.actionCount == Owed(r, x) && 1 <= Owed(r, x) && Owed(r, x) + One(CanEscalate(cfg, r, x)) <= 2
       && (if Pending(r, x) then Busy(r.phase) && r.phase.k < TIERS && TierAction(r.phase.k) == a
           else FirstDue(r.lists, NextTier(r.phase), x, a))
  }

  lemma BesideStaysAwaited(cfg: Config, r: Run, r': Run, x: Xname, a: PowerAction)
    requires PendingServed(r) && PendingServed(r') && FirstAwaited(cfg, r, x, a) && Beside(r, r', x)
    ensures FirstAwaited(cfg, r', x, a)
  {
    BesideOwesTheSame(cfg, r, r', x);
    assert Pending(r', x) <==> Pending(r, x);
    hide Owed, CanEscalate, ListOf, TypeOf, TierOf, TierAction, Due;
  }

  lemma ScannedStaysAwaited(cfg: Config, r: Run, a: PowerAction)
    requires Coherent(r) && PendingServed(r) && r.phase.Scanning? && r.phase.k < TIERS
    requires r.phase.todo != [] && FirstAwaited(cfg, r, r.phase.todo[0], a)
    ensures var x, r' := r.phase.todo[0], ScanOne(r); FirstAwaited(cfg, r', x, a) || SingleVisit(cfg, r', x)
  {
    var x := r.phase.todo[0];
    NoDupTail(r.phase.todo);
    assert Pending(r, x);
    var r' := ScanOne(r);
    hide TypeOf, ListOf, TierOf, TierAction, FailWithDependents, TransitionPayload, ActionsDue, NoDup, PendingServed, Escalates, Due,
         FirstDue;
    if !Pending(r', x) {
      VisitOver(cfg, r, r', x);
    }
  }

  lemma PolledEndsAwaiting(cfg: Config, r: Run, x: Xname, answer: Answer, a: PowerAction)
    requires Coherent(r) && PendingServed(r) && r.phase.Polling? && r.phase.k < TIERS && x in r.phase.left
    requires FirstAwaited(cfg, r, x, a)
    ensures var r' := Polled(r, x, answer); FirstAwaited(cfg, r', x, a) || SingleVisit(cfg, r', x)
  {
    FailingOnlyFails(r.comps, TierAction(r.phase.k), x);
    assert Pending(r, x);
    var r' := Polled(r, x, answer);
    hide TypeOf, ListOf, TierOf, TierAction, FailWithDependents, ActionsDue, NoDup, PendingServed, Escalates, Due, FirstDue;
    if !Pending(r', x) {
      VisitOver(cfg, r, r', x);
    }
  }

  lemma EscalatedEndsAwaiting(cfg: Config, r: Run, x: Xname, a: PowerAction)
    requires Shape(r) && Enabled(cfg, r, ExpireOne(x)) && FirstAwaited(cfg, r, x, a)
    requires Escalates(cfg, r.comps[x], TierAction(r.phase.k))
    ensures SingleVisit(cfg, Expired(cfg, r, x), x)
  {
    ShapeParts(r);
    assert Pending(r, x);
    var r' := Expired(cfg, r, x);
    EscalationKeepsShape(cfg, r, x);
    EscalationAddsOne(r.lists, r.phase.k, x, x);
    hide TypeOf, ListOf, TierOf, FailWithDependents, ActionsDue, NoDup, WellListed, EscalatedLate, Shape, Append, FirstDue, Due;
    assert CanEscalate(cfg, r, x);
    NoSecondChance(cfg, r, r', x);
    hide CanEscalate, TierAction;
  }

  lemma ExpiredEndsAwaiting(cfg: Config, r: Run, x: Xname, a: PowerAction)
    requires Shape(r) && Enabled(cfg, r, ExpireOne(x)) && FirstAwaited(cfg, r, x, a)
    ensures SingleVisit(cfg, Expired(cfg, r, x), x)
  {
    if Escalates(cfg, r.comps[x], TierAction(r.phase.k)) {
      hide *;
      EscalatedEndsAwaiting(cfg, r, x, a);
    } else {
      ShapeParts(r);
      assert x in r.waiting;
      hide *;
      LateEndsAwaiting(cfg, r, x, a);
    }
  }

  lemma LateEndsAwaiting(cfg: Config, r: Run, x: Xname, a: PowerAction)
    requires Coherent(r) && PendingServed(r) && r.phase.Expiring? && r.phase.k < TIERS && x in r.waiting
    requires FirstAwaited(cfg, r, x, a) && !Escalates(cfg, r.comps[x], TierAction(r.phase.k))
    ensures SingleVisit(cfg, Expired(cfg, r, x), x)
  {
    FailingOnlyFails(r.comps, TierAction(r.phase.k), x);
    assert Pending(r, x);
    var r' := Expired(cfg, r, x);
    hide TypeOf, ListOf, TierOf, TierAction, FailWithDependents, ActionsDue, NoDup, Append, PendingServed, Escalates, Due, FirstDue;
    VisitOver(cfg, r, r', x);
    hide CanEscalate;
  }

  lemma TierStepStaysAwaited(cfg: Config, r: Run, e: Event, x: Xname, a: PowerAction)
    requires Shape(r) && Enabled(cfg, r, e) && (e.SkipTier? || e.StartScan?) && FirstAwaited(cfg, r, x, a)
    ensures FirstAwaited(cfg, Apply(cfg, r, e), x, a)
  {
    ShapeParts(r);
    TierStep(cfg, r, e, x);
    TierStepFields(cfg, r, e, x);
    var k := r.phase.k;
    NextIsFirstDue(r.comps, r.lists, k, x, a);
    hide Owed, CanEscalate, Shape, TierList, Enabled, Apply, Pending, PendingServed, Coherent, WellListed, EscalatedLate, FirstDue,
         TierAction;
  }

  /** The action due first is the one of this tier, or still the first after it. */
  lemma NextIsFirstDue(comps: Request, ls: Lists, k: nat, x: Xname, a: PowerAction)
    requires WellListed(comps, ls) && k < TIERS && FirstDue(ls, k, x, a)
    ensures if x in TierList(ls, k) then TierAction(k) == a else FirstDue(ls, k + 1, x, a)
  {
    TierListHas(comps, ls, k);
    TierOfAction(a, TypeOf(x));
    hide TypeOf, ListOf, TierOf, TierAction, TierList, WellListed;
    if x in TierList(ls, k) {
      assert Due(ls, k, x, TierAction(k));
    } else {
      forall b ensures Due(ls, k, x, b) <==> Due(ls, k + 1, x, b) {
        DueStep(ls, k, x, b);
      }
    }
  }

  /** The component is safe from here on. */
  ghost predicate Safe(cfg: Config, r: Run, x: Xname, a: PowerAction) {
    SingleVisit(cfg, r, x) || FirstAwaited(cfg, r, x, a)
  }

  lemma AwaitedStaysSafe(cfg: Config, r: Run, e: Event, x: Xname, a: PowerAction)
    requires Shape(r) && Enabled(cfg, r, e) && cfg.deadline == 0 && FirstAwaited(cfg, r, x, a)
    ensures Safe(cfg, Apply(cfg, r, e), x, a)
  {
    ShapeParts(r);
    assert x in r.comps && x !in r.inflight;
    hide TypeOf, ListOf, TierAction, TierList, FailWithDependents, ScanOne, Answered, Polled, Expired, WellListed,
         EscalatedLate, PendingServed, Shape, NoDup, AbortTasks, Owed, CanEscalate, Beside, SingleVisit, FirstAwaited;
    if !Targets(r, e, x) {
      EventIsBeside(cfg, r, e, x);
      StepKeepsShape(cfg, r, e);
      ShapeParts(Apply(cfg, r, e));
      BesideStaysAwaited(cfg, r, Apply(cfg, r, e), x, a);
    } else {
      match e
      case ScanNext => ScannedStaysAwaited(cfg, r, a);
      case PollOne(_, answer) => PolledEndsAwaiting(cfg, r, x, answer, a);
      case ExpireOne(_) => ExpiredEndsAwaiting(cfg, r, x, a);
      case SeeAbort => AbortIsSingle(cfg, r, x);
      case SkipTier => TierStepStaysAwaited(cfg, r, e, x, a);
      case StartScan => TierStepStaysAwaited(cfg, r, e, x, a);
      case _ =>
    }
  }

  lemma {:induction false} RunStaysSafe(cfg: Config, r: Run, log: seq<Event>, x: Xname, a: PowerAction)
    requires Shape(r) && Safe(cfg, r, x, a) && cfg.deadline == 0 && After(cfg, r, log).Some?
    ensures Safe(cfg, After(cfg, r, log).value, x, a)
  {
    hide Shape, SingleVisit, FirstAwaited, Apply, Enabled;
    if log != [] {
      var mid := log[..|log| - 1];
      RunStaysSafe(cfg, r, mid, x, a);
      RunKeepsShape(cfg, r, mid);
      var m := After(cfg, r, mid).value;
      if SingleVisit(cfg, m, x) {
        StepKeepsSingle(cfg, m, log[|log| - 1], x);
      } else {
        AwaitedStaysSafe(cfg, m, log[|log| - 1], x, a);
      }
    }
  }

  lemma DueIsListed(ls: Lists, x: Xname)
    requires Served(ls, x)
    ensures forall a :: Due(ls, 0, x, a) <==> x in ListOf(ls, a, TypeOf(x))
    ensures ActionsDue(ls, 0, x) == Listings(ls, x)
  {
    hide TypeOf, ListOf, TierOf;
  }

  lemma SafeStart(cfg: Config, comps: Request, ls: Lists, sig: Option<nat>, x: Xname) returns (a: PowerAction)
    requires Sequenced(comps, ls) && x in comps && Counted(comps, ls, x) && Served(ls, x) && SafeAtZero(cfg, comps, ls, x)
    ensures Safe(cfg, Start(comps, ls, sig), x, a)
  {
    var r := Start(comps, ls, sig);
    a := PowerUp;
    DueIsListed(ls, x);
    StartIsBalanced(comps, ls, sig, x);
    assert Owed(r, x) == Listings(ls, x) && (CanEscalate(cfg, r, x) <==> MayEscalate(cfg, comps, ls, x));
    hide TypeOf, ListOf, TierOf, ActionsDue, WellListed, CanEscalate, MayEscalate;
    if AwaitsFirst(comps, ls, x) {
      a :| FirstQueued(ls, x, a) && Awaited(comps[x], a);
      assert Unfinished(comps[x].status);
      hide Listings;
    }
  }

  /** With deadline zero, a safe task is finished when the run ends. */
  lemma SafeTaskFinishes(cfg: Config, comps: Request, ls: Lists, sig: Option<nat>, log: seq<Event>, x: Xname)
    requires Sequenced(comps, ls) && x in comps && Counted(comps, ls, x) && Served(ls, x)
    requires cfg.deadline == 0 && SafeAtZero(cfg, comps, ls, x)
    requires After(cfg, Start(comps, ls, sig), log).Some?
    requires After(cfg, Start(comps, ls, sig), log).value.phase == Finished
    ensures var r := After(cfg, Start(comps, ls, sig), log).value;
            x in r.comps && !Unfinished(r.comps[x].status)
  {
    hide TypeOf, ListOf, TierOf, TierList, ActionsDue, Apply, Enabled, SafeAtZero, Sequenced, Served, Counted, CanEscalate, After;
    var r0 := Start(comps, ls, sig);
    StartHasShape(comps, ls, sig);
    var a := SafeStart(cfg, comps, ls, sig, x);
    RunStaysSafe(cfg, r0, log, x, a);
    RunKeepsShape(cfg, r0, log);
    var r := After(cfg, r0, log).value;
    NothingDueAtTheEnd(r.lists, x);
    assert !Pending(r, x);
  }

  // ----- Unsafe tasks need not finish ----------------------------------------------------

  /** What is queued for the components other than `x` can be sent. */
  ghost predicate OthersCommandable(comps: Request, ls: Lists, x: Xname) {
    forall a, t, y :: y in ListOf(ls, a, t) && y != x ==> y in comps && TransitionPayload(y, comps[y], a).Some?
  }

  /** What is queued for `x` can be sent, or is only waited for. */
  ghost predicate Commandable(comps: Request, ls: Lists, x: Xname)
    requires x in comps
  {
    forall a :: x in ListOf(ls, a, TypeOf(x)) ==>
      TransitionPayload(x, comps[x], a).Some? || (FirstQueued(ls, x, a) && Awaited(comps[x], a))
  }

  /** A request that nothing has failed in. */
  ghost predicate Alike(p: Request, q: Request) {
    && q.Keys == p.Keys
    && forall y :: y in p ==>
         && q[y].actions == p[y].actions && q[y].rtsOutlet == p[y].rtsOutlet
         && (q[y].status == TaskFailed ==> p[y].status == TaskFailed)
  }

  /** A run of the request that has come to tier `k` without a failure; at most `x` was
      queued for more. */
  ghost predicate Ahead(comps: Request, ls: Lists, r: Run, k: nat, x: Xname) {
    && Calm(r, k) && Shape(r) && Alike(comps, r.comps)
    && forall a, t, y :: y != x && y in ListOf(r.lists, a, t) ==> y in ListOf(ls, a, t)
  }

  lemma TierGoes(comps: Request, ls: Lists, r: Run, k: nat, x: Xname)
    requires Sequenced(comps, ls) && OthersCommandable(comps, ls, x) && k < TIERS && Ahead(comps, ls, r, k, x)
    requires x in TierList(r.lists, k) ==> x in r.comps && Goes(x, r.comps[x], TierAction(k))
    ensures AllGo(r, TierList(r.lists, k), TierAction(k))
  {
    ShapeParts(r);
    TierListHas(r.comps, r.lists, k);
    hide TypeOf, ListOf, TierOf, TierAction, TierList, TransitionPayload, Shape, NoDup;
    forall y | y in TierList(r.lists, k) ensures y in r.comps && Goes(y, r.comps[y], TierAction(k)) {
      if y != x {
        assert y in ListOf(ls, TierAction(k), TypeOf(y));
        PayloadIgnoresTask(y, comps[y], r.comps[y], TierAction(k));
      }
    }
  }

  lemma VisitedStaysAlike(cfg: Config, c: Component, a: PowerAction, confirmed: bool)
    requires c.status != TaskFailed && cfg.deadline == 0
    ensures var d := Visited(cfg, c, a, confirmed);
            && d.actions == c.actions && d.rtsOutlet == c.rtsOutlet && d.status != TaskFailed
            && (confirmed || !Awaited(c, a) ==> d.state == Confirmed)
            && (!Awaited(c, a) ==> d.actionCount == c.actionCount - (if confirmed then 2 else 1))
            && (Awaited(c, a) ==> d.actionCount == c.actionCount - (if confirmed then 1 else 0))
            && (Awaited(c, a) && confirmed && c.actionCount != 1 ==> d.status == c.status)
            && (Awaited(c, a) && !confirmed ==> d == c)
            && (!Awaited(c, a) && c.actionCount <= 0 ==> d.status == TaskInProgress)
  {
  }

  lemma VisitKeepsAhead(cfg: Config, comps: Request, ls: Lists, r: Run, r': Run, k: nat, x: Xname, late: set<Xname>)
    requires cfg.deadline == 0 && k < TIERS && Ahead(comps, ls, r, k, x) && AllGo(r, TierList(r.lists, k), TierAction(k))
    requires VisitedFrom(cfg, r, r', k, late) && Calm(r', k + 1) && Shape(r')
    requires r'.lists == r.lists || r'.lists == Append(r.lists, ForceOff, x)
    ensures Ahead(comps, ls, r', k + 1, x)
  {
    AppendLists(r.lists, x);
    hide TypeOf, ListOf, TierOf, TierAction, TierList, TransitionPayload, Shape, NoDup, Append, Visited;
    forall y | y in comps
      ensures r'.comps[y].actions == comps[y].actions && r'.comps[y].rtsOutlet == comps[y].rtsOutlet
      ensures r'.comps[y].status == TaskFailed ==> comps[y].status == TaskFailed
    {
      if y in TierList(r.lists, k) {
        VisitedStaysAlike(cfg, r.comps[y], TierAction(k), y !in late);
      }
    }
  }

  /** With `d` visits to come, all commanded and confirmed, the counter passes zero too early. */
  predicate Doomed(c: Component, d: nat) {
    if d == 0 then Unfinished(c.status) else c.status != TaskFailed && c.actionCount <= 2 * (d - 1)
  }

  /** What is still due for `x` will be commanded. */
  ghost predicate ToBeSent(r: Run, k: nat, x: Xname) {
    x in r.comps && forall a :: Due(r.lists, k, x, a) ==> TransitionPayload(x, r.comps[x], a).Some? && !Awaited(r.comps[x], a)
  }

  lemma DoomedVisit(cfg: Config, r: Run, r': Run, k: nat, x: Xname)
    requires cfg.deadline == 0
    requires k < TIERS && Shape(r) && ToBeSent(r, k, x) && Doomed(r.comps[x], ActionsDue(r.lists, k, x))
    requires VisitedFrom(cfg, r, r', k, {}) && r'.lists == r.lists
    requires x in TierList(r.lists, k) ==> Goes(x, r.comps[x], TierAction(k))
    ensures ToBeSent(r', k + 1, x) && Doomed(r'.comps[x], ActionsDue(r'.lists, k + 1, x))
  {
    ShapeParts(r);
    ActionsDueStep(r.comps, r.lists, k, x);
    TierListHas(r.comps, r.lists, k);
    var c, c' := r.comps[x], r'.comps[x];
    hide TypeOf, ListOf, TierOf, TierAction, TierList, TransitionPayload, Shape, NoDup, Visited, ActionsDue, WellListed,
         EscalatedLate, PendingServed, Coherent;
    if x in TierList(r.lists, k) {
      assert Due(r.lists, k, x, TierAction(k));
      VisitedStaysAlike(cfg, c, TierAction(k), true);
    }
    forall a | Due(r'.lists, k + 1, x, a) ensures TransitionPayload(x, c', a).Some? && !Awaited(c', a) {
      assert Due(r.lists, k, x, a);
      PayloadIgnoresTask(x, c, c', a);
    }
  }

  lemma DoomedGoes(r: Run, k: nat, x: Xname)
    requires k < TIERS && Shape(r) && ToBeSent(r, k, x) && Doomed(r.comps[x], ActionsDue(r.lists, k, x))
    ensures x in r.comps && (x in TierList(r.lists, k) ==> Goes(x, r.comps[x], TierAction(k)))
  {
    ShapeParts(r);
    ActionsDueStep(r.comps, r.lists, k, x);
    TierListHas(r.comps, r.lists, k);
    hide TypeOf, ListOf, TierOf, TierAction, TierList, TransitionPayload, Shape, NoDup, ActionsDue, WellListed,
         EscalatedLate, PendingServed, Coherent;
    if x in TierList(r.lists, k) {
      assert Due(r.lists, k, x, TierAction(k));
    }
  }

  /** A run that ends with the task unfinished. */
  ghost predicate EndsUnfinished(cfg: Config, comps: Request, ls: Lists, log: seq<Event>, x: Xname) {
    var end := After(cfg, Start(comps, ls, None), log);
    end.Some? && end.value.phase == Finished && x in end.value.comps && Unfinished(end.value.comps[x].status)
  }

  lemma {:induction false} RunDoomed(cfg: Config, comps: Request, ls: Lists, log: seq<Event>, r: Run, k: nat, x: Xname)
    returns (log': seq<Event>)
    requires cfg.deadline == 0 && Sequenced(comps, ls) && OthersCommandable(comps, ls, x)
    requires After(cfg, Start(comps, ls, None), log) == Some(r) && Ahead(comps, ls, r, k, x)
    requires ToBeSent(r, k, x) && Doomed(r.comps[x], ActionsDue(r.lists, k, x))
    ensures EndsUnfinished(cfg, comps, ls, log', x)
    decreases TIERS - k
  {
    hide After, Sequenced, OthersCommandable, Shape, TierList, TierAction, TransitionPayload, ActionsDue, Doomed, ToBeSent, Alike,
         VisitedFrom, AllGo, Goes, ListOf;
    var r0 := Start(comps, ls, None);
    StartHasShape(comps, ls, None);
    if k == TIERS {
      AfterSnoc(cfg, r0, log, Finish);
      log' := log + [Finish];
      DoomedAtTheEnd(r, x);
    } else {
      DoomedGoes(r, k, x);
      TierGoes(comps, ls, r, k, x);
      var r';
      log', r' := ConfirmTier(cfg, r0, log, r, k);
      RunKeepsShape(cfg, r0, log');
      DoomedVisit(cfg, r, r', k, x);
      VisitKeepsAhead(cfg, comps, ls, r, r', k, x, {});
      log' := RunDoomed(cfg, comps, ls, log', r', k + 1, x);
    }
  }

  lemma DoomedAtTheEnd(r: Run, x: Xname)
    requires ToBeSent(r, TIERS, x) && Doomed(r.comps[x], ActionsDue(r.lists, TIERS, x))
    ensures x in r.comps && Unfinished(r.comps[x].status)
  {
    NothingDueAtTheEnd(r.lists, x);
    hide ActionsDue;
  }

  /** The tiers before the first one that lists the component. */
  lemma {:induction false} ReachTier(cfg: Config, comps: Request, ls: Lists, k: nat, x: Xname)
    returns (log: seq<Event>, r: Run)
    requires cfg.deadline == 0 && Sequenced(comps, ls) && OthersCommandable(comps, ls, x) && x in comps
    requires k <= TIERS && forall j :: 0 <= j < k ==> x !in TierList(ls, j)
    ensures After(cfg, Start(comps, ls, None), log) == Some(r) && Ahead(comps, ls, r, k, x)
    ensures r.lists == ls && r.comps[x] == comps[x]
  {
    hide After, Sequenced, OthersCommandable, Shape, TierList, TierAction, AllGo, Goes, ListOf, Visited;
    var r0 := Start(comps, ls, None);
    StartHasShape(comps, ls, None);
    if k == 0 {
      AfterNothing(cfg, r0);
      log, r := [], r0;
    } else {
      var m;
      log, m := ReachTier(cfg, comps, ls, k - 1, x);
      TierGoes(comps, ls, m, k - 1, x);
      log, r := ConfirmTier(cfg, r0, log, m, k - 1);
      RunKeepsShape(cfg, r0, log);
      VisitKeepsAhead(cfg, comps, ls, m, r, k - 1, x, {});
    }
  }

  lemma TiersInOrder(t: HMSType)
    ensures TierOf(GracefulShutdown, t) < TIERS ==> TierOf(GracefulShutdown, t) < TierOf(ForceOff, t)
    ensures TierOf(ForceOff, t) < TIERS ==> TierOf(ForceOff, t) < TierOf(GracefulRestart, t)
    ensures TierOf(GracefulShutdown, t) < TIERS ==> TierOf(GracefulShutdown, t) < TierOf(GracefulRestart, t)
    ensures TierOf(GracefulShutdown, t) < TIERS ==> TierOf(GracefulShutdown, t) < TierOf(PowerUp, t)
    ensures TierOf(ForceOff, t) < TIERS ==> TierOf(ForceOff, t) < TierOf(PowerUp, t)
    ensures TierOf(GracefulRestart, t) < TIERS ==> TierOf(GracefulRestart, t) < TierOf(PowerUp, t)
  {
  }

  lemma SomeFirst(ls: Lists, x: Xname) returns (a: PowerAction)
    requires Served(ls, x) && Listings(ls, x) >= 1
    ensures FirstQueued(ls, x, a) && TierOf(a, TypeOf(x)) < TIERS
    ensures x in ListOf(ls, GracefulShutdown, TypeOf(x)) ==> a == GracefulShutdown
    ensures forall b :: FirstQueued(ls, x, b) ==> b == a
  {
    TiersInOrder(TypeOf(x));
    hide ListOf, TypeOf, TierOf;
    if x in ListOf(ls, GracefulShutdown, TypeOf(x)) {
      a := GracefulShutdown;
    } else if x in ListOf(ls, ForceOff, TypeOf(x)) {
      a := ForceOff;
    } else if x in ListOf(ls, GracefulRestart, TypeOf(x)) {
      a := GracefulRestart;
    } else {
      a := PowerUp;
    }
    forall b ensures x in ListOf(ls, b, TypeOf(x)) ==> TierOf(a, TypeOf(x)) < TierOf(b, TypeOf(x)) || a == b {
      assert b.GracefulShutdown? || b.ForceOff? || b.GracefulRestart? || b.PowerUp?;
    }
  }

  lemma NotBeforeFirst(comps: Request, ls: Lists, x: Xname, a: PowerAction)
    requires WellListed(comps, ls) && FirstQueued(ls, x, a) && TierOf(a, TypeOf(x)) < TIERS
    ensures var k := TierOf(a, TypeOf(x));
            && TierAction(k) == a && x in TierList(ls, k) && forall j :: 0 <= j < k ==> x !in TierList(ls, j)
  {
    var k := TierOf(a, TypeOf(x));
    TierOfAction(a, TypeOf(x));
    TierListHas(comps, ls, k);
    hide TypeOf, ListOf, TierOf, TierList, WellListed, TierAction;
    forall j | 0 <= j < k ensures x !in TierList(ls, j) {
      TierListHas(comps, ls, j);
    }
  }

  /** The visits that are left after the first. */
  lemma DueAfterFirst(comps: Request, ls: Lists, x: Xname, a: PowerAction)
    requires WellListed(comps, ls) && Served(ls, x) && FirstQueued(ls, x, a) && TierOf(a, TypeOf(x)) < TIERS
    ensures var k := TierOf(a, TypeOf(x)); ActionsDue(ls, k + 1, x) == Listings(ls, x) - 1
    ensures var k := TierOf(a, TypeOf(x)); forall b :: Due(ls, k + 1, x, b) ==> b != a && x in ListOf(ls, b, TypeOf(x))
  {
    NotBeforeFirst(comps, ls, x, a);
    var k := TierOf(a, TypeOf(x));
    ActionsDueStep(comps, ls, k, x);
    hide TypeOf, ListOf, TierOf, TierList, WellListed, TierAction;
    assert ActionsDue(ls, k, x) == Listings(ls, x);
  }

  lemma FirstGoes(comps: Request, ls: Lists, x: Xname, a: PowerAction)
    requires Sequenced(comps, ls) && x in comps && Commandable(comps, ls, x) && FirstQueued(ls, x, a)
    ensures Goes(x, comps[x], a) && Unfinished(comps[x].status)
  {
    hide TypeOf, ListOf, TransitionPayload, WellListed;
  }

  /** After its first visit an unsafe component will be commanded once more at least ... */
  lemma SentAfterFirst(cfg: Config, comps: Request, ls: Lists, r: Run, k: nat, x: Xname, a: PowerAction, escalated: bool)
    requires cfg.deadline == 0 && WellListed(comps, ls) && x in comps && Served(ls, x) && Commandable(comps, ls, x)
    requires FirstQueued(ls, x, a) && k == TierOf(a, TypeOf(x)) + 1 <= TIERS && comps[x].status != TaskFailed
    requires forall b :: FirstQueued(ls, x, b) ==> b == a
    requires x in r.comps && r.comps[x] == Visited(cfg, comps[x], a, !escalated)
    requires escalated ==> a == GracefulShutdown && "forceoff" in comps[x].actions
    requires forall b :: Due(r.lists, k, x, b) ==> Due(ls, k, x, b) || (escalated && b == ForceOff)
    ensures ToBeSent(r, k, x)
  {
    DueAfterFirst(comps, ls, x, a);
    VisitedStaysAlike(cfg, comps[x], a, !escalated);
    assert escalated ==> TransitionPayload(x, comps[x], ForceOff).Some?;
    hide TypeOf, ListOf, TierOf, TransitionPayload, WellListed, ActionsDue, Visited, Due, FirstQueued, Listings, Served;
    forall b | Due(r.lists, k, x, b) ensures TransitionPayload(x, r.comps[x], b).Some? && !Awaited(r.comps[x], b) {
      PayloadIgnoresTask(x, comps[x], r.comps[x], b);
      assert b != a;
    }
  }

  /** ... and its counter will pass zero. */
  lemma DoomedAfterFirst(cfg: Config, c: Component, a: PowerAction, listings: nat, escalated: bool)
    requires cfg.deadline == 0 && c.actionCount == listings && c.status != TaskFailed
    requires listings + One(escalated) >= 2 + One(Awaited(c, a))
    ensures Doomed(Visited(cfg, c, a, !escalated), listings - 1 + One(escalated))
  {
    VisitedStaysAlike(cfg, c, a, !escalated);
    hide Visited;
  }

  /** A run in which an unsafe task is unfinished in the end, whatever else is requested. */
  lemma UnsafeNeedNotFinish(cfg: Config, comps: Request, ls: Lists, x: Xname) returns (log: seq<Event>)
    requires Sequenced(comps, ls) && x in comps && Counted(comps, ls, x) && Served(ls, x) && cfg.deadline == 0
    requires OthersCommandable(comps, ls, x) && Commandable(comps, ls, x)
    requires !SafeAtZero(cfg, comps, ls, x)
    ensures EndsUnfinished(cfg, comps, ls, log, x)
  {
    var a := SomeFirst(ls, x);
    FirstGoes(comps, ls, x, a);
    UnsafeAmount(cfg, comps, ls, x, a);
    SequencedIsWellListed(comps, ls);
    hide *;
    log := UnsafeFrom(cfg, comps, ls, x, a);
  }

  lemma UnsafeFrom(cfg: Config, comps: Request, ls: Lists, x: Xname, a: PowerAction) returns (log: seq<Event>)
    requires Sequenced(comps, ls) && WellListed(comps, ls) && x in comps && Served(ls, x) && cfg.deadline == 0
    requires OthersCommandable(comps, ls, x) && Commandable(comps, ls, x)
    requires FirstQueued(ls, x, a) && TierOf(a, TypeOf(x)) < TIERS && forall b :: FirstQueued(ls, x, b) ==> b == a
    requires Goes(x, comps[x], a) && Unfinished(comps[x].status) && comps[x].actionCount == Listings(ls, x)
    requires Listings(ls, x) + One(MayEscalate(cfg, comps, ls, x)) >= 2 + One(Awaited(comps[x], a))
    requires MayEscalate(cfg, comps, ls, x) ==> a == GracefulShutdown
    ensures EndsUnfinished(cfg, comps, ls, log, x)
  {
    hide Sequenced, WellListed, Served, OthersCommandable, Commandable, After, Doomed, Visited, FirstQueued, ListOf, TypeOf,
         TierOf, TierList, TierAction, EndsUnfinished, ActionsDue, MayEscalate, Listings, Goes, Awaited, Shape, Alike, AllGo,
         TransitionPayload;
    NotBeforeFirst(comps, ls, x, a);
    DueAfterFirst(comps, ls, x, a);
    var k := TierOf(a, TypeOf(x));
    DoomedAfterFirst(cfg, comps[x], a, Listings(ls, x), MayEscalate(cfg, comps, ls, x));
    var m;
    log, m := ReachTier(cfg, comps, ls, k, x);
    AheadHas(comps, ls, m, k, x);
    TierGoes(comps, ls, m, k, x);
    if MayEscalate(cfg, comps, ls, x) {
      log := DoomByEscalation(cfg, comps, ls, log, m, k, x, a);
    } else {
      log := DoomByConfirmation(cfg, comps, ls, log, m, k, x, a);
    }
  }

  lemma AheadHas(comps: Request, ls: Lists, r: Run, k: nat, x: Xname)
    requires Ahead(comps, ls, r, k, x) && x in comps
    ensures x in r.comps && Calm(r, k)
  {
  }

  lemma SequencedIsWellListed(comps: Request, ls: Lists)
    requires Sequenced(comps, ls)
    ensures WellListed(comps, ls)
  {
  }

  lemma UnsafeAmount(cfg: Config, comps: Request, ls: Lists, x: Xname, a: PowerAction)
    requires x in comps && Counted(comps, ls, x) && !SafeAtZero(cfg, comps, ls, x)
    requires FirstQueued(ls, x, a) && forall b :: FirstQueued(ls, x, b) ==> b == a
    requires x in ListOf(ls, GracefulShutdown, TypeOf(x)) ==> a == GracefulShutdown
    ensures comps[x].actionCount == Listings(ls, x)
    ensures Listings(ls, x) + One(MayEscalate(cfg, comps, ls, x)) >= 2 + One(Awaited(comps[x], a))
    ensures MayEscalate(cfg, comps, ls, x) ==> a == GracefulShutdown
  {
    hide FirstQueued, ListOf, TypeOf, Listings;
  }

  lemma DoomByConfirmation(cfg: Config, comps: Request, ls: Lists, log: seq<Event>, m: Run, k: nat, x: Xname, a: PowerAction)
    returns (log': seq<Event>)
    requires Sequenced(comps, ls) && x in comps && Served(ls, x) && cfg.deadline == 0 && Unfinished(comps[x].status)
    requires OthersCommandable(comps, ls, x) && Commandable(comps, ls, x)
    requires FirstQueued(ls, x, a) && k == TierOf(a, TypeOf(x)) < TIERS && TierAction(k) == a && x in TierList(ls, k)
    requires forall b :: FirstQueued(ls, x, b) ==> b == a
    requires After(cfg, Start(comps, ls, None), log) == Some(m) && Ahead(comps, ls, m, k, x)
    requires m.lists == ls && m.comps[x] == comps[x] && AllGo(m, TierList(ls, k), a)
    requires Doomed(Visited(cfg, comps[x], a, true), ActionsDue(ls, k + 1, x))
    ensures EndsUnfinished(cfg, comps, ls, log', x)
  {
    AheadHas(comps, ls, m, k, x);
    SequencedIsWellListed(comps, ls);
    StartHasShape(comps, ls, None);
    hide After, OthersCommandable, Shape, TierList, TierAction, TransitionPayload, ActionsDue, Doomed, ToBeSent, Alike, Goes, ListOf,
         Commandable, FirstQueued, Due, Visited, AllGo, Served, WellListed, TypeOf, TierOf, Ahead, EndsUnfinished, Awaited,
         Sequenced, Start;
    var r0 := Start(comps, ls, None);
    var r;
    log', r := ConfirmTier(cfg, r0, log, m, k);
    RunKeepsShape(cfg, r0, log');
    VisitKeepsAhead(cfg, comps, ls, m, r, k, x, {});
    SentAfterFirst(cfg, comps, ls, r, k + 1, x, a, false);
    log' := RunDoomed(cfg, comps, ls, log', r, k + 1, x);
  }

  lemma DoomByEscalation(cfg: Config, comps: Request, ls: Lists, log: seq<Event>, m: Run, k: nat, x: Xname, a: PowerAction)
    returns (log': seq<Event>)
    requires Sequenced(comps, ls) && x in comps && Served(ls, x) && cfg.deadline == 0 && Unfinished(comps[x].status)
    requires OthersCommandable(comps, ls, x) && Commandable(comps, ls, x) && MayEscalate(cfg, comps, ls, x)
    requires FirstQueued(ls, x, a) && k == TierOf(a, TypeOf(x)) < TIERS && TierAction(k) == a && x in TierList(ls, k)
    requires a == GracefulShutdown && forall b :: FirstQueued(ls, x, b) ==> b == a
    requires After(cfg, Start(comps, ls, None), log) == Some(m) && Ahead(comps, ls, m, k, x)
    requires m.lists == ls && m.comps[x] == comps[x] && AllGo(m, TierList(ls, k), a)
    requires Doomed(Visited(cfg, comps[x], a, false), ActionsDue(ls, k + 1, x) + 1)
    ensures EndsUnfinished(cfg, comps, ls, log', x)
  {
    AheadHas(comps, ls, m, k, x);
    AppendedDue(ls, k + 1, x);
    assert x !in ListOf(ls, ForceOff, TypeOf(x)) by { assert !InBothOffLists(ls, x); }
    assert ServedIn(k, x);
    assert "forceoff" in comps[x].actions;
    hide After, OthersCommandable, Shape, TierList, TierAction, TransitionPayload, ActionsDue, Doomed, ToBeSent, Alike, Goes, ListOf, Ahead, EndsUnfinished, Awaited,
         Commandable, FirstQueued, Visited, AllGo, Served, WellListed, TypeOf, TierOf, Append, Due;
    var r0 := Start(comps, ls, None);
    StartHasShape(comps, ls, None);
    var r;
    log', r := EscalateTier(cfg, r0, log, m, k, x);
    RunKeepsShape(cfg, r0, log');
    VisitKeepsAhead(cfg, comps, ls, m, r, k, x, {x});
    EscalationAddsOne(ls, k, x, x);
    SentAfterFirst(cfg, comps, ls, r, k + 1, x, a, true);
    log' := RunDoomed(cfg, comps, ls, log', r, k + 1, x);
  }

  lemma AppendedDue(ls: Lists, k: nat, x: Xname)
    ensures forall b :: Due(Append(ls, ForceOff, x), k, x, b) ==> Due(ls, k, x, b) || b == ForceOff
  {
    AppendLists(ls, x);
    hide ListOf, Append, TypeOf, TierOf;
  }

  ghost predicate AlwaysFinishes(cfg: Config, comps: Request, ls: Lists, x: Xname) {
    forall log :: After(cfg, Start(comps, ls, None), log).Some? &&
                  After(cfg, Start(comps, ls, None), log).value.phase == Finished ==>
      x in After(cfg, Start(comps, ls, None), log).value.comps &&
      !Unfinished(After(cfg, Start(comps, ls, None), log).value.comps[x].status)
  }

  /** With deadline zero, a task of any request whose commands exist ends finished in every
      run exactly when it is safe. */
  lemma FinishesAtZeroIff(cfg: Config, comps: Request, ls: Lists, x: Xname)
    requires Sequenced(comps, ls) && x in comps && Counted(comps, ls, x) && Served(ls, x) && cfg.deadline == 0
    requires OthersCommandable(comps, ls, x) && Commandable(comps, ls, x)
    ensures AlwaysFinishes(cfg, comps, ls, x) <==> SafeAtZero(cfg, comps, ls, x)
  {
    hide Sequenced, Counted, Served, OthersCommandable, Commandable, SafeAtZero, After;
    if SafeAtZero(cfg, comps, ls, x) {
      forall log | After(cfg, Start(comps, ls, None), log).Some? &&
                   After(cfg, Start(comps, ls, None), log).value.phase == Finished
        ensures x in After(cfg, Start(comps, ls, None), log).value.comps &&
                !Unfinished(After(cfg, Start(comps, ls, None), log).value.comps[x].status)
      {
        SafeTaskFinishes(cfg, comps, ls, None, log, x);
      }
    } else {
      var log := UnsafeNeedNotFinish(cfg, comps, ls, x);
    }
  }

  /** Off followed by on, not taken over: confirmed before the on command is even sent, the
      task can end up in progress for good. */
  lemma RestartNeedNotFinish(cfg: Config, comps: Request, ls: Lists, x: Xname) returns (log: seq<Event>)
    requires Sequenced(comps, ls) && x in comps && Counted(comps, ls, x) && Served(ls, x) && cfg.deadline == 0
    requires OthersCommandable(comps, ls, x) && Commandable(comps, ls, x)
    requires Listings(ls, x) == 2 && comps[x].state != Waiting
    ensures EndsUnfinished(cfg, comps, ls, log, x)
  {
    hide Sequenced, Counted, Served, OthersCommandable, Commandable, Listings, MayEscalate, EndsUnfinished;
    log := UnsafeNeedNotFinish(cfg, comps, ls, x);
  }

  /** A single shutdown that times out: the forced off counts once too often. */
  lemma EscalationNeedNotFinish(cfg: Config, comps: Request, ls: Lists, x: Xname) returns (log: seq<Event>)
    requires Sequenced(comps, ls) && x in comps && Counted(comps, ls, x) && Served(ls, x) && cfg.deadline == 0
    requires OthersCommandable(comps, ls, x) && Commandable(comps, ls, x)
    requires Listings(ls, x) == 1 && MayEscalate(cfg, comps, ls, x) && comps[x].state != Waiting
    ensures EndsUnfinished(cfg, comps, ls, log, x)
  {
    hide Sequenced, Counted, Served, OthersCommandable, Commandable, Listings, MayEscalate, EndsUnfinished;
    log := UnsafeNeedNotFinish(cfg, comps, ls, x);
  }
}
