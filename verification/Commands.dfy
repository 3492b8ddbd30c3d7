/** What is sent: in a completed run, every action that a component was queued for, escalations
    included, unless the component was given up. */
module Commands {
  import opened Xnames
  import opened TransitionModel
  import opened Sequencing
  import opened TierRunner
  import opened TierShape
  import opened TierCounts
  import opened TierTraces
  import opened Bystanders
  import opened Restarts
  import opened RunBuilding
  import opened Outcomes

  /** The command was sent, by the runner that serves the action. */
  ghost predicate CommandSent(r: Run, x: Xname, a: PowerAction) {
    exists i :: 0 <= i < |r.trace| && r.trace[i].x == x && r.trace[i].action == a
  }

  /** Its visit for the action is still to come. */
  predicate ActionAhead(r: Run, x: Xname, a: PowerAction) {
    || Due(r.lists, NextTier(r.phase), x, a)
    || (x in Todo(r.phase) && r.phase.Scanning? && r.phase.k < TIERS && TierAction(r.phase.k) == a)
  }

  /** An earlier runner had sent the command when this run began. */
  predicate SentBefore(comps: Request, x: Xname, a: PowerAction) {
    x in comps && Awaited(comps[x], a)
  }

  /** A component that is waited for had the command of its operation sent. */
  ghost predicate Accounted(comps: Request, r: Run, x: Xname) {
    && x in r.comps
    && (x in r.inflight ==> exists a :: CommandSent(r, x, a) && r.comps[x].operation == OpForAction(a))
    && (r.comps[x].state == Waiting ==>
          exists a :: (CommandSent(r, x, a) || SentBefore(comps, x, a)) && r.comps[x].operation == OpForAction(a))
  }

  /** Each queued action of a component that is not given up is ahead, or its command was sent. */
  ghost predicate AllSent(comps: Request, r: Run, x: Xname) {
    Alive(r, x) && !r.phase.Aborted? ==>
      forall a :: x in ListOf(r.lists, a, TypeOf(x)) && TierOf(a, TypeOf(x)) < TIERS ==>
        ActionAhead(r, x, a) || CommandSent(r, x, a) || SentBefore(comps, x, a)
  }

  ghost predicate Tracked(comps: Request, r: Run, x: Xname) {
    Accounted(comps, r, x) && AllSent(comps, r, x)
  }

  lemma ActionsOfOperation(a: PowerAction, b: PowerAction)
    ensures OpForAction(a) == OpForAction(b) <==> a == b
  {
  }

  // ----- Other components' events ---------------------------------------------------------------

  lemma TraceStays(r: Run, r': Run, x: Xname)
    requires |r.trace| <= |r'.trace| && r'.trace[..|r.trace|] == r.trace
    ensures forall a :: CommandSent(r, x, a) ==> CommandSent(r', x, a)
  {
    forall a | CommandSent(r, x, a) ensures CommandSent(r', x, a) {
      var i :| 0 <= i < |r.trace| && r.trace[i].x == x && r.trace[i].action == a;
      assert r'.trace[i] == r.trace[i];
    }
  }

  lemma TraceGrows(cfg: Config, r: Run, e: Event)
    requires Placed(r.phase) && Enabled(cfg, r, e)
    ensures var r' := Apply(cfg, r, e); |r.trace| <= |r'.trace| && r'.trace[..|r.trace|] == r.trace
  {
    hide TierAction, TierList, FailWithDependents, TransitionPayload, Answered, Polled, Expired, AbortTasks;
    match e
    case Respond(x, ok) => AnswerKeepsTrace(cfg, r, x, ok);
    case PollOne(x, answer) => PollKeepsTrace(r, x, answer);
    case ExpireOne(x) => ExpiryKeepsTrace(cfg, r, x);
    case _ =>
  }

  lemma BesideStaysTracked(comps: Request, r: Run, r': Run, x: Xname)
    requires PendingServed(r) && Tracked(comps, r, x) && Beside(r, r', x) && (r.phase.Aborted? ==> r'.phase.Aborted?)
    requires |r.trace| <= |r'.trace| && r'.trace[..|r.trace|] == r.trace
    requires r'.phase.Scanning? ==> r.phase.Scanning? && r'.phase.k == r.phase.k
    ensures Tracked(comps, r', x)
  {
    TraceStays(r, r', x);
    hide CommandSent, TypeOf, ListOf, TierOf, TierAction, PendingServed;
  }

  // ----- Its own events -----------------------------------------------------------------------------

  lemma ScannedStaysTracked(comps: Request, r: Run)
    requires Coherent(r) && r.phase.Scanning? && r.phase.k < TIERS && r.phase.todo != [] && r.phase.todo[0] in r.comps
    requires Tracked(comps, r, r.phase.todo[0])
    ensures Tracked(comps, ScanOne(r), r.phase.todo[0])
  {
    var x, k := r.phase.todo[0], r.phase.k;
    var a, c, r' := TierAction(k), r.comps[x], ScanOne(r);
    NoDupTail(r.phase.todo);
    if c.status != TaskFailed && !Awaited(c, a) && TransitionPayload(x, c, a).Some? {
      assert r'.trace[|r.trace|] == Command(k, a, x);
      assert CommandSent(r', x, a);
    }
    assert r'.trace[..|r.trace|] == r.trace;
    TraceStays(r, r', x);
    ScanGivesUp(r);
    if Awaited(c, a) {
      var b :| (CommandSent(r, x, b) || SentBefore(comps, x, b)) && c.operation == OpForAction(b);
      ActionsOfOperation(a, b);
    }
    hide CommandSent, TypeOf, ListOf, TierOf, TierAction, FailWithDependents, TransitionPayload, Due, NoDup;
  }

  /** A component that fails when it is scanned is given up. */
  lemma ScanGivesUp(r: Run)
    requires Coherent(r) && r.phase.Scanning? && r.phase.k < TIERS && r.phase.todo != [] && r.phase.todo[0] in r.comps
    ensures var x, r' := r.phase.todo[0], ScanOne(r);
            && x in r'.comps && r'.lists == r.lists
            && (Alive(r', x) ==> Alive(r, x))
            && (r.comps[x].status == TaskFailed ||
                (!Awaited(r.comps[x], TierAction(r.phase.k)) && TransitionPayload(x, r.comps[x], TierAction(r.phase.k)).None?) ==>
                  !Alive(r', x) && r'.inflight == r.inflight && r'.waiting == r.waiting && r'.comps[x].state == r.comps[x].state
                  && r'.comps[x].operation == r.comps[x].operation)
  {
    FailingOnlyFails(r.comps, TierAction(r.phase.k), r.phase.todo[0]);
    hide TierAction, FailWithDependents, TransitionPayload, NoDup;
  }

  lemma AnsweredStaysTracked(cfg: Config, comps: Request, r: Run, x: Xname, ok: bool)
    requires Coherent(r) && r.phase.Responding? && r.phase.k < TIERS && x in r.inflight && Tracked(comps, r, x)
    ensures Tracked(comps, Answered(cfg, r, x, ok), x)
  {
    if ok {
      AcceptedStaysTracked(cfg, comps, r, x);
    } else {
      FailingOnlyFails(r.comps, TierAction(r.phase.k), x);
      RefusedStaysTracked(comps, r, Answered(cfg, r, x, ok), x);
    }
  }

  lemma RefusedStaysTracked(comps: Request, r: Run, r': Run, x: Xname)
    requires Coherent(r) && Tracked(comps, r, x) && x in r.inflight && r'.trace == r.trace
    requires x in r'.comps && r'.comps[x] == r.comps[x].(status := TaskFailed) && x !in r'.inflight && r'.waiting == r.waiting
    ensures Tracked(comps, r', x)
  {
    TraceStays(r, r', x);
    hide CommandSent, TypeOf, ListOf, TierOf, NoDup;
  }

  lemma AcceptedStaysTracked(cfg: Config, comps: Request, r: Run, x: Xname)
    requires r.phase.Responding? && r.phase.k < TIERS && x in r.inflight && Tracked(comps, r, x)
    ensures Tracked(comps, Answered(cfg, r, x, true), x)
  {
    var b :| CommandSent(r, x, b) && r.comps[x].operation == OpForAction(b);
    var r' := Answered(cfg, r, x, true);
    assert r'.trace == r.trace && r'.lists == r.lists && r'.phase == r.phase;
    TraceStays(r, r', x);
    assert CommandSent(r', x, b) && r'.comps[x].operation == OpForAction(b) && Alive(r, x);
    hide CommandSent, TypeOf, ListOf, TierOf, TierAction, Due, Answered, SentBefore;
  }

  lemma PolledStaysTracked(comps: Request, r: Run, x: Xname, answer: Answer)
    requires Coherent(r) && r.phase.Polling? && r.phase.k < TIERS && x in r.phase.left && Tracked(comps, r, x)
    ensures Tracked(comps, Polled(r, x, answer), x)
  {
    PollKeepsTrace(r, x, answer);
    FailingOnlyFails(r.comps, TierAction(r.phase.k), x);
    var r' := Polled(r, x, answer);
    TraceStays(r, r', x);
    hide CommandSent, TypeOf, ListOf, TierOf, TierAction, FailWithDependents, Due, NoDup;
  }

  lemma EscalatedStaysTracked(comps: Request, r: Run, r': Run, x: Xname)
    requires PendingServed(r) && Pending(r, x) && r.phase.Expiring? && r.phase.k < TIERS && TierAction(r.phase.k) == GracefulShutdown
    requires Tracked(comps, r, x) && r'.comps == r.comps && r'.phase == r.phase && r'.inflight == r.inflight && r'.trace == r.trace
    requires r'.waiting <= r.waiting && r'.lists == Append(r.lists, ForceOff, x)
    ensures Tracked(comps, r', x)
  {
    AppendLists(r.lists, x);
    ForceOffFollows(TypeOf(x));
    ForceOffTier(TypeOf(x));
    TraceStays(r, r', x);
    hide CommandSent, TypeOf, ListOf, TierOf, TierAction, Append;
    assert ActionAhead(r', x, ForceOff);
    assert Alive(r', x) ==> Alive(r, x);
    forall a | a != ForceOff && x in ListOf(r'.lists, a, TypeOf(x)) ensures ActionAhead(r, x, a) ==> ActionAhead(r', x, a) {
    }
    hide ActionAhead, PendingServed;
  }

  lemma GivenUpStaysTracked(comps: Request, r: Run, r': Run, x: Xname)
    requires Tracked(comps, r, x) && r'.inflight == r.inflight && r'.trace == r.trace
    requires x in r'.comps && r'.comps[x] == r.comps[x].(status := TaskFailed) && x !in r'.inflight && x !in r'.waiting
    ensures Tracked(comps, r', x)
  {
    TraceStays(r, r', x);
    hide CommandSent, TypeOf, ListOf, TierOf;
  }

  lemma ExpiredStaysTracked(cfg: Config, comps: Request, r: Run, x: Xname)
    requires Shape(r) && Enabled(cfg, r, ExpireOne(x)) && Tracked(comps, r, x)
    ensures Tracked(comps, Expired(cfg, r, x), x)
  {
    ShapeParts(r);
    FailingOnlyFails(r.comps, TierAction(r.phase.k), x);
    assert Pending(r, x);
    var r' := Expired(cfg, r, x);
    hide TypeOf, ListOf, TierOf, TierAction, FailWithDependents, NoDup, Append, Shape, WellListed, EscalatedLate, TierList, Tracked,
         PendingServed;
    if Escalates(cfg, r.comps[x], TierAction(r.phase.k)) {
      EscalatedStaysTracked(comps, r, r', x);
    } else {
      GivenUpStaysTracked(comps, r, r', x);
    }
  }

  lemma TierStepStaysTracked(cfg: Config, comps: Request, r: Run, e: Event, x: Xname)
    requires Shape(r) && Enabled(cfg, r, e) && (e.SkipTier? || e.StartScan?) && Tracked(comps, r, x)
    ensures Tracked(comps, Apply(cfg, r, e), x)
  {
    ShapeParts(r);
    TierStepFields(cfg, r, e, x);
    TraceGrows(cfg, r, e);
    var k, r' := r.phase.k, Apply(cfg, r, e);
    TraceStays(r, r', x);
    TierListHas(r.comps, r.lists, k);
    assert r'.phase.Scanning? ==> r'.phase.todo == TierList(r.lists, k) && r'.phase.k == k;
    assert Todo(r.phase) == [] && !r.phase.Aborted? && !r'.phase.Aborted?;
    assert x in Todo(r'.phase) <==> x in TierList(r.lists, k);
    hide CommandSent, TypeOf, ListOf, TierOf, TierAction, TierList, Shape, WellListed, EscalatedLate, Coherent, Enabled, Apply,
         PendingServed, Due, Pending;
    forall a | Due(r.lists, k, x, a) ensures ActionAhead(r', x, a) {
      DueStep(r.lists, k, x, a);
    }
  }

  lemma AbortStaysTracked(cfg: Config, comps: Request, r: Run, x: Xname)
    requires Placed(r.phase) && Enabled(cfg, r, SeeAbort) && Tracked(comps, r, x)
    ensures Tracked(comps, Apply(cfg, r, SeeAbort), x)
  {
    var r' := Apply(cfg, r, SeeAbort);
    TraceStays(r, r', x);
    hide CommandSent, TypeOf, ListOf, TierList, Due;
  }

  lemma StepStaysTracked(cfg: Config, comps: Request, r: Run, e: Event, x: Xname)
    requires Shape(r) && Enabled(cfg, r, e) && Tracked(comps, r, x)
    ensures Tracked(comps, Apply(cfg, r, e), x)
  {
    ShapeParts(r);
    assert x in r.comps;
    hide TypeOf, ListOf, TierAction, TierList, FailWithDependents, ScanOne, Answered, Polled, Expired, WellListed,
         EscalatedLate, PendingServed, Shape, NoDup, Beside, Tracked, Coherent, AbortTasks;
    if !Targets(r, e, x) {
      EventIsBeside(cfg, r, e, x);
      TraceGrows(cfg, r, e);
      BesideStaysTracked(comps, r, Apply(cfg, r, e), x);
    } else {
      match e
      case ScanNext => ScannedStaysTracked(comps, r);
      case Respond(_, ok) => AnsweredStaysTracked(cfg, comps, r, x, ok);
      case PollOne(_, answer) => PolledStaysTracked(comps, r, x, answer);
      case ExpireOne(_) => ExpiredStaysTracked(cfg, comps, r, x);
      case SeeAbort => AbortStaysTracked(cfg, comps, r, x);
      case SkipTier => TierStepStaysTracked(cfg, comps, r, e, x);
      case StartScan => TierStepStaysTracked(cfg, comps, r, e, x);
    }
  }

  lemma {:induction false} RunStaysTracked(cfg: Config, comps: Request, r: Run, log: seq<Event>, x: Xname)
    requires Shape(r) && Tracked(comps, r, x) && After(cfg, r, log).Some?
    ensures Tracked(comps, After(cfg, r, log).value, x)
  {
    hide Shape, Tracked, Apply, Enabled;
    if log != [] {
      var mid := log[..|log| - 1];
      RunStaysTracked(cfg, comps, r, mid, x);
      RunKeepsShape(cfg, r, mid);
      StepStaysTracked(cfg, comps, After(cfg, r, mid).value, log[|log| - 1], x);
    }
  }

  lemma StartIsTracked(comps: Request, ls: Lists, sig: Option<nat>, x: Xname)
    requires x in comps && (comps[x].state == Waiting ==> exists a :: comps[x].operation == OpForAction(a))
    ensures Tracked(comps, Start(comps, ls, sig), x)
  {
    hide TypeOf, ListOf, TierOf;
    if comps[x].state == Waiting {
      var a :| comps[x].operation == OpForAction(a);
      assert SentBefore(comps, x, a);
    }
  }

  /** In every completed run a component that has not failed was sent the command of each
      action that it was queued for and that has a tier, escalations included, or had been
      sent it before. */
  lemma EveryCommandIsSent(cfg: Config, comps: Request, ls: Lists, sig: Option<nat>, log: seq<Event>, x: Xname)
    requires Sequenced(comps, ls) && x in comps && After(cfg, Start(comps, ls, sig), log).Some?
    requires comps[x].state == Waiting ==> exists a :: comps[x].operation == OpForAction(a)
    ensures var r := After(cfg, Start(comps, ls, sig), log).value;
            && x in r.comps
            && (r.phase == Finished && r.comps[x].status != TaskFailed ==>
                  forall a :: x in ListOf(r.lists, a, TypeOf(x)) && TierOf(a, TypeOf(x)) < TIERS ==>
                    CommandSent(r, x, a) || SentBefore(comps, x, a))
            && (forall a :: x in ListOf(ls, a, TypeOf(x)) ==> x in ListOf(r.lists, a, TypeOf(x)))
  {
    hide Apply, Enabled, Shape, Sequenced, CommandSent, SentBefore, TypeOf, ListOf, TierOf, After;
    StartHasShape(comps, ls, sig);
    StartIsTracked(comps, ls, sig, x);
    RunStaysTracked(cfg, comps, Start(comps, ls, sig), log, x);
    ListsOnlyGrow(cfg, Start(comps, ls, sig), log, x);
  }

  lemma {:induction false} ListsOnlyGrow(cfg: Config, r: Run, log: seq<Event>, x: Xname)
    requires After(cfg, r, log).Some?
    ensures forall a, t :: x in ListOf(r.lists, a, t) ==> x in ListOf(After(cfg, r, log).value.lists, a, t)
  {
    hide Apply, Enabled;
    if log != [] {
      var n := |log| - 1;
      ListsOnlyGrow(cfg, r, log[..n], x);
      StepOnlyGrows(cfg, After(cfg, r, log[..n]).value, log[n], x);
    }
  }

  lemma StepOnlyGrows(cfg: Config, r: Run, e: Event, x: Xname)
    requires Enabled(cfg, r, e)
    ensures forall a, t :: x in ListOf(r.lists, a, t) ==> x in ListOf(Apply(cfg, r, e).lists, a, t)
  {
    if e.ExpireOne? {
      AppendLists(r.lists, e.x);
      hide ListOf, TypeOf, FailWithDependents, Append, TierAction;
    } else {
      ListsUnchanged(cfg, r, e);
    }
  }
}
