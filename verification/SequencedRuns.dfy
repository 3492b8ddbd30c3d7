/** What sequencing computes, and what holds of every run that starts from it. */
module SequencedRuns {
  import opened Xnames
  import opened TransitionModel
  import opened Sequencing
  import opened TierRunner
  import opened TierShape
  import opened TierCounts
  import opened ZeroDeadline
  import opened RunBuilding
  import opened TierTraces
  import opened Outcomes
  import opened Restarts
  import opened Failures
  import opened TaskOrigins
  import opened Commands
  import opened Successes

  // ----- What sequencing computes ------------------------------------------------------

  function SequencedComponent(op: Operation, req: Request, x: Xname): Component
    requires x in req
  {
    if Unfinished(req[x].status) then Schedule(op, x, req[x], true).comp else req[x]
  }

  function QueuedFor(op: Operation, req: Request, x: Xname): seq<PowerAction>
    requires x in req
  {
    if Unfinished(req[x].status) then Schedule(op, x, req[x], true).actions else []
  }

  /** Components for which a reservation is requested, or an old one is to be released. */
  predicate Reserves(op: Operation, req: Request, x: Xname)
    requires x in req
  {
    if Unfinished(req[x].status) then
      op in req[x].supported &&
      (Unfinished(SequencedComponent(op, req, x).status) || req[x].reservationKey != "")
    else req[x].reservationKey != ""
  }

  ghost predicate ComponentsAfter(op: Operation, req: Request, done: set<Xname>, comps: Request) {
    && comps.Keys == req.Keys
    && (forall x :: x in req ==> comps[x] == if x in done then SequencedComponent(op, req, x) else req[x])
  }

  ghost predicate ListsAfter(op: Operation, req: Request, done: set<Xname>, ls: Lists) {
    && (forall a, t :: NoDup(ListOf(ls, a, t)))
    && (forall a, t, x :: x in ListOf(ls, a, t) <==>
          x in done && x in req && TypeOf(x) == t && a in QueuedFor(op, req, x))
  }

  ghost predicate ReservationsAfter(op: Operation, req: Request, done: set<Xname>, res: seq<Xname>) {
    NoDup(res) && forall x :: x in res <==> x in done && x in req && Reserves(op, req, x)
  }

  /** `x` was appended to its list for each of the actions, and nothing else changed. */
  ghost predicate Extends(ls: Lists, ls': Lists, x: Xname, actions: seq<PowerAction>) {
    forall a, t :: ListOf(ls', a, t) ==
      if a in actions && t == TypeOf(x) then ListOf(ls, a, t) + [x] else ListOf(ls, a, t)
  }

  /** Unfinished tasks are only ever created for recognised components. */
  ghost predicate Recognised(req: Request) {
    forall x :: x in req && Unfinished(req[x].status) ==> TypeOf(x) != Invalid
  }

  /** What is queued for one component never repeats, and its task stays unfinished. */
  lemma QueuedFacts(op: Operation, req: Request, x: Xname)
    requires x in req
    ensures var queued := QueuedFor(op, req, x);
            && NoDup(queued)
            && (queued != [] ==> Unfinished(SequencedComponent(op, req, x).status))
            && SequencedComponent(op, req, x).actionCount == req[x].actionCount + |queued|
            && !(GracefulShutdown in queued && ForceOff in queued)
  {
    hide Schedule;
    if Unfinished(req[x].status) {
      QueuedShape(op, x, req[x], true);
    }
  }

  lemma SequencingIsSequenced(op: Operation, req: Request, comps: Request, ls: Lists)
    requires ComponentsAfter(op, req, req.Keys, comps) && ListsAfter(op, req, req.Keys, ls)
    ensures Sequenced(comps, ls)
  {
    hide TypeOf, ListOf, QueuedFor, SequencedComponent, NoDup;
    forall a, t, x | x in ListOf(ls, a, t) ensures TypeOf(x) == t && x in comps && Unfinished(comps[x].status) {
      QueuedFacts(op, req, x);
    }
    forall x ensures !InBothOffLists(ls, x) {
      if x in req {
        QueuedFacts(op, req, x);
      }
    }
  }

  lemma ListingsAreQueued(op: Operation, req: Request, ls: Lists, x: Xname)
    requires ListsAfter(op, req, req.Keys, ls) && x in req
    ensures Listings(ls, x) == |QueuedFor(op, req, x)|
  {
    hide TypeOf, ListOf, QueuedFor;
    QueuedFacts(op, req, x);
    SeqCount(QueuedFor(op, req, x));
  }

  lemma {:induction false} SeqCount(s: seq<PowerAction>)
    requires NoDup(s)
    ensures |s| == One(GracefulShutdown in s) + One(ForceOff in s) + One(GracefulRestart in s) + One(PowerUp in s)
    decreases |s|
  {
    if s != [] {
      NoDupTail(s);
      SeqCount(s[1..]);
      assert s[0].GracefulShutdown? || s[0].ForceOff? || s[0].GracefulRestart? || s[0].PowerUp?;
    }
  }

  /** After sequencing the counter of a task is the number of its listings, and an
      unfinished task has one. */
  lemma SequencedIsCounted(op: Operation, req: Request, comps: Request, ls: Lists, x: Xname)
    requires ComponentsAfter(op, req, req.Keys, comps) && ListsAfter(op, req, req.Keys, ls)
    requires x in req && req[x].actionCount == 0 && op != OpNil && Resumable(op, req[x])
    ensures x in comps && Counted(comps, ls, x)
  {
    hide TypeOf, ListOf, Schedule, Resumable;
    ListingsAreQueued(op, req, ls, x);
    QueuedFacts(op, req, x);
    if Unfinished(req[x].status) {
      ResumableIsQueued(op, x, req[x]);
    }
  }

  /** The power sequence has a tier for every action the component is queued for. */
  ghost predicate ServedFor(op: Operation, req: Request, x: Xname)
    requires x in req
  {
    forall a :: a in QueuedFor(op, req, x) ==> TierOf(a, TypeOf(x)) < TIERS
  }

  lemma ServedForIsServed(op: Operation, req: Request, ls: Lists, x: Xname)
    requires ListsAfter(op, req, req.Keys, ls) && x in req && ServedFor(op, req, x)
    ensures Served(ls, x)
  {
    hide TypeOf, ListOf, QueuedFor, TierOf;
  }

  ghost function Listed(ls: Lists, x: Xname): set<PowerAction> {
    set a: PowerAction | x in ListOf(ls, a, TypeOf(x))
  }

  /** Every unfinished task is queued for exactly the work its operation still requires;
      the others are left alone. */
  ghost predicate WorkListed(op: Operation, req: Request, comps: Request, ls: Lists) {
    && comps.Keys == req.Keys
    && forall x :: x in req ==>
         if Unfinished(req[x].status) then WorkIsQueued(op, x, req[x], comps[x], Listed(ls, x))
         else comps[x] == req[x] && Listed(ls, x) == {}
  }

  lemma SequencedWork(op: Operation, req: Request, comps: Request, ls: Lists)
    requires ComponentsAfter(op, req, req.Keys, comps) && ListsAfter(op, req, req.Keys, ls) && op != OpNil
    ensures WorkListed(op, req, comps, ls)
  {
    hide TypeOf, ListOf, WorkIsQueued, Schedule;
    forall x | x in req
      ensures if Unfinished(req[x].status) then WorkIsQueued(op, x, req[x], comps[x], Listed(ls, x))
              else comps[x] == req[x] && Listed(ls, x) == {}
    {
      assert Listed(ls, x) == AsSet(QueuedFor(op, req, x));
      if Unfinished(req[x].status) {
        NeededWorkIsQueued(op, x, req[x]);
      }
    }
  }

  /** Reservations are asked for exactly the tasks that sequencing leaves unfinished, and old
      ones are listed with their keys unless their task is settled as unsupported. */
  lemma ReservedIff(op: Operation, req: Request, comps: Request, reservations: seq<Xname>, x: Xname)
    requires ComponentsAfter(op, req, req.Keys, comps) && ReservationsAfter(op, req, req.Keys, reservations) && op != OpNil
    requires x in req
    ensures x in reservations <==>
            && (Unfinished(comps[x].status) || req[x].reservationKey != "")
            && !(Unfinished(req[x].status) && comps[x].status == TaskUnsupported)
  {
    if Unfinished(req[x].status) {
      SettledRight(op, x, req[x]);
    }
    hide Schedule, CannotRestart;
  }

  /** A request as a runner finds it. */
  ghost predicate AsFound(op: Operation, req: Request) {
    op != OpNil && forall x :: x in req ==> req[x].actionCount == 0 && Resumable(op, req[x])
  }

  /** The task is to be carried out, and everything it needs has a tier. */
  ghost predicate Carried(op: Operation, req: Request, x: Xname)
    requires x in req
  {
    Unfinished(req[x].status) && ServedFor(op, req, x)
  }

  ghost predicate ReadOffThenOn(log: seq<Event>, x: Xname) {
    exists i, j :: 0 <= i < j < |log| && log[i] == PollOne(x, PollState(PowerOff)) && log[j] == PollOne(x, PollState(PowerOn))
  }

  /** Nothing was to be done as the component was in the goal state; or it was read in the
      goal state during the run, and read off before if it was to go off and on. */
  ghost predicate SeenInGoal(op: Operation, req: Request, log: seq<Event>, x: Xname)
    requires x in req
  {
    var queued := QueuedFor(op, req, x);
    if queued == [] then req[x].power == GoalOf(op)
    else
      && PollOne(x, PollState(GoalOf(op))) in log
      && (PowerUp in queued && (GracefulShutdown in queued || ForceOff in queued) ==> ReadOffThenOn(log, x))
  }

  /** A task that ends succeeded has had its component seen in the goal state. */
  lemma SuccessMeansGoal(op: Operation, cfg: Config, req: Request, comps: Request, ls: Lists, log: seq<Event>, x: Xname)
    requires ComponentsAfter(op, req, req.Keys, comps) && ListsAfter(op, req, req.Keys, ls) && AsFound(op, req)
    requires cfg.deadline != 0 && After(cfg, Start(comps, ls, None), log).Some?
    requires x in req && Carried(op, req, x)
    ensures x in After(cfg, Start(comps, ls, None), log).value.comps
    ensures After(cfg, Start(comps, ls, None), log).value.comps[x].status == TaskSucceeded ==> SeenInGoal(op, req, log, x)
  {
    hide Apply, Enabled, TypeOf, ListOf, Sequenced, Served, Counted, Schedule, ServedFor, After, Resumable, SeenInGoal;
    SequencingIsSequenced(op, req, comps, ls);
    SequencedIsCounted(op, req, comps, ls, x);
    ServedForIsServed(op, req, ls, x);
    RunKeepsKeys(cfg, Start(comps, ls, None), log);
    if After(cfg, Start(comps, ls, None), log).value.comps[x].status == TaskSucceeded {
      if QueuedFor(op, req, x) == [] {
        NothingQueuedInGoal(op, cfg, req, comps, ls, log, x);
      } else {
        QueuedInGoal(op, cfg, req, comps, ls, log, x);
      }
    }
  }

  lemma NothingQueuedInGoal(op: Operation, cfg: Config, req: Request, comps: Request, ls: Lists, log: seq<Event>, x: Xname)
    requires ComponentsAfter(op, req, req.Keys, comps) && ListsAfter(op, req, req.Keys, ls) && op != OpNil
    requires Sequenced(comps, ls) && x in comps && Counted(comps, ls, x) && Served(ls, x)
    requires cfg.deadline != 0 && After(cfg, Start(comps, ls, None), log).Some?
    requires x in req && Unfinished(req[x].status) && QueuedFor(op, req, x) == []
    requires var r := After(cfg, Start(comps, ls, None), log).value; x in r.comps && r.comps[x].status == TaskSucceeded
    ensures SeenInGoal(op, req, log, x)
  {
    hide Apply, Enabled, TypeOf, ListOf, Sequenced, Served, Counted, Schedule, After;
    QueueLeadsToGoal(op, x, req[x]);
    if comps[x].status != TaskSucceeded {
      SucceededInFinalState(cfg, comps, ls, None, log, x);
    }
  }

  lemma QueuedInGoal(op: Operation, cfg: Config, req: Request, comps: Request, ls: Lists, log: seq<Event>, x: Xname)
    requires ComponentsAfter(op, req, req.Keys, comps) && ListsAfter(op, req, req.Keys, ls) && op != OpNil
    requires Sequenced(comps, ls) && x in comps && Counted(comps, ls, x) && Served(ls, x)
    requires cfg.deadline != 0 && After(cfg, Start(comps, ls, None), log).Some?
    requires x in req && Unfinished(req[x].status) && QueuedFor(op, req, x) != []
    requires var r := After(cfg, Start(comps, ls, None), log).value; x in r.comps && r.comps[x].status == TaskSucceeded
    ensures SeenInGoal(op, req, log, x)
  {
    hide Apply, Enabled, TypeOf, ListOf, Sequenced, Served, Counted, Schedule, After, ReadOffThenOn;
    QueueLeadsToGoal(op, x, req[x]);
    QueuedFacts(op, req, x);
    SucceededInFinalState(cfg, comps, ls, None, log, x);
    var queued := QueuedFor(op, req, x);
    if PowerUp in queued && (GracefulShutdown in queued || ForceOff in queued) {
      var off := if GracefulShutdown in queued then GracefulShutdown else ForceOff;
      RestartedThroughOff(cfg, comps, ls, None, log, x, off);
      assert ReadOffThenOn(log, x) by { ReadInOrder(log, x); }
    }
  }

  lemma ReadInOrder(log: seq<Event>, x: Xname)
    requires exists i, j :: 0 <= i < j < |log| && log[i] == PollOne(x, PollState(PowerOff)) && log[j] == PollOne(x, PollState(PowerOn))
    ensures ReadOffThenOn(log, x)
  {
  }

  lemma SuccessesMeanGoals(op: Operation, cfg: Config, req: Request, comps: Request, ls: Lists, log: seq<Event>, r: Run)
    requires ComponentsAfter(op, req, req.Keys, comps) && ListsAfter(op, req, req.Keys, ls) && AsFound(op, req)
    requires cfg.deadline != 0 && After(cfg, Start(comps, ls, None), log) == Some(r) && r.comps.Keys == req.Keys
    ensures forall x :: x in req && Carried(op, req, x) && r.comps[x].status == TaskSucceeded ==> SeenInGoal(op, req, log, x)
  {
    hide *;
    forall x | x in req && Carried(op, req, x) && r.comps[x].status == TaskSucceeded ensures SeenInGoal(op, req, log, x) {
      SuccessMeansGoal(op, cfg, req, comps, ls, log, x);
    }
  }

  // ----- Results that hold of the whole trace -------------------------------------------------------

  /** Every escalated component was forced off once, in the tier after its shutdown. */
  ghost predicate EscalatedForcedOnce(r: Run) {
    forall x :: x in r.escalated ==>
      var next := TierOf(GracefulShutdown, TypeOf(x)) + 1;
      && next < TIERS && TierAction(next) == ForceOff && Visits(r, next, x) == 1
      && forall k: nat :: k < TIERS && TierAction(k) == ForceOff && k != next ==> Visits(r, k, x) == 0
  }

  /** Event `i` fails the shutdown of a node that `y` is the compute module or chosen supply of. */
  ghost predicate ShutdownFailsAt(cfg: Config, r: Run, log: seq<Event>, i: nat, x: Xname, y: Xname) {
    && i < |log| && After(cfg, r, log[..i + 1]).Some? && After(cfg, r, log[..i]).Some?
    && var m := After(cfg, r, log[..i]).value;
       && ShutdownFails(cfg, m, log[i], x) && TypeOf(x) == Node && y in m.comps && TypeOf(y) != Node
       && (y == Parent(Parent(x)) || SupplyToFail(m.comps, x) == Some(y))
  }

  ghost predicate FailedAt(cfg: Config, r: Run, log: seq<Event>, i: nat, x: Xname) {
    && i <= |log| && After(cfg, r, log[..i]).Some?
    && var m := After(cfg, r, log[..i]).value; x in m.comps && m.comps[x].status == TaskFailed
  }

  /** From event `i` on, `y` is failed and gets no command. */
  ghost predicate OutFrom(cfg: Config, r: Run, log: seq<Event>, i: nat, y: Xname)
    requires i <= |log| && After(cfg, r, log[..i]).Some? && After(cfg, r, log).Some?
  {
    var m, r' := After(cfg, r, log[..i]).value, After(cfg, r, log).value;
    && y in r'.comps && r'.comps[y].status == TaskFailed && |m.trace| <= |r'.trace|
    && forall n :: |m.trace| <= n < |r'.trace| ==> r'.trace[n].x != y
  }

  /** Aborts are contained, escalations carried out once, the power of failed nodes is
      protected, and without entanglement no failed status is undone. */
  ghost predicate TraceHolds(cfg: Config, r: Run, log: seq<Event>)
    requires After(cfg, r, log).Some?
  {
    && AbortsContained(cfg, r, log)
    && (After(cfg, r, log).value.phase == Finished ==> EscalatedForcedOnce(After(cfg, r, log).value))
    && (forall i: nat, x, y :: ShutdownFailsAt(cfg, r, log, i, x, y) ==> OutFrom(cfg, r, log, i + 1, y))
    && (!Entangled(r.comps, r.lists) ==> forall i: nat, x :: FailedAt(cfg, r, log, i, x) ==> FailedAt(cfg, r, log, |log|, x))
  }

  lemma PowerIsProtected(cfg: Config, r: Run, log: seq<Event>, i: nat, x: Xname, y: Xname)
    requires Shape(r) && After(cfg, r, log).Some? && ShutdownFailsAt(cfg, r, log, i, x, y)
    ensures OutFrom(cfg, r, log, i + 1, y)
  {
    hide Apply, Enabled, ShutdownFails, TypeOf, Parent, SupplyToFail, Shape;
    AfterPrefix(cfg, r, log, i + 1);
    RunKeepsShape(cfg, r, log[..i]);
    assert log[..i + 1][..i] == log[..i];
    FailedNodeProtectsItsPower(cfg, After(cfg, r, log[..i]).value, log[i], log[i + 1..], x, y);
  }

  lemma TraceResults(op: Operation, cfg: Config, req: Request, comps: Request, ls: Lists, log: seq<Event>)
    requires ComponentsAfter(op, req, req.Keys, comps) && ListsAfter(op, req, req.Keys, ls)
    requires After(cfg, Start(comps, ls, None), log).Some?
    ensures TraceHolds(cfg, Start(comps, ls, None), log)
  {
    var r := Start(comps, ls, None);
    SequencingIsSequenced(op, req, comps, ls);
    StartHasShape(comps, ls, None);
    EveryAbortIsContained(cfg, r, log);
    hide Sequenced, ComponentsAfter, ListsAfter, After, AbortsContained, Entangled, Shape, ShutdownFailsAt, OutFrom, TypeOf, TierOf,
         TierAction, Visits;
    if After(cfg, r, log).value.phase == Finished {
      forall x | x in After(cfg, r, log).value.escalated
        ensures var r', next := After(cfg, r, log).value, TierOf(GracefulShutdown, TypeOf(x)) + 1;
                && next < TIERS && TierAction(next) == ForceOff && Visits(r', next, x) == 1
                && forall k: nat :: k < TIERS && TierAction(k) == ForceOff && k != next ==> Visits(r', k, x) == 0
      {
        EscalatedIsForcedOnce(cfg, comps, ls, None, log, x);
      }
    }
    forall i: nat, x, y | ShutdownFailsAt(cfg, r, log, i, x, y) ensures OutFrom(cfg, r, log, i + 1, y) {
      PowerIsProtected(cfg, r, log, i, x, y);
    }
    if !Entangled(comps, ls) {
      forall i: nat, x | FailedAt(cfg, r, log, i, x) ensures FailedAt(cfg, r, log, |log|, x) {
        FailedForGood(cfg, comps, ls, None, log, i, x);
        assert log[..|log|] == log;
      }
    }
  }

  /** Whatever was queued for a component that has not failed was sent in the end, by this
      runner or by an earlier one. */
  ghost predicate AllCommanded(start: Run, r: Run) {
    r.phase == Finished ==>
      forall x, a :: x in r.comps && r.comps[x].status != TaskFailed && TierOf(a, TypeOf(x)) < TIERS &&
                     (x in ListOf(start.lists, a, TypeOf(x)) || x in ListOf(r.lists, a, TypeOf(x))) ==>
        CommandSent(r, x, a) || SentBefore(start.comps, x, a)
  }

  lemma CommandsOfRun(op: Operation, cfg: Config, req: Request, comps: Request, ls: Lists, log: seq<Event>)
    requires ComponentsAfter(op, req, req.Keys, comps) && ListsAfter(op, req, req.Keys, ls)
    requires forall x :: x in req ==> Resumable(op, req[x])
    requires After(cfg, Start(comps, ls, None), log).Some?
    ensures AllCommanded(Start(comps, ls, None), After(cfg, Start(comps, ls, None), log).value)
  {
    var r := After(cfg, Start(comps, ls, None), log).value;
    SequencingIsSequenced(op, req, comps, ls);
    TasksStayResumable(op, cfg, req, comps, ls, []);
    RunKeepsKeys(cfg, Start(comps, ls, None), log);
    hide ComponentsAfter, ListsAfter, After, Sequenced, CommandSent, SentBefore, TypeOf, ListOf, TierOf;
    forall x, a | r.phase == Finished && x in r.comps && r.comps[x].status != TaskFailed && TierOf(a, TypeOf(x)) < TIERS &&
                  (x in ListOf(ls, a, TypeOf(x)) || x in ListOf(r.lists, a, TypeOf(x)))
      ensures CommandSent(r, x, a) || SentBefore(comps, x, a)
    {
      assert Resumable(op, comps[x]) by { AfterNothing(cfg, Start(comps, ls, None)); }
      EveryCommandIsSent(cfg, comps, ls, None, log, x);
    }
  }

  /** If everything that is needed has a tier and a payload, there is a run in which every task
      is finished in the end, and each that had work to do has succeeded. */
  lemma RequestCanSucceed(op: Operation, cfg: Config, req: Request, comps: Request, ls: Lists) returns (log: seq<Event>)
    requires ComponentsAfter(op, req, req.Keys, comps) && ListsAfter(op, req, req.Keys, ls) && AsFound(op, req)
    requires cfg.deadline != 0
    requires forall x :: x in req ==> ServedFor(op, req, x)
    requires forall x, a :: x in req && a in QueuedFor(op, req, x) ==> TransitionPayload(x, req[x], a).Some?
    ensures After(cfg, Start(comps, ls, None), log).Some? && AllWell(op, req, After(cfg, Start(comps, ls, None), log).value)
  {
    SequencingIsSequenced(op, req, comps, ls);
    RequestIsFeasible(op, req, comps, ls);
    hide *;
    log := EverythingCanSucceed(cfg, comps, ls);
    SucceededIsWell(op, req, comps, ls, After(cfg, Start(comps, ls, None), log).value);
  }

  /** The run has ended with every task finished, and every one that had work to do succeeded. */
  ghost predicate AllWell(op: Operation, req: Request, r: Run) {
    && r.phase == Finished && r.comps.Keys == req.Keys
    && (forall x :: x in req ==> !Unfinished(r.comps[x].status))
    && (forall x :: x in req && QueuedFor(op, req, x) != [] ==> r.comps[x].status == TaskSucceeded)
  }

  lemma SucceededIsWell(op: Operation, req: Request, comps: Request, ls: Lists, r: Run)
    requires ComponentsAfter(op, req, req.Keys, comps) && ListsAfter(op, req, req.Keys, ls) && AsFound(op, req)
    requires r.phase == Finished && r.comps.Keys == comps.Keys
    requires forall x :: x in comps ==>
               if Listings(ls, x) > 0 then r.comps[x].status == TaskSucceeded else r.comps[x] == comps[x]
    ensures AllWell(op, req, r)
  {
    hide ListsAfter, Listings, QueuedFor, SequencedComponent, AsFound;
    forall x | x in req
      ensures !Unfinished(r.comps[x].status) && (QueuedFor(op, req, x) != [] ==> r.comps[x].status == TaskSucceeded)
    {
      ListingsAreQueued(op, req, ls, x);
      UnlistedIsFinished(op, req, comps, ls, x);
    }
  }

  lemma UnlistedIsFinished(op: Operation, req: Request, comps: Request, ls: Lists, x: Xname)
    requires ComponentsAfter(op, req, req.Keys, comps) && ListsAfter(op, req, req.Keys, ls) && AsFound(op, req) && x in req
    ensures x in comps && (Listings(ls, x) == 0 ==> !Unfinished(comps[x].status))
  {
    SequencedIsCounted(op, req, comps, ls, x);
    hide Listings;
  }

  lemma RequestIsFeasible(op: Operation, req: Request, comps: Request, ls: Lists)
    requires ComponentsAfter(op, req, req.Keys, comps) && ListsAfter(op, req, req.Keys, ls) && AsFound(op, req)
    requires forall x :: x in req ==> ServedFor(op, req, x)
    requires forall x, a :: x in req && a in QueuedFor(op, req, x) ==> TransitionPayload(x, req[x], a).Some?
    ensures Feasible(comps, ls)
    ensures forall x :: x in comps && comps[x].state == Waiting ==> exists a :: comps[x].operation == OpForAction(a)
  {
    hide ListsAfter, Served, TypeOf, ListOf, TierOf, TransitionPayload, Schedule, ServedFor, Resumable;
    forall x | x in comps ensures Counted(comps, ls, x) && Served(ls, x) {
      SequencedIsCounted(op, req, comps, ls, x);
      ServedForIsServed(op, req, ls, x);
    }
    forall x | x in comps && comps[x].state == Waiting ensures exists a :: comps[x].operation == OpForAction(a) {
      WaitingHasAction(op, req, comps, ls, x);
    }
    forall a, t, x | x in ListOf(ls, a, t) ensures x in comps && TransitionPayload(x, comps[x], a).Some? {
      ListedHasPayload(op, req, comps, ls, a, t, x);
    }
  }

  lemma WaitingHasAction(op: Operation, req: Request, comps: Request, ls: Lists, x: Xname)
    requires ComponentsAfter(op, req, req.Keys, comps) && ListsAfter(op, req, req.Keys, ls) && AsFound(op, req)
    requires x in comps && comps[x].state == Waiting
    ensures exists a :: comps[x].operation == OpForAction(a)
  {
    hide Schedule;
    if Unfinished(req[x].status) {
      ScheduleKeepsResumable(op, x, req[x], true);
    }
  }

  lemma ListedHasPayload(op: Operation, req: Request, comps: Request, ls: Lists, a: PowerAction, t: HMSType, x: Xname)
    requires ComponentsAfter(op, req, req.Keys, comps) && ListsAfter(op, req, req.Keys, ls) && op != OpNil
    requires x in ListOf(ls, a, t)
    requires forall x, a :: x in req && a in QueuedFor(op, req, x) ==> TransitionPayload(x, req[x], a).Some?
    ensures x in comps && TransitionPayload(x, comps[x], a).Some?
  {
    assert x in req && a in QueuedFor(op, req, x);
    hide TransitionPayload, ListOf, TypeOf;
    OnlyTaskChanges(op, x, req[x]);
    hide Schedule;
    PayloadIgnoresTask(x, req[x], comps[x], a);
  }

  lemma SoftOffQueuesNoForceOff(op: Operation, req: Request, comps: Request, ls: Lists)
    requires ListsAfter(op, req, req.Keys, ls) && op == OpSoftOff
    ensures forall t :: ListOf(ls, ForceOff, t) == []
  {
    hide TypeOf, ListOf;
    forall t ensures ListOf(ls, ForceOff, t) == [] {
      forall x ensures x !in ListOf(ls, ForceOff, t) {
        if x in req {
          assert ForceOff !in QueuedFor(op, req, x);
        }
      }
      EmptyOrMember(ListOf(ls, ForceOff, t));
    }
  }

  /** A soft-off never forces anything off, whatever the hardware does. */
  lemma SoftOffNeverForces(cfg: Config, req: Request, comps: Request, ls: Lists, log: seq<Event>)
    requires ComponentsAfter(OpSoftOff, req, req.Keys, comps) && ListsAfter(OpSoftOff, req, req.Keys, ls) && cfg.softOff
    requires After(cfg, Start(comps, ls, None), log).Some?
    ensures Unforced(After(cfg, Start(comps, ls, None), log).value)
  {
    SequencingIsSequenced(OpSoftOff, req, comps, ls);
    StartHasShape(comps, ls, None);
    SoftOffQueuesNoForceOff(OpSoftOff, req, comps, ls);
    hide ComponentsAfter, ListsAfter, Sequenced, Shape, After;
    SoftRunIsUnforced(cfg, Start(comps, ls, None), log);
  }

  /** What holds of every run that starts from a sequenced request. */
  lemma RunResults(op: Operation, cfg: Config, req: Request, comps: Request, ls: Lists, log: seq<Event>, r: Run)
    requires ComponentsAfter(op, req, req.Keys, comps) && ListsAfter(op, req, req.Keys, ls) && AsFound(op, req)
    requires After(cfg, Start(comps, ls, None), log) == Some(r)
    ensures r.comps.Keys == req.Keys
    ensures forall i, j :: 0 <= i < |r.trace| && 0 <= j < |r.trace| && PowerOrder(r.trace[i], r.trace[j]) ==> i < j
    ensures r.phase == Finished && cfg.deadline != 0 ==>
              forall x :: x in req && ServedFor(op, req, x) ==> !Unfinished(r.comps[x].status)
    ensures r.phase == Aborted ==> forall x :: x in r.comps ==> !Unfinished(r.comps[x].status)
    ensures (forall x :: x in req ==> !Unfinished(req[x].status)) ==> r.trace == [] && r.comps == req
    ensures cfg.deadline != 0 ==>
              forall x :: x in req && Carried(op, req, x) && r.comps[x].status == TaskSucceeded ==> SeenInGoal(op, req, log, x)
    ensures TraceHolds(cfg, Start(comps, ls, None), log)
    ensures op == OpSoftOff && cfg.softOff ==> Unforced(r)
    ensures AllCommanded(Start(comps, ls, None), r)
    ensures forall x :: x in r.comps ==> Resumable(op, r.comps[x])
  {
    FinishResults(op, cfg, req, comps, ls, log, r);
    TraceResults(op, cfg, req, comps, ls, log);
    TasksStayResumable(op, cfg, req, comps, ls, log);
    CommandsOfRun(op, cfg, req, comps, ls, log);
    hide *;
    if cfg.deadline != 0 {
      SuccessesMeanGoals(op, cfg, req, comps, ls, log, r);
    }
    if op == OpSoftOff && cfg.softOff {
      SoftOffNeverForces(cfg, req, comps, ls, log);
    }
  }

  /** Sequencing and every run that follows it leave tasks that can be resumed. */
  lemma TasksStayResumable(op: Operation, cfg: Config, req: Request, comps: Request, ls: Lists, log: seq<Event>)
    requires ComponentsAfter(op, req, req.Keys, comps) && ListsAfter(op, req, req.Keys, ls)
    requires forall x :: x in req ==> Resumable(op, req[x])
    requires After(cfg, Start(comps, ls, None), log).Some?
    ensures forall x :: x in After(cfg, Start(comps, ls, None), log).value.comps ==>
              Resumable(op, After(cfg, Start(comps, ls, None), log).value.comps[x])
  {
    SequencingIsSequenced(op, req, comps, ls);
    StartHasShape(comps, ls, None);
    hide Sequenced, Shape, TypeOf, ListOf, Schedule, Resumable, Queueable, After;
    forall x | x in req
      ensures Resumable(op, SequencedComponent(op, req, x)) && forall a :: a in QueuedFor(op, req, x) ==> a in Queueable(op)
    {
      if Unfinished(req[x].status) {
        ScheduleKeepsResumable(op, x, req[x], true);
      }
    }
    hide SequencedComponent, QueuedFor;
    forall a, t, x | x in ListOf(ls, a, t) ensures Issues(op, a) {
      assert x in req && a in QueuedFor(op, req, x);
    }
    assert AllResumable(op, Start(comps, ls, None));
    RunKeepsResumable(op, cfg, Start(comps, ls, None), log);
  }

  lemma FinishResults(op: Operation, cfg: Config, req: Request, comps: Request, ls: Lists, log: seq<Event>, r: Run)
    requires ComponentsAfter(op, req, req.Keys, comps) && ListsAfter(op, req, req.Keys, ls) && AsFound(op, req)
    requires After(cfg, Start(comps, ls, None), log) == Some(r)
    ensures r.comps.Keys == req.Keys
    ensures forall i, j :: 0 <= i < |r.trace| && 0 <= j < |r.trace| && PowerOrder(r.trace[i], r.trace[j]) ==> i < j
    ensures r.phase == Finished && cfg.deadline != 0 ==>
              forall x :: x in req && ServedFor(op, req, x) ==> !Unfinished(r.comps[x].status)
    ensures r.phase == Aborted ==> forall x :: x in r.comps ==> !Unfinished(r.comps[x].status)
    ensures (forall x :: x in req ==> !Unfinished(req[x].status)) ==> r.trace == [] && r.comps == req
  {
    SequencingIsSequenced(op, req, comps, ls);
    assert (forall x :: x in req ==> !Unfinished(req[x].status)) ==> comps == req;
    hide Sequenced, ListsAfter, After, ServedFor, PowerOrder, Schedule, Served, Counted, TypeOf, Resumable;
    RunKeepsKeys(cfg, Start(comps, ls, None), log);
    CommandsFollowPowerOrder(cfg, comps, ls, None, log);
    if r.phase == Finished && cfg.deadline != 0 {
      forall x | x in req && ServedFor(op, req, x) ensures !Unfinished(r.comps[x].status) {
        SequencedIsCounted(op, req, comps, ls, x);
        ServedForIsServed(op, req, ls, x);
        EveryServedTaskFinishes(cfg, comps, ls, None, log, x);
      }
    }
    if r.phase == Aborted {
      AbortedHasNoUnfinished(cfg, Start(comps, ls, None), log);
    }
    if forall x :: x in req ==> !Unfinished(req[x].status) {
      NoCommandsWhenAllFinished(cfg, comps, ls, None, log);
    }
  }

  /** The action whose dependents fail along with a component that got no reservation. */
  function LossAction(c: Component): PowerAction {
    match c.operation
    case OpSoftRestart | OpHardRestart | OpSoftOff | OpOff => GracefulShutdown
    case OpForceOff => PowerAction.ForceOff
    case OpInit => if c.power == PowerOn then GracefulShutdown else PowerUp
    case OpOn | OpNil => PowerUp
  }

  /** A component without a reservation fails its dependents when it was to be shut down first. */
  lemma LossMeans(req: Request, x: Xname)
    requires x in req
    ensures var c, req' := req[x], FailWithDependents(req, LossAction(req[x]), x);
            if TypeOf(x) == Node && (c.operation in {OpSoftRestart, OpHardRestart, OpSoftOff, OpOff} ||
                                     (c.operation == OpInit && c.power == PowerOn)) then
              var compute := Parent(Parent(x));
              compute in req ==> compute in req' && req'[compute].status == TaskFailed
            else req' == req[x := c.(status := TaskFailed)]
  {
    if Parent(Parent(x)) in req && TypeOf(x) == Node {
      DependentsAreFailed(req, x, Parent(Parent(x)));
    }
    hide TypeOf, Parent, SupplyToFail;
  }

  lemma {:induction false} AfterConcat(cfg: Config, r: Run, log: seq<Event>, more: seq<Event>)
    requires After(cfg, r, log).Some? && After(cfg, After(cfg, r, log).value, more).Some?
    ensures After(cfg, r, log + more) == After(cfg, After(cfg, r, log).value, more)
    decreases |more|
  {
    if more == [] {
      assert log + more == log;
    } else {
      AfterConcat(cfg, r, log, more[..|more| - 1]);
      assert (log + more)[..|log + more| - 1] == log + more[..|more| - 1];
    }
  }

  /** No command is ever sent to a component without a reservation or a valid deputy key. */
  lemma NoCommandWithoutReservation(op: Operation, cfg: Config, req: Request, comps: Request, ls: Lists,
                                    reservations: seq<Xname>, obtained: set<Xname>,
                                    before: seq<Event>, mid: Run, log: seq<Event>)
    requires ComponentsAfter(op, req, req.Keys, comps) && ListsAfter(op, req, req.Keys, ls)
    requires ReservationsAfter(op, req, req.Keys, reservations)
    requires After(cfg, Start(comps, ls, None), before) == Some(mid)
    requires mid == Start(mid.comps, ls, None) && OnlyFails(comps, mid.comps)
    requires forall x :: x in reservations && x !in obtained && x in mid.comps ==> !Unfinished(mid.comps[x].status)
    requires After(cfg, mid, log).Some?
    ensures forall i :: 0 <= i < |After(cfg, mid, log).value.trace| ==> After(cfg, mid, log).value.trace[i].x in obtained
  {
    hide Apply, Enabled, Shape, Sequenced, TypeOf, ListOf, ComponentsAfter, ListsAfter, ReservationsAfter;
    var r := After(cfg, mid, log).value;
    SequencingIsSequenced(op, req, comps, ls);
    StartHasShape(comps, ls, None);
    RunKeepsShape(cfg, Start(comps, ls, None), before);
    AfterConcat(cfg, Start(comps, ls, None), before, log);
    forall i | 0 <= i < |r.trace| ensures r.trace[i].x in obtained {
      var x := r.trace[i].x;
      if Unlisted(ls, x) {
        UnlistedIsNeverCommanded(cfg, comps, ls, None, before + log, x);
        assert false;
      }
      if x !in obtained {
        ListedIsReserved(op, req, comps, ls, reservations, x);
        FailedStaysFailed(cfg, mid, log, x);
      }
    }
  }

  lemma ListedIsReserved(op: Operation, req: Request, comps: Request, ls: Lists, reservations: seq<Xname>, x: Xname)
    requires ComponentsAfter(op, req, req.Keys, comps) && ListsAfter(op, req, req.Keys, ls)
    requires ReservationsAfter(op, req, req.Keys, reservations)
    requires !Unlisted(ls, x)
    ensures x in reservations && x in comps && Unfinished(comps[x].status)
  {
    var a :| x in ListOf(ls, a, TypeOf(x));
    assert a in QueuedFor(op, req, x);
    QueuedFacts(op, req, x);
  }

  lemma {:induction false} RunKeepsKeys(cfg: Config, r: Run, log: seq<Event>)
    requires After(cfg, r, log).Some?
    ensures After(cfg, r, log).value.comps.Keys == r.comps.Keys
  {
    hide Apply, Enabled;
    if log != [] {
      RunKeepsKeys(cfg, r, log[..|log| - 1]);
      StepKeepsKeys(cfg, After(cfg, r, log[..|log| - 1]).value, log[|log| - 1]);
    }
  }

  // ----- Take-overs ---------------------------------------------------------------------------------

  /** One runner of a transition: the request it found, what sequencing made of it, and
      what happened until it ended or was stopped. */
  datatype Generation = Generation(cfg: Config, req: Request, comps: Request, lists: Lists, log: seq<Event>)

  ghost predicate Ran(op: Operation, g: Generation) {
    && ComponentsAfter(op, g.req, g.req.Keys, g.comps) && ListsAfter(op, g.req, g.req.Keys, g.lists)
    && After(g.cfg, Start(g.comps, g.lists, None), g.log).Some?
  }

  /** The task has the state and the operation that it had at some moment of that run. */
  ghost predicate LeftAt(g: Generation, i: nat, x: Xname, c: Component) {
    && i <= |g.log| && After(g.cfg, Start(g.comps, g.lists, None), g.log[..i]).Some?
    && var m := After(g.cfg, Start(g.comps, g.lists, None), g.log[..i]).value;
       x in m.comps && c.state == m.comps[x].state && c.operation == m.comps[x].operation
  }

  /** A new task, or one stored by an earlier runner at any moment, even before sequencing. */
  ghost predicate HasOrigin(op: Operation, gens: seq<Generation>, x: Xname, c: Component) {
    || (c.state == GatherData && c.operation == op)
    || (exists n :: 0 <= n < |gens| && x in gens[n].req && c.state == gens[n].req[x].state && c.operation == gens[n].req[x].operation)
    || (exists n, i: nat :: 0 <= n < |gens| && LeftAt(gens[n], i, x, c))
  }

  ghost predicate History(op: Operation, gens: seq<Generation>) {
    forall n :: 0 <= n < |gens| ==>
      Ran(op, gens[n]) && forall x :: x in gens[n].req ==> HasOrigin(op, gens[..n], x, gens[n].req[x])
  }

  /** However many runners take a transition over, and wherever each of them is stopped,
      every task that one of them finds can be resumed. */
  lemma {:induction false} EveryTaskIsResumable(op: Operation, gens: seq<Generation>, n: nat)
    requires History(op, gens) && n < |gens|
    ensures forall x :: x in gens[n].req ==> Resumable(op, gens[n].req[x])
  {
    hide After, ComponentsAfter, ListsAfter, Issues;
    forall x | x in gens[n].req ensures Resumable(op, gens[n].req[x]) {
      var c := gens[n].req[x];
      assert HasOrigin(op, gens[..n], x, c);
      if c.state != GatherData {
        if m :| 0 <= m < n && x in gens[..n][m].req && c.state == gens[..n][m].req[x].state
                && c.operation == gens[..n][m].req[x].operation {
          EveryTaskIsResumable(op, gens, m);
        } else {
          var m, i: nat :| 0 <= m < n && LeftAt(gens[..n][m], i, x, c);
          EveryTaskIsResumable(op, gens, m);
          var g := gens[m];
          assert Ran(op, g);
          TasksStayResumable(op, g.cfg, g.req, g.comps, g.lists, g.log[..i]);
        }
      }
    }
  }
}
