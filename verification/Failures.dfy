/** Whether a failed task can come back to life. */
module Failures {
  import opened Xnames
  import opened TransitionModel
  import opened Sequencing
  import opened TierRunner
  import opened TierShape
  import opened TierCounts
  import opened TierTraces
  import opened RunBuilding
  import opened Outcomes

  /** Two nodes are to be shut down, and the second is the supply that is failed with the first. */
  ghost predicate Linked(comps: Request, ls: Lists, x: Xname, y: Xname) {
    && x != y && TypeOf(x) == Node && TypeOf(y) == Node
    && x in ListOf(ls, GracefulShutdown, Node) && y in ListOf(ls, GracefulShutdown, Node)
    && SupplyToFail(comps, x) == Some(y)
  }

  ghost predicate Entangled(comps: Request, ls: Lists) {
    exists x, y :: Linked(comps, ls, x, y)
  }

  /** In particular, nothing is entangled when no node is listed as a power supply. */
  lemma NotEntangledWithoutNodeSupplies(comps: Request, ls: Lists)
    requires forall x, i :: x in comps && 0 <= i < |comps[x].supplies| ==> TypeOf(comps[x].supplies[i].id) != Node
    ensures !Entangled(comps, ls)
  {
    hide TypeOf, ListOf;
    if x, y :| Linked(comps, ls, x, y) {
      LastSupplyOnIsOn(comps[x].supplies);
    }
  }

  // ----- Without entanglement nothing that is under way is failed ----------------------------------

  predicate UnderWay(r: Run, y: Xname) {
    y in r.inflight || y in r.waiting
  }

  ghost predicate NoneFailedUnderWay(r: Run) {
    forall y :: UnderWay(r, y) && y in r.comps ==> r.comps[y].status != TaskFailed
  }

  /** A failure hits no other component that is under way. */
  lemma FailureIsElsewhere(r: Run, x: Xname, y: Xname)
    requires Shape(r) && Busy(r.phase) && Pending(r, x) && UnderWay(r, y) && x != y && !Entangled(r.comps, r.lists)
    ensures y in r.comps && y in FailWithDependents(r.comps, TierAction(r.phase.k), x)
    ensures FailWithDependents(r.comps, TierAction(r.phase.k), x)[y] == r.comps[y]
  {
    ShapeParts(r);
    var k := r.phase.k;
    assert Pending(r, y);
    FailingOnlyFails(r.comps, TierAction(k), x);
    if TierAction(k) == GracefulShutdown && TypeOf(x) == Node {
      ShutdownHitsNoNode(r.comps, r.lists, k, x, y);
    } else {
      hide TypeOf, ListOf, TierOf, TierAction, WellListed, Shape, SupplyToFail, Parent;
    }
  }

  lemma ShutdownHitsNoNode(comps: Request, ls: Lists, k: nat, x: Xname, y: Xname)
    requires k < TIERS && TierAction(k) == GracefulShutdown && ServedIn(k, x) && ServedIn(k, y) && TypeOf(x) == Node && x != y
    requires x in comps && y in comps && !Entangled(comps, ls)
    requires x in ListOf(ls, GracefulShutdown, TypeOf(x)) && y in ListOf(ls, GracefulShutdown, TypeOf(y))
    ensures y in FailWithDependents(comps, GracefulShutdown, x) && FailWithDependents(comps, GracefulShutdown, x)[y] == comps[y]
  {
    if TypeOf(y) != Node {
      OnlyNodesInNodeTier(k, x, y);
    }
    assert !Linked(comps, ls, x, y);
    ParentHasParentType(x);
    ParentHasParentType(Parent(x));
    assert SupplyToFail(Fail(comps, x), x) == SupplyToFail(comps, x) by {
      assert Fail(comps, x).Keys == comps.Keys;
    }
    hide TypeOf, ListOf, TierOf, TierAction, SupplyToFail, Parent;
  }

  lemma ScanKeepsNone(r: Run)
    requires Shape(r) && r.phase.Scanning? && r.phase.todo != [] && r.phase.todo[0] in r.comps
    requires NoneFailedUnderWay(r) && !Entangled(r.comps, r.lists)
    ensures NoneFailedUnderWay(ScanOne(r))
  {
    var x := r.phase.todo[0];
    ShapeParts(r);
    assert Pending(r, x);
    assert !UnderWay(r, x);
    hide TypeOf, ListOf, TierOf, TierAction, FailWithDependents, TransitionPayload, WellListed, EscalatedLate, Shape, NoDup,
         Entangled, PendingServed;
    forall y | UnderWay(r, y) ensures y in r.comps && y in FailWithDependents(r.comps, TierAction(r.phase.k), x) &&
                                      FailWithDependents(r.comps, TierAction(r.phase.k), x)[y] == r.comps[y] {
      FailureIsElsewhere(r, x, y);
    }
    FailingOnlyFails(r.comps, TierAction(r.phase.k), x);
  }

  /** The component is done with its tier, and failed along with its dependents. */
  lemma FailKeepsNone(r: Run, r': Run, x: Xname)
    requires Shape(r) && Busy(r.phase) && UnderWay(r, x) && NoneFailedUnderWay(r) && !Entangled(r.comps, r.lists)
    requires r.phase.k < TIERS && r'.comps == FailWithDependents(r.comps, TierAction(r.phase.k), x)
    requires forall y :: UnderWay(r', y) ==> UnderWay(r, y) && y != x
    ensures NoneFailedUnderWay(r')
  {
    hide TypeOf, ListOf, TierOf, TierAction, FailWithDependents, Shape, Entangled;
    forall y | UnderWay(r', y) ensures y in r.comps && y in r'.comps && r'.comps[y] == r.comps[y] {
      assert Pending(r, x);
      FailureIsElsewhere(r, x, y);
    }
  }

  lemma AnswerKeepsNone(cfg: Config, r: Run, x: Xname, ok: bool)
    requires Shape(r) && Enabled(cfg, r, Respond(x, ok)) && NoneFailedUnderWay(r) && !Entangled(r.comps, r.lists)
    ensures NoneFailedUnderWay(Answered(cfg, r, x, ok))
  {
    ShapeParts(r);
    hide TypeOf, ListOf, TierOf, TierAction, FailWithDependents, Shape, Entangled, WellListed, EscalatedLate, PendingServed, TierList, NoDup;
    if !ok {
      FailKeepsNone(r, Answered(cfg, r, x, ok), x);
    }
  }

  lemma PollKeepsNone(cfg: Config, r: Run, x: Xname, answer: Answer)
    requires Shape(r) && Enabled(cfg, r, PollOne(x, answer)) && NoneFailedUnderWay(r) && !Entangled(r.comps, r.lists)
    ensures NoneFailedUnderWay(Polled(r, x, answer))
  {
    ShapeParts(r);
    hide TypeOf, ListOf, TierOf, TierAction, FailWithDependents, Shape, Entangled, WellListed, EscalatedLate, PendingServed, TierList, NoDup;
    if answer.PollError? {
      FailKeepsNone(r, Polled(r, x, answer), x);
    }
  }

  lemma ExpiryKeepsNone(cfg: Config, r: Run, x: Xname)
    requires Shape(r) && Enabled(cfg, r, ExpireOne(x)) && NoneFailedUnderWay(r) && !Entangled(r.comps, r.lists)
    ensures NoneFailedUnderWay(Expired(cfg, r, x))
  {
    ShapeParts(r);
    hide TypeOf, ListOf, TierOf, TierAction, FailWithDependents, Shape, Entangled, WellListed, EscalatedLate, PendingServed, TierList,
         NoDup, Append, Escalates;
    if !Escalates(cfg, r.comps[x], TierAction(r.phase.k)) {
      FailKeepsNone(r, Expired(cfg, r, x), x);
    }
  }

  lemma StepKeepsNone(cfg: Config, r: Run, e: Event)
    requires Shape(r) && Enabled(cfg, r, e) && NoneFailedUnderWay(r) && !Entangled(r.comps, r.lists)
    ensures NoneFailedUnderWay(Apply(cfg, r, e))
  {
    ShapeParts(r);
    hide TypeOf, ListOf, TierOf, TierAction, FailWithDependents, Shape, Entangled, WellListed, EscalatedLate, TierList, NoDup,
         ScanOne, Answered, Polled, Expired, Coherent;
    match e
    case ScanNext => ScanKeepsNone(r);
    case Respond(x, ok) => AnswerKeepsNone(cfg, r, x, ok);
    case PollOne(x, answer) => PollKeepsNone(cfg, r, x, answer);
    case ExpireOne(x) => ExpiryKeepsNone(cfg, r, x);
    case LoseReservation(x, a) =>
      assert forall y :: UnderWay(r, y) ==> Pending(r, y);
    case _ =>
  }

  // ----- Whole runs -------------------------------------------------------------------------------

  /** The same components with the same supplies. */
  ghost predicate SameSupplies(p: Request, q: Request) {
    q.Keys == p.Keys && forall y :: y in p ==> q[y].supplies == p[y].supplies
  }

  lemma StepKeepsSupplies(cfg: Config, r: Run, e: Event)
    requires Placed(r.phase) && Enabled(cfg, r, e)
    ensures SameSupplies(r.comps, Apply(cfg, r, e).comps)
  {
    hide TierAction, TierList, FailWithDependents, ScanOne, Answered, Polled, Expired;
    match e
    case ScanNext => ScanKeepsSupplies(r);
    case LoseReservation(y, a) => FailingOnlyFails(r.comps, a, y);
    case Respond(y, ok) => AnswerKeepsSupplies(cfg, r, y, ok);
    case PollOne(y, answer) => PollKeepsSupplies(r, y, answer);
    case ExpireOne(y) => ExpiryKeepsSupplies(cfg, r, y);
    case _ =>
  }

  lemma ScanKeepsSupplies(r: Run)
    requires r.phase.Scanning? && r.phase.k < TIERS && r.phase.todo != [] && r.phase.todo[0] in r.comps
    ensures SameSupplies(r.comps, ScanOne(r).comps)
  {
    hide TierAction, FailWithDependents, TransitionPayload;
    FailingOnlyFails(r.comps, TierAction(r.phase.k), r.phase.todo[0]);
  }

  lemma AnswerKeepsSupplies(cfg: Config, r: Run, y: Xname, ok: bool)
    requires r.phase.Responding? && r.phase.k < TIERS && y in r.comps
    ensures SameSupplies(r.comps, Answered(cfg, r, y, ok).comps)
  {
    hide TierAction, FailWithDependents;
    FailingOnlyFails(r.comps, TierAction(r.phase.k), y);
  }

  lemma PollKeepsSupplies(r: Run, y: Xname, answer: Answer)
    requires r.phase.Polling? && r.phase.k < TIERS && y in r.comps
    ensures SameSupplies(r.comps, Polled(r, y, answer).comps)
  {
    hide TierAction, FailWithDependents;
    FailingOnlyFails(r.comps, TierAction(r.phase.k), y);
  }

  lemma ExpiryKeepsSupplies(cfg: Config, r: Run, y: Xname)
    requires r.phase.Expiring? && r.phase.k < TIERS && y in r.comps
    ensures SameSupplies(r.comps, Expired(cfg, r, y).comps)
  {
    hide TierAction, FailWithDependents, Escalates, Append;
    FailingOnlyFails(r.comps, TierAction(r.phase.k), y);
  }

  lemma {:induction false} RunKeepsSupplies(cfg: Config, r: Run, log: seq<Event>)
    requires Shape(r) && After(cfg, r, log).Some?
    ensures SameSupplies(r.comps, After(cfg, r, log).value.comps)
  {
    hide Apply, Enabled, Shape;
    if log != [] {
      var mid := log[..|log| - 1];
      RunKeepsSupplies(cfg, r, mid);
      RunKeepsShape(cfg, r, mid);
      ShapeParts(After(cfg, r, mid).value);
      StepKeepsSupplies(cfg, After(cfg, r, mid).value, log[|log| - 1]);
    }
  }

  lemma EntangledAlike(p: Request, ls: Lists, q: Request, ls': Lists)
    requires SameSupplies(p, q) && Grown(ls, ls')
    ensures Entangled(q, ls') <==> Entangled(p, ls)
  {
    hide TypeOf, ListOf;
    forall x, y ensures Linked(q, ls', x, y) <==> Linked(p, ls, x, y) {
      assert OutsideSupplyOn(q, if x in p then p[x].supplies else []) <==> OutsideSupplyOn(p, if x in p then p[x].supplies else []);
    }
  }

  lemma {:induction false} RunKeepsNone(cfg: Config, comps: Request, ls: Lists, sig: Option<nat>, log: seq<Event>)
    requires Sequenced(comps, ls) && !Entangled(comps, ls) && After(cfg, Start(comps, ls, sig), log).Some?
    ensures Shape(After(cfg, Start(comps, ls, sig), log).value)
    ensures NoneFailedUnderWay(After(cfg, Start(comps, ls, sig), log).value)
  {
    hide Apply, Enabled, Shape, Sequenced, Entangled, Grown, SameSupplies;
    var r0 := Start(comps, ls, sig);
    StartHasShape(comps, ls, sig);
    RunKeepsShape(cfg, r0, log);
    if log != [] {
      var mid := log[..|log| - 1];
      RunKeepsNone(cfg, comps, ls, sig, mid);
      var m := After(cfg, r0, mid).value;
      RunKeepsSupplies(cfg, r0, mid);
      RunGrows(cfg, r0, mid);
      EntangledAlike(comps, ls, m.comps, m.lists);
      StepKeepsNone(cfg, m, log[|log| - 1]);
    }
  }

  /** The last event of the run undoes the failed status of `x`. */
  ghost predicate Undoes(cfg: Config, r0: Run, log: seq<Event>, x: Xname) {
    && log != [] && After(cfg, r0, log).Some?
    && var m, r := After(cfg, r0, log[..|log| - 1]).value, After(cfg, r0, log).value;
       x in m.comps && m.comps[x].status == TaskFailed && !(x in r.comps && r.comps[x].status == TaskFailed)
  }

  /** Without entanglement no event of any run undoes a failed status. */
  lemma FailureIsNeverUndone(cfg: Config, comps: Request, ls: Lists, sig: Option<nat>, log: seq<Event>, x: Xname)
    requires Sequenced(comps, ls) && !Entangled(comps, ls)
    ensures !Undoes(cfg, Start(comps, ls, sig), log, x)
  {
    hide Apply, Enabled, Shape, Sequenced, Entangled, TierAction;
    var r0 := Start(comps, ls, sig);
    if Undoes(cfg, r0, log, x) {
      var mid := log[..|log| - 1];
      RunKeepsNone(cfg, comps, ls, sig, mid);
      var m, e := After(cfg, r0, mid).value, log[|log| - 1];
      FailureUndoneIff(cfg, m, e, x);
      UndoneWasUnderWay(cfg, m, e, x);
    }
  }

  lemma UndoneWasUnderWay(cfg: Config, r: Run, e: Event, x: Xname)
    requires Shape(r) && Enabled(cfg, r, e) && (e == Respond(x, true) || (e.PollOne? && e.x == x))
    ensures UnderWay(r, x)
  {
    ShapeParts(r);
    hide TypeOf, ListOf, TierOf, TierAction, TierList, WellListed, EscalatedLate, Shape, NoDup, PendingServed;
  }

  /** So a task that has failed at some point of a run is failed at every later one. */
  lemma {:induction false} FailedForGood(cfg: Config, comps: Request, ls: Lists, sig: Option<nat>, log: seq<Event>, i: nat, x: Xname)
    requires Sequenced(comps, ls) && !Entangled(comps, ls) && After(cfg, Start(comps, ls, sig), log).Some? && i <= |log|
    requires After(cfg, Start(comps, ls, sig), log[..i]).Some?
    requires x in After(cfg, Start(comps, ls, sig), log[..i]).value.comps
    requires After(cfg, Start(comps, ls, sig), log[..i]).value.comps[x].status == TaskFailed
    ensures var r := After(cfg, Start(comps, ls, sig), log).value; x in r.comps && r.comps[x].status == TaskFailed
  {
    hide Apply, Enabled, Sequenced, Entangled;
    if i == |log| {
      assert log[..i] == log;
    } else {
      var mid := log[..|log| - 1];
      assert mid[..i] == log[..i];
      FailedForGood(cfg, comps, ls, sig, mid, i, x);
      FailureIsNeverUndone(cfg, comps, ls, sig, log, x);
    }
  }

  // ----- With entanglement it can be ------------------------------------------------------------------

  /** The nodes to be shut down are all commanded. */
  ghost predicate ShutdownsAreSent(comps: Request, ls: Lists) {
    forall z :: z in ListOf(ls, GracefulShutdown, Node) ==>
      z in comps && comps[z].state != Waiting && TransitionPayload(z, comps[z], GracefulShutdown).Some?
  }

  lemma FirstTier(comps: Request, ls: Lists)
    requires Sequenced(comps, ls)
    ensures TierAction(0) == GracefulShutdown && NoDup(TierList(ls, 0))
    ensures forall z :: z in TierList(ls, 0) <==> z in ListOf(ls, GracefulShutdown, Node)
    ensures forall z :: z in TierList(ls, 0) ==> z in comps && Unfinished(comps[z].status)
  {
    TierListHas(comps, ls, 0);
    hide TypeOf, ListOf, TierList, NoDup;
  }

  /** A run in which the first node fails while the second is under way, and the second is
      then accepted: its failure is undone. */
  lemma EntangledIsUndone(cfg: Config, comps: Request, ls: Lists, x: Xname, y: Xname) returns (log: seq<Event>)
    requires Sequenced(comps, ls) && ShutdownsAreSent(comps, ls) && Linked(comps, ls, x, y)
    ensures Undoes(cfg, Start(comps, ls, None), log, y)
  {
    var r0 := Start(comps, ls, None);
    FirstTier(comps, ls);
    hide Sequenced, TypeOf, ListOf, TierList, After, TransitionPayload, TierAction, NoDup, SupplyToFail;
    AfterNothing(cfg, r0);
    EmptyOrMember(TierList(ls, 0));
    var r;
    log, r := SendTier(cfg, r0, [], r0, 0);
    assert x in r.inflight && y in r.inflight && r.phase == Responding(0);
    LinkedFails(comps, ls, r.comps, x, y);
    hide Linked, ShutdownsAreSent, FailWithDependents, ScannedFrom;
    log := FailThenAccept(cfg, r0, log, r, x, y);
  }

  lemma FailThenAccept(cfg: Config, r0: Run, log: seq<Event>, r: Run, x: Xname, y: Xname) returns (log': seq<Event>)
    requires After(cfg, r0, log) == Some(r) && r.phase.Responding? && r.phase.k < TIERS && x != y
    requires x in r.inflight && y in r.inflight && x in r.comps
    requires var comps := FailWithDependents(r.comps, TierAction(r.phase.k), x); y in comps && comps[y].status == TaskFailed
    ensures Undoes(cfg, r0, log', y)
  {
    hide TierAction, FailWithDependents, After, TierList;
    AfterSnoc(cfg, r0, log, Respond(x, false));
    log' := log + [Respond(x, false)];
    AfterSnoc(cfg, r0, log', Respond(y, true));
    var full := log' + [Respond(y, true)];
    assert full[..|full| - 1] == log';
    log' := full;
  }

  lemma LinkedFails(comps: Request, ls: Lists, now: Request, x: Xname, y: Xname)
    requires Linked(comps, ls, x, y) && now.Keys == comps.Keys && x in comps && y in comps && now[x].supplies == comps[x].supplies
    ensures y in FailWithDependents(now, GracefulShutdown, x)
    ensures FailWithDependents(now, GracefulShutdown, x)[y].status == TaskFailed
  {
    assert SupplyToFail(now, x) == SupplyToFail(comps, x);
    DependentsAreFailed(now, x, y);
  }

  /** For requests whose node shutdowns are all sent: some run undoes a failed status if and
      only if a node to be shut down is the supply that is failed with another one. */
  lemma FailureUndoneInSomeRunIff(cfg: Config, comps: Request, ls: Lists)
    requires Sequenced(comps, ls) && ShutdownsAreSent(comps, ls)
    ensures (exists log, x :: Undoes(cfg, Start(comps, ls, None), log, x)) <==> Entangled(comps, ls)
  {
    hide Sequenced, ShutdownsAreSent, Linked, Undoes;
    if Entangled(comps, ls) {
      var x, y :| Linked(comps, ls, x, y);
      var log := EntangledIsUndone(cfg, comps, ls, x, y);
    } else {
      forall log, x ensures !Undoes(cfg, Start(comps, ls, None), log, x) {
        FailureIsNeverUndone(cfg, comps, ls, None, log, x);
      }
    }
  }
}
