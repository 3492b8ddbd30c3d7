/** What every event of a run keeps: well-formed tier lists, and bookkeeping in
    which no component is handled twice in one tier. */
module TierShape {
  import opened Xnames
  import opened TransitionModel
  import opened Sequencing
  import opened TierRunner

  /** Every list holds requested components of its own type, each at most once. */
  ghost predicate WellListed(comps: Request, ls: Lists) {
    && (forall a, t :: NoDup(ListOf(ls, a, t)))
    && (forall a, t, x :: x in ListOf(ls, a, t) ==> TypeOf(x) == t && x in comps)
  }

  function Todo(p: Phase): seq<Xname> {
    if p.Scanning? then p.todo else []
  }

  /** The component is in the current tier and not yet done with it. */
  predicate Pending(r: Run, x: Xname) {
    x in Todo(r.phase) || x in r.inflight || x in r.waiting
  }

  predicate Busy(p: Phase) {
    InTier(p) && !p.Reserving?
  }

  /** The first tier that has not been started. */
  function NextTier(p: Phase): nat {
    if p.Boundary? || p.Reserving? then p.k
    else if p.Finished? || p.Aborted? then TIERS
    else p.k + 1
  }

  /** Tier `k` is the one that serves its action on this component. */
  predicate ServedIn(k: nat, x: Xname) {
    k < TIERS && TierOf(TierAction(k), TypeOf(x)) == k
  }

  ghost predicate PendingServed(r: Run) {
    forall x :: Pending(r, x) ==>
      && Busy(r.phase) && x in r.comps && ServedIn(r.phase.k, x)
      && x in ListOf(r.lists, TierAction(r.phase.k), TypeOf(x))
  }

  ghost predicate Coherent(r: Run) {
    && r.inflight !! r.waiting
    && NoDup(Todo(r.phase))
    && (forall x :: x in Todo(r.phase) ==> x !in r.inflight && x !in r.waiting)
    && (r.phase.Checking? || r.phase.Polling? || r.phase.Expiring? ==> r.inflight == {})
    && (r.phase.Polling? ==> r.phase.left <= r.waiting)
  }

  predicate InBothOffLists(ls: Lists, x: Xname) {
    x in ListOf(ls, GracefulShutdown, TypeOf(x)) && x in ListOf(ls, ForceOff, TypeOf(x))
  }

  /** A component is queued for both off actions only once its shutdown tier is behind it. */
  ghost predicate EscalatedLate(r: Run) {
    forall x :: InBothOffLists(r.lists, x) ==>
      && TierOf(GracefulShutdown, TypeOf(x)) < NextTier(r.phase)
      && !(Pending(r, x) && Busy(r.phase) && r.phase.k < TIERS && TierAction(r.phase.k) == GracefulShutdown)
  }

  ghost predicate Shape(r: Run) {
    && Placed(r.phase)
    && WellListed(r.comps, r.lists)
    && PendingServed(r)
    && Coherent(r)
    && EscalatedLate(r)
  }

  // ----- Facts about the table and the lists ------------------------------------

  lemma TierOfAction(a: PowerAction, t: HMSType)
    requires TierOf(a, t) < TIERS
    ensures TierAction(TierOf(a, t)) == a && t in TierTypes(TierOf(a, t))
  {
  }

  /** A component that can be shut down by some tier is forced off by the next one. */
  lemma ForceOffFollows(t: HMSType)
    requires TierOf(GracefulShutdown, t) < TIERS
    ensures TierOf(ForceOff, t) == TierOf(GracefulShutdown, t) + 1
  {
  }

  lemma {:induction false} GatherHas(comps: Request, ls: Lists, a: PowerAction, types: seq<HMSType>)
    requires WellListed(comps, ls) && NoDup(types)
    ensures forall x :: x in Gather(ls, a, types) <==> TypeOf(x) in types && x in ListOf(ls, a, TypeOf(x))
    ensures NoDup(Gather(ls, a, types))
  {
    hide TypeOf, ListOf;
    if types != [] {
      var rest := types[1..];
      GatherHas(comps, ls, a, rest);
      var l := ListOf(ls, a, types[0]);
      assert types == [types[0]] + rest;
      assert forall x :: x in l ==> TypeOf(x) == types[0];
      assert types[0] !in rest;
      assert forall x :: x in l ==> x !in Gather(ls, a, rest);
      NoDupConcat(l, Gather(ls, a, rest));
    }
  }

  lemma NoDupConcat(s: seq<Xname>, t: seq<Xname>)
    requires NoDup(s) && NoDup(t) && forall x :: x in s ==> x !in t
    ensures NoDup(s + t)
  {
    forall i, j | 0 <= i < j < |s + t| ensures (s + t)[i] != (s + t)[j] {
      if i < |s| && j >= |s| {
        assert (s + t)[i] in s && (s + t)[j] in t;
      }
    }
  }

  lemma TierTypesDistinct(k: nat)
    requires k < TIERS
    ensures NoDup(TierTypes(k))
  {
  }

  /** A tier handles, once, the components it serves that are queued for its action. */
  lemma TierListHas(comps: Request, ls: Lists, k: nat)
    requires WellListed(comps, ls) && k < TIERS
    ensures forall x :: x in TierList(ls, k) <==> ServedIn(k, x) && x in ListOf(ls, TierAction(k), TypeOf(x))
    ensures NoDup(TierList(ls, k))
  {
    hide TypeOf, ListOf, TierOf, TierAction, TierTypes;
    TierTypesDistinct(k);
    GatherHas(comps, ls, TierAction(k), TierTypes(k));
    forall x ensures TypeOf(x) in TierTypes(k) <==> ServedIn(k, x) {
      TierOfIsTheOnlyTier(k, TypeOf(x));
    }
  }

  lemma AppendLists(ls: Lists, x: Xname)
    ensures forall a, t :: ListOf(Append(ls, ForceOff, x), a, t) ==
              if a == ForceOff && t == TypeOf(x) then ListOf(ls, a, t) + [x] else ListOf(ls, a, t)
  {
    hide TypeOf;
  }

  // ----- Failing components ---------------------------------------------------------

  /** Only statuses change, and only to failed. */
  ghost predicate OnlyFails(req: Request, req': Request) {
    && req'.Keys == req.Keys
    && (forall y :: y in req ==> req'[y] == req[y] || req'[y] == req[y].(status := TaskFailed))
  }

  lemma OnlyFailsTransitive(p: Request, q: Request, r: Request)
    requires OnlyFails(p, q) && OnlyFails(q, r)
    ensures OnlyFails(p, r)
    ensures forall y :: y in p && q[y].status == TaskFailed ==> r[y].status == TaskFailed
  {
  }

  lemma FailOnlyFails(req: Request, x: Xname)
    ensures OnlyFails(req, Fail(req, x))
    ensures x in req ==> Fail(req, x)[x].status == TaskFailed
  {
  }

  lemma DependentsOnlyFail(req: Request, a: PowerAction, x: Xname)
    ensures OnlyFails(req, FailDependents(req, a, x))
  {
    hide TypeOf, Parent, SupplyToFail, Fail;
    var failed := Fail(req, Parent(Parent(x)));
    FailOnlyFails(req, Parent(Parent(x)));
    var supply := SupplyToFail(req, x);
    if supply.Some? {
      FailOnlyFails(failed, supply.value);
      OnlyFailsTransitive(req, failed, Fail(failed, supply.value));
    }
  }

  lemma FailingOnlyFails(req: Request, a: PowerAction, x: Xname)
    ensures OnlyFails(req, FailWithDependents(req, a, x))
    ensures x in req ==> FailWithDependents(req, a, x)[x].status == TaskFailed
  {
    hide FailDependents, Fail;
    FailOnlyFails(req, x);
    DependentsOnlyFail(Fail(req, x), a, x);
    OnlyFailsTransitive(req, Fail(req, x), FailWithDependents(req, a, x));
  }

  // ----- Preservation ------------------------------------------------------------------

  /** An event inside a tier that only takes components out of it keeps the shape. */
  lemma SettlingKeepsShape(r: Run, r': Run)
    requires Shape(r) && Busy(r.phase) && Placed(r'.phase) && Coherent(r')
    requires r'.lists == r.lists && r'.comps.Keys == r.comps.Keys
    requires forall y :: Pending(r', y) ==> Pending(r, y)
    requires if Busy(r'.phase) then r'.phase.k == r.phase.k
             else r'.inflight == r'.waiting == {} && r'.phase == Boundary(r.phase.k + 1)
    ensures Shape(r')
  {
    hide TypeOf, TierOf, TierAction, ListOf;
  }

  lemma ScanKeepsShape(r: Run)
    requires Shape(r) && r.phase.Scanning? && r.phase.todo != [] && r.phase.todo[0] in r.comps
    ensures Shape(ScanOne(r))
  {
    hide TypeOf, TierOf, TransitionPayload, TierAction, ListOf, FailWithDependents, Shape, WellListed, NoDup;
    var x := r.phase.todo[0];
    ShapeParts(r);
    NoDupTail(r.phase.todo);
    FailingOnlyFails(r.comps, TierAction(r.phase.k), x);
    SettlingKeepsShape(r, ScanOne(r));
  }

  lemma ShapeParts(r: Run)
    requires Shape(r)
    ensures Placed(r.phase) && WellListed(r.comps, r.lists) && PendingServed(r) && Coherent(r) && EscalatedLate(r)
  {
    hide PendingServed, Coherent, EscalatedLate, WellListed;
  }

  lemma StartKeepsShape(cfg: Config, r: Run)
    requires Shape(r) && Enabled(cfg, r, StartScan)
    ensures Shape(Apply(cfg, r, StartScan))
  {
    hide TypeOf, TierOf, TransitionPayload, TierAction, ListOf, TierList;
    TierListHas(r.comps, r.lists, r.phase.k);
  }

  lemma AnswerKeepsShape(cfg: Config, r: Run, x: Xname, ok: bool)
    requires Shape(r) && Enabled(cfg, r, Respond(x, ok))
    ensures Shape(Answered(cfg, r, x, ok))
  {
    hide TypeOf, TierOf, TierAction, ListOf, FailWithDependents, Shape, WellListed;
    ShapeParts(r);
    FailingOnlyFails(r.comps, TierAction(r.phase.k), x);
    SettlingKeepsShape(r, Answered(cfg, r, x, ok));
  }

  lemma PollKeepsShape(cfg: Config, r: Run, x: Xname, answer: Answer)
    requires Shape(r) && Enabled(cfg, r, PollOne(x, answer))
    ensures Shape(Polled(r, x, answer))
  {
    hide TypeOf, TierOf, TierAction, ListOf, FailWithDependents, Shape, WellListed;
    ShapeParts(r);
    FailingOnlyFails(r.comps, TierAction(r.phase.k), x);
    SettlingKeepsShape(r, Polled(r, x, answer));
  }

  lemma EscalationKeepsShape(cfg: Config, r: Run, x: Xname)
    requires Shape(r) && Enabled(cfg, r, ExpireOne(x))
    requires Escalates(cfg, r.comps[x], TierAction(r.phase.k))
    ensures Shape(Expired(cfg, r, x))
    ensures x !in ListOf(r.lists, ForceOff, TypeOf(x))
  {
    hide TypeOf, TierOf, TransitionPayload, TierAction, ListOf, TierList, Append, WellListed, NoDup;
    AppendLists(r.lists, x);
    assert Pending(r, x);
    assert !InBothOffLists(r.lists, x);
    EscalationKeepsLists(r.comps, r.lists, x);
  }

  lemma EscalationKeepsLists(comps: Request, ls: Lists, x: Xname)
    requires WellListed(comps, ls) && x in comps && x !in ListOf(ls, ForceOff, TypeOf(x))
    ensures WellListed(comps, Append(ls, ForceOff, x))
  {
    hide TypeOf, ListOf, Append;
    AppendLists(ls, x);
  }

  lemma ExpiryKeepsShape(cfg: Config, r: Run, x: Xname)
    requires Shape(r) && Enabled(cfg, r, ExpireOne(x))
    ensures Shape(Expired(cfg, r, x))
  {
    hide TypeOf, TierOf, TierAction, ListOf, FailWithDependents, Shape, WellListed;
    if Escalates(cfg, r.comps[x], TierAction(r.phase.k)) {
      EscalationKeepsShape(cfg, r, x);
    } else {
      ShapeParts(r);
      FailingOnlyFails(r.comps, TierAction(r.phase.k), x);
      SettlingKeepsShape(r, Expired(cfg, r, x));
    }
  }

  lemma LossKeepsShape(cfg: Config, r: Run, x: Xname, a: PowerAction)
    requires Shape(r) && Enabled(cfg, r, LoseReservation(x, a))
    ensures Shape(Apply(cfg, r, LoseReservation(x, a)))
  {
    hide TypeOf, TierOf, TierAction, ListOf, FailWithDependents;
    FailingOnlyFails(r.comps, a, x);
    assert forall y :: !Pending(Apply(cfg, r, LoseReservation(x, a)), y) || Pending(r, y);
  }

  /** Events that touch neither the lists nor what is pending. */
  lemma QuietKeepsShape(cfg: Config, r: Run, e: Event)
    requires Shape(r) && Enabled(cfg, r, e)
    requires e in {SignalAbort, SkipTier, SeeAbort, EndScan, EndResponses, EndExpiry, Finish} ||
             e.PassCheck? || e.EndRound?
    ensures Shape(Apply(cfg, r, e))
  {
    hide TypeOf, TierOf, TierAction, ListOf, TierList;
    var r' := Apply(cfg, r, e);
    assert AbortTasks(r.comps).Keys == r.comps.Keys;
    assert forall y :: Pending(r', y) ==> Pending(r, y);
    if Busy(r.phase) && e != SeeAbort {
      SettlingKeepsShape(r, r');
    }
  }

  /** Every event keeps the shape. */
  lemma StepKeepsShape(cfg: Config, r: Run, e: Event)
    requires Shape(r) && Enabled(cfg, r, e)
    ensures Shape(Apply(cfg, r, e))
  {
    hide TypeOf, TierOf, TierAction, ListOf, TierList, FailWithDependents, ScanOne, Answered, Polled, Expired;
    match e
    case StartScan => StartKeepsShape(cfg, r);
    case ScanNext => ScanKeepsShape(r);
    case Respond(x, ok) => AnswerKeepsShape(cfg, r, x, ok);
    case PollOne(x, answer) => PollKeepsShape(cfg, r, x, answer);
    case ExpireOne(x) => ExpiryKeepsShape(cfg, r, x);
    case LoseReservation(x, a) => LossKeepsShape(cfg, r, x, a);
    case _ => QuietKeepsShape(cfg, r, e);
  }

  lemma {:induction false} RunKeepsShape(cfg: Config, r: Run, log: seq<Event>)
    requires Shape(r) && After(cfg, r, log).Some?
    ensures Shape(After(cfg, r, log).value)
  {
    if log != [] {
      var mid := log[..|log| - 1];
      RunKeepsShape(cfg, r, mid);
      StepKeepsShape(cfg, After(cfg, r, mid).value, log[|log| - 1]);
    }
  }
}
