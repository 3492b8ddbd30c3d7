/** The action counter of a task and the tiers that still list its component. */
module TierCounts {
  import opened Xnames
  import opened TransitionModel
  import opened Sequencing
  import opened TierRunner
  import opened TierShape

  // ----- Counting the tiers to come ------------------------------------------------

  /** How many tiers from `k` on list the component. */
  function TiersListing(ls: Lists, k: nat, x: Xname): nat
    decreases TIERS - k
  {
    if k >= TIERS then 0
    else (if x in TierList(ls, k) then 1 else 0) + TiersListing(ls, k + 1, x)
  }

  predicate Due(ls: Lists, k: nat, x: Xname, a: PowerAction) {
    x in ListOf(ls, a, TypeOf(x)) && k <= TierOf(a, TypeOf(x)) < TIERS
  }

  function One(b: bool): nat { if b then 1 else 0 }

  /** The same number, action by action. */
  function ActionsDue(ls: Lists, k: nat, x: Xname): nat {
    One(Due(ls, k, x, GracefulShutdown)) + One(Due(ls, k, x, ForceOff)) +
    One(Due(ls, k, x, GracefulRestart)) + One(Due(ls, k, x, PowerUp))
  }

  lemma DueStep(ls: Lists, k: nat, x: Xname, a: PowerAction)
    requires k < TIERS
    ensures Due(ls, k, x, a) <==>
            Due(ls, k + 1, x, a) || (a == TierAction(k) && ServedIn(k, x) && x in ListOf(ls, a, TypeOf(x)))
  {
    hide TypeOf, ListOf;
    if TierOf(a, TypeOf(x)) == k {
      TierOfAction(a, TypeOf(x));
    }
  }

  lemma ActionsDueStep(comps: Request, ls: Lists, k: nat, x: Xname)
    requires WellListed(comps, ls) && k < TIERS
    ensures ActionsDue(ls, k, x) == ActionsDue(ls, k + 1, x) + One(x in TierList(ls, k))
  {
    TierListHas(comps, ls, k);
    DueStep(ls, k, x, GracefulShutdown);
    DueStep(ls, k, x, ForceOff);
    DueStep(ls, k, x, GracefulRestart);
    DueStep(ls, k, x, PowerUp);
    hide TypeOf, ListOf, TierOf, TierAction, TierList;
  }

  lemma {:induction false} ActionsDueCountsTiers(comps: Request, ls: Lists, k: nat, x: Xname)
    requires WellListed(comps, ls) && k <= TIERS
    ensures ActionsDue(ls, k, x) == TiersListing(ls, k, x)
    decreases TIERS - k
  {
    hide TypeOf, ListOf, TierList;
    if k < TIERS {
      ActionsDueStep(comps, ls, k, x);
      ActionsDueCountsTiers(comps, ls, k + 1, x);
    }
  }

  lemma EscalationAddsOne(ls: Lists, k: nat, x: Xname, y: Xname)
    requires k < TIERS && TierAction(k) == GracefulShutdown && ServedIn(k, x)
    requires x !in ListOf(ls, ForceOff, TypeOf(x))
    ensures ActionsDue(Append(ls, ForceOff, x), k + 1, y) == ActionsDue(ls, k + 1, y) + One(x == y)
  {
    hide TypeOf, ListOf, Append, TierAction;
    AppendLists(ls, x);
    ForceOffFollows(TypeOf(x));
    var l := ListOf(ls, ForceOff, TypeOf(x));
    assert y in l + [x] <==> y in l || y == x;
  }

  // ----- The balance ----------------------------------------------------------------

  function Owed(r: Run, x: Xname): nat {
    ActionsDue(r.lists, NextTier(r.phase), x) + One(Pending(r, x))
  }

  /** While a task is unfinished, or its component is being handled, the counter is
      the number of tiers it still has to go through, the current one included. */
  ghost predicate Balanced(r: Run, x: Xname)
    requires x in r.comps
  {
    var c := r.comps[x];
    && (Unfinished(c.status) || x in r.inflight || x in r.waiting ==> c.actionCount == Owed(r, x) >= 1)
    && (Owed(r, x) > 0 ==> c.status != TaskSucceeded && c.status != TaskUnsupported)
  }

  /** Every action the component is queued for has a tier in the table. */
  ghost predicate Served(ls: Lists, x: Xname) {
    forall a :: x in ListOf(ls, a, TypeOf(x)) ==> TierOf(a, TypeOf(x)) < TIERS
  }

  lemma UntouchedStaysBalanced(r: Run, r': Run, x: Xname)
    requires x in r.comps && x in r'.comps && Balanced(r, x)
    requires Owed(r', x) == Owed(r, x)
    requires r'.comps[x] == r.comps[x] || r'.comps[x] == r.comps[x].(status := TaskFailed)
    requires x in r'.inflight || x in r'.waiting ==> x in r.inflight || x in r.waiting
    ensures Balanced(r', x)
  {
    hide Owed;
  }

  lemma ScanKeepsBalance(r: Run, x: Xname)
    requires Shape(r) && r.phase.Scanning? && r.phase.todo != [] && r.phase.todo[0] in r.comps
    requires x in r.comps && Balanced(r, x)
    ensures x in ScanOne(r).comps && Balanced(ScanOne(r), x)
  {
    hide TypeOf, ListOf, TierOf, TierAction, FailWithDependents, TransitionPayload, ActionsDue;
    hide WellListed, EscalatedLate, PendingServed, NoDup;
    var y := r.phase.todo[0];
    NoDupTail(r.phase.todo);
    FailingOnlyFails(r.comps, TierAction(r.phase.k), y);
    if x != y {
      assert Pending(ScanOne(r), x) <==> Pending(r, x);
      UntouchedStaysBalanced(r, ScanOne(r), x);
    } else {
      ScannedStaysBalanced(r);
    }
  }

  lemma ScannedStaysBalanced(r: Run)
    requires Coherent(r) && r.phase.Scanning? && r.phase.k < TIERS && r.phase.todo != [] && r.phase.todo[0] in r.comps
    requires Balanced(r, r.phase.todo[0])
    ensures r.phase.todo[0] in ScanOne(r).comps && Balanced(ScanOne(r), r.phase.todo[0])
  {
    hide TypeOf, ListOf, TierOf, TierAction, FailWithDependents, TransitionPayload, ActionsDue, NoDup;
    var y := r.phase.todo[0];
    NoDupTail(r.phase.todo);
    assert y !in r.inflight && y !in r.waiting;
    hide Coherent;
    FailingOnlyFails(r.comps, TierAction(r.phase.k), y);
  }

  lemma AnswerKeepsBalance(cfg: Config, r: Run, y: Xname, ok: bool, x: Xname)
    requires Shape(r) && Enabled(cfg, r, Respond(y, ok)) && cfg.deadline != 0
    requires x in r.comps && Balanced(r, x)
    ensures Balanced(Answered(cfg, r, y, ok), x)
  {
    hide TypeOf, ListOf, TierOf, TierAction, FailWithDependents, ActionsDue, WellListed, EscalatedLate, PendingServed, NoDup;
    FailingOnlyFails(r.comps, TierAction(r.phase.k), y);
    if x != y {
      UntouchedStaysBalanced(r, Answered(cfg, r, y, ok), x);
    }
  }

  lemma PollKeepsBalance(cfg: Config, r: Run, y: Xname, answer: Answer, x: Xname)
    requires Shape(r) && Enabled(cfg, r, PollOne(y, answer))
    requires x in r.comps && Balanced(r, x)
    ensures Balanced(Polled(r, y, answer), x)
  {
    hide TypeOf, ListOf, TierOf, TierAction, FailWithDependents, ActionsDue, WellListed, EscalatedLate, PendingServed, NoDup;
    FailingOnlyFails(r.comps, TierAction(r.phase.k), y);
    if x != y {
      assert Pending(Polled(r, y, answer), x) <==> Pending(r, x);
      UntouchedStaysBalanced(r, Polled(r, y, answer), x);
    } else {
      PolledStaysBalanced(r, x, answer);
    }
  }

  lemma PolledStaysBalanced(r: Run, x: Xname, answer: Answer)
    requires Coherent(r) && r.phase.Polling? && r.phase.k < TIERS && x in r.phase.left && x in r.comps && Balanced(r, x)
    ensures x in Polled(r, x, answer).comps && Balanced(Polled(r, x, answer), x)
  {
    hide TypeOf, ListOf, TierOf, TierAction, FailWithDependents, ActionsDue, NoDup;
    FailingOnlyFails(r.comps, TierAction(r.phase.k), x);
  }

  lemma ExpiryKeepsBalance(cfg: Config, r: Run, y: Xname, x: Xname)
    requires Shape(r) && Enabled(cfg, r, ExpireOne(y))
    requires x in r.comps && Balanced(r, x)
    ensures Balanced(Expired(cfg, r, y), x)
  {
    hide TypeOf, ListOf, TierOf, TierAction, FailWithDependents, ActionsDue, WellListed, EscalatedLate, Append;
    FailingOnlyFails(r.comps, TierAction(r.phase.k), y);
    assert Pending(r, y);
    if Escalates(cfg, r.comps[y], TierAction(r.phase.k)) {
      EscalationKeepsShape(cfg, r, y);
      EscalationAddsOne(r.lists, r.phase.k, y, x);
    }
    if x != y {
      UntouchedStaysBalanced(r, Expired(cfg, r, y), x);
    }
  }

  lemma TierChangeKeepsBalance(cfg: Config, r: Run, e: Event, x: Xname)
    requires Shape(r) && Enabled(cfg, r, e) && x in r.comps && Balanced(r, x)
    requires e.SkipTier? || e.StartScan? || e.SeeAbort? || e.LoseReservation?
    ensures Balanced(Apply(cfg, r, e), x)
  {
    hide TypeOf, ListOf, TierOf, TierAction, TierList, FailWithDependents, ActionsDue, WellListed, EscalatedLate;
    if e.SkipTier? || e.StartScan? {
      ShapeParts(r);
      ActionsDueStep(r.comps, r.lists, r.phase.k, x);
    } else if e.LoseReservation? {
      FailingOnlyFails(r.comps, e.action, e.x);
      UntouchedStaysBalanced(r, Apply(cfg, r, e), x);
    } else {
      NothingDueAtTheEnd(r.lists, x);
    }
  }

  lemma NothingDueAtTheEnd(ls: Lists, x: Xname)
    ensures ActionsDue(ls, TIERS, x) == 0
  {
    hide TypeOf, ListOf;
  }

  /** Every event of a run with a non-zero deadline keeps every task balanced. */
  lemma StepKeepsBalance(cfg: Config, r: Run, e: Event, x: Xname)
    requires Shape(r) && Enabled(cfg, r, e) && cfg.deadline != 0
    requires x in r.comps && Balanced(r, x)
    ensures x in Apply(cfg, r, e).comps && Balanced(Apply(cfg, r, e), x)
  {
    hide TypeOf, ListOf, TierOf, TierAction, TierList, FailWithDependents, ScanOne, Answered, Polled, Expired;
    hide ActionsDue, WellListed, EscalatedLate, PendingServed;
    StepKeepsKeys(cfg, r, e);
    match e
    case SkipTier => TierChangeKeepsBalance(cfg, r, e, x);
    case StartScan => TierChangeKeepsBalance(cfg, r, e, x);
    case SeeAbort => TierChangeKeepsBalance(cfg, r, e, x);
    case LoseReservation(_, _) => TierChangeKeepsBalance(cfg, r, e, x);
    case ScanNext => ScanKeepsBalance(r, x);
    case Respond(y, ok) => AnswerKeepsBalance(cfg, r, y, ok, x);
    case PollOne(y, answer) => PollKeepsBalance(cfg, r, y, answer, x);
    case ExpireOne(y) => ExpiryKeepsBalance(cfg, r, y, x);
    case _ => UntouchedStaysBalanced(r, Apply(cfg, r, e), x);
  }

  lemma StepKeepsKeys(cfg: Config, r: Run, e: Event)
    requires Enabled(cfg, r, e)
    ensures Apply(cfg, r, e).comps.Keys == r.comps.Keys
  {
    hide TypeOf, ListOf, TierOf, TierAction, TierList, FailWithDependents, TransitionPayload, Append;
    match e
    case ScanNext => FailingOnlyFails(r.comps, TierAction(r.phase.k), r.phase.todo[0]);
    case LoseReservation(x, a) => FailingOnlyFails(r.comps, a, x);
    case Respond(x, _) => FailingOnlyFails(r.comps, TierAction(r.phase.k), x);
    case PollOne(x, _) => FailingOnlyFails(r.comps, TierAction(r.phase.k), x);
    case ExpireOne(x) => FailingOnlyFails(r.comps, TierAction(r.phase.k), x);
    case _ =>
  }

  // ----- Whole runs -----------------------------------------------------------------

  /** What sequencing leaves behind: nothing sent, and every listed component unfinished. */
  ghost predicate Sequenced(comps: Request, ls: Lists) {
    && WellListed(comps, ls)
    && (forall x :: !InBothOffLists(ls, x))
    && (forall a, t, x :: x in ListOf(ls, a, t) ==> Unfinished(comps[x].status))
  }

  function Listings(ls: Lists, x: Xname): nat {
    One(x in ListOf(ls, GracefulShutdown, TypeOf(x))) + One(x in ListOf(ls, ForceOff, TypeOf(x))) +
    One(x in ListOf(ls, GracefulRestart, TypeOf(x))) + One(x in ListOf(ls, PowerUp, TypeOf(x)))
  }

  /** The counter was set to the number of lists, and an unfinished task is on some list. */
  ghost predicate Counted(comps: Request, ls: Lists, x: Xname)
    requires x in comps
  {
    comps[x].actionCount == Listings(ls, x) && (Unfinished(comps[x].status) ==> Listings(ls, x) >= 1)
  }

  function Start(comps: Request, ls: Lists, signaledAt: Option<nat>): Run {
    Run(comps, ls, Boundary(0), {}, {}, signaledAt, [], [], {})
  }

  lemma StartHasShape(comps: Request, ls: Lists, sig: Option<nat>)
    requires Sequenced(comps, ls)
    ensures Shape(Start(comps, ls, sig))
  {
    hide TypeOf, ListOf;
  }

  lemma StartIsBalanced(comps: Request, ls: Lists, sig: Option<nat>, x: Xname)
    requires Sequenced(comps, ls) && x in comps && Counted(comps, ls, x) && Served(ls, x)
    ensures Balanced(Start(comps, ls, sig), x)
  {
    hide TypeOf, ListOf, TierOf;
    assert ActionsDue(ls, 0, x) == Listings(ls, x);
  }

  lemma {:induction false} RunStaysBalanced(cfg: Config, r: Run, log: seq<Event>, x: Xname)
    requires Shape(r) && x in r.comps && Balanced(r, x) && cfg.deadline != 0
    requires After(cfg, r, log).Some?
    ensures x in After(cfg, r, log).value.comps && Balanced(After(cfg, r, log).value, x)
  {
    hide Shape, Balanced, Apply, Enabled;
    if log != [] {
      var mid := log[..|log| - 1];
      RunStaysBalanced(cfg, r, mid, x);
      RunKeepsShape(cfg, r, mid);
      StepKeepsBalance(cfg, After(cfg, r, mid).value, log[|log| - 1], x);
    }
  }

  /** At every tier boundary of every run with a non-zero deadline, the counter of an
      unfinished task is the number of tiers still to run that list its component. */
  lemma CounterAtTierBoundary(cfg: Config, comps: Request, ls: Lists, sig: Option<nat>, log: seq<Event>, x: Xname)
    requires Sequenced(comps, ls) && x in comps && Counted(comps, ls, x) && Served(ls, x)
    requires cfg.deadline != 0 && After(cfg, Start(comps, ls, sig), log).Some?
    ensures var r := After(cfg, Start(comps, ls, sig), log).value;
            r.phase.Boundary? ==>
              x in r.comps &&
              (Unfinished(r.comps[x].status) ==> r.comps[x].actionCount == TiersListing(r.lists, r.phase.k, x) >= 1)
  {
    hide TypeOf, ListOf, TierOf, TierList, ActionsDue, Apply, Enabled;
    StartHasShape(comps, ls, sig);
    StartIsBalanced(comps, ls, sig, x);
    RunStaysBalanced(cfg, Start(comps, ls, sig), log, x);
    RunKeepsShape(cfg, Start(comps, ls, sig), log);
    var r := After(cfg, Start(comps, ls, sig), log).value;
    if r.phase.Boundary? {
      ActionsDueCountsTiers(r.comps, r.lists, r.phase.k, x);
      assert !Pending(r, x);
    }
  }

  /** A run with a non-zero deadline that reaches its end leaves no task unfinished
      whose component only needs actions that the power sequence serves. */
  lemma EveryServedTaskFinishes(cfg: Config, comps: Request, ls: Lists, sig: Option<nat>, log: seq<Event>, x: Xname)
    requires Sequenced(comps, ls) && x in comps && Counted(comps, ls, x) && Served(ls, x)
    requires cfg.deadline != 0 && After(cfg, Start(comps, ls, sig), log).Some?
    requires After(cfg, Start(comps, ls, sig), log).value.phase == Finished
    ensures var r := After(cfg, Start(comps, ls, sig), log).value;
            x in r.comps && !Unfinished(r.comps[x].status)
  {
    hide TypeOf, ListOf, TierOf, TierList, ActionsDue, Apply, Enabled;
    StartHasShape(comps, ls, sig);
    StartIsBalanced(comps, ls, sig, x);
    RunStaysBalanced(cfg, Start(comps, ls, sig), log, x);
    RunKeepsShape(cfg, Start(comps, ls, sig), log);
    NothingDueAtTheEnd(After(cfg, Start(comps, ls, sig), log).value.lists, x);
    assert !Pending(After(cfg, Start(comps, ls, sig), log).value, x);
  }

  // ----- Components without a tier -------------------------------------------------------

  /** No tier of the rest of the run handles the component. */
  predicate OutOfSequence(r: Run, x: Xname) {
    x in r.comps && ActionsDue(r.lists, NextTier(r.phase), x) == 0 && !Pending(r, x)
  }

  /** The component is neither taken into a tier nor changed, except possibly failed. */
  ghost predicate LeavesAlone(r: Run, r': Run, x: Xname) {
    && x in r.comps && x in r'.comps
    && (r'.comps[x] == r.comps[x] || r'.comps[x] == r.comps[x].(status := TaskFailed))
    && (Pending(r', x) ==> Pending(r, x))
    && NextTier(r'.phase) == NextTier(r.phase)
  }

  lemma ScanLeavesAlone(r: Run, x: Xname)
    requires r.phase.Scanning? && r.phase.k < TIERS && r.phase.todo != [] && r.phase.todo[0] in r.comps && NoDup(r.phase.todo)
    requires x in r.comps && !Pending(r, x)
    ensures LeavesAlone(r, ScanOne(r), x)
  {
    hide TierAction, FailWithDependents, TransitionPayload, NoDup;
    NoDupTail(r.phase.todo);
    FailingOnlyFails(r.comps, TierAction(r.phase.k), r.phase.todo[0]);
  }

  lemma AnswerLeavesAlone(cfg: Config, r: Run, y: Xname, ok: bool, x: Xname)
    requires Enabled(cfg, r, Respond(y, ok)) && x in r.comps && !Pending(r, x)
    ensures LeavesAlone(r, Answered(cfg, r, y, ok), x)
  {
    hide TierAction, FailWithDependents, TierList;
    FailingOnlyFails(r.comps, TierAction(r.phase.k), y);
  }

  lemma PollLeavesAlone(cfg: Config, r: Run, y: Xname, answer: Answer, x: Xname)
    requires Coherent(r) && Enabled(cfg, r, PollOne(y, answer)) && x in r.comps && !Pending(r, x)
    ensures LeavesAlone(r, Polled(r, y, answer), x)
  {
    hide TierAction, FailWithDependents, TierList, NoDup;
    FailingOnlyFails(r.comps, TierAction(r.phase.k), y);
  }

  lemma ExpiryLeavesAlone(cfg: Config, r: Run, y: Xname, x: Xname)
    requires Enabled(cfg, r, ExpireOne(y)) && x in r.comps && !Pending(r, x)
    ensures LeavesAlone(r, Expired(cfg, r, y), x)
  {
    hide TierAction, FailWithDependents, TierList, Append;
    FailingOnlyFails(r.comps, TierAction(r.phase.k), y);
  }

  lemma StepKeepsOutOfSequence(cfg: Config, r: Run, e: Event, x: Xname)
    requires Shape(r) && Enabled(cfg, r, e) && OutOfSequence(r, x)
    ensures OutOfSequence(Apply(cfg, r, e), x)
    ensures var c, c' := r.comps[x], Apply(cfg, r, e).comps[x];
            c' == c || c' == c.(status := TaskFailed)
  {
    hide TierAction, TierList, FailWithDependents, ActionsDue, ScanOne, Answered, Polled, Expired;
    hide Shape, NoDup, WellListed;
    ShapeParts(r);
    match e
    case SkipTier => ActionsDueStep(r.comps, r.lists, r.phase.k, x);
    case StartScan => ActionsDueStep(r.comps, r.lists, r.phase.k, x);
    case SeeAbort => NothingDueAtTheEnd(r.lists, x);
    case LoseReservation(y, a) => FailingOnlyFails(r.comps, a, y);
    case ScanNext =>
      ScanLeavesAlone(r, x);
      ListsUnchanged(cfg, r, e);
    case Respond(y, ok) =>
      AnswerLeavesAlone(cfg, r, y, ok, x);
      ListsUnchanged(cfg, r, e);
    case PollOne(y, answer) =>
      PollLeavesAlone(cfg, r, y, answer, x);
      ListsUnchanged(cfg, r, e);
    case ExpireOne(y) =>
      ExpiryLeavesAlone(cfg, r, y, x);
      ExpiryKeepsDue(cfg, r, y, x);
    case _ =>
  }

  lemma ListsUnchanged(cfg: Config, r: Run, e: Event)
    requires Enabled(cfg, r, e) && !e.ExpireOne?
    ensures Apply(cfg, r, e).lists == r.lists
  {
    hide TierAction, TierList, FailWithDependents, TransitionPayload, AbortTasks;
  }

  lemma ExpiryKeepsDue(cfg: Config, r: Run, y: Xname, x: Xname)
    requires Shape(r) && Enabled(cfg, r, ExpireOne(y)) && OutOfSequence(r, x)
    ensures ActionsDue(Expired(cfg, r, y).lists, r.phase.k + 1, x) == ActionsDue(r.lists, r.phase.k + 1, x)
  {
    hide TypeOf, ListOf, TierOf, TierAction, FailWithDependents, ActionsDue, WellListed, EscalatedLate, Append;
    assert Pending(r, y);
    if Escalates(cfg, r.comps[y], TierAction(r.phase.k)) {
      EscalationKeepsShape(cfg, r, y);
      EscalationAddsOne(r.lists, r.phase.k, y, x);
    }
  }

  /** A component queued only for actions the power sequence has no tier for keeps its
      task as it is through the whole run, unless something else fails it: when the
      transition completes, the task is still unfinished or failed, never succeeded. */
  lemma {:induction false} UnservedTaskIsLeftAlone(cfg: Config, comps: Request, ls: Lists, sig: Option<nat>, log: seq<Event>, x: Xname)
    requires Sequenced(comps, ls) && x in comps && TiersListing(ls, 0, x) == 0
    requires After(cfg, Start(comps, ls, sig), log).Some?
    ensures var r := After(cfg, Start(comps, ls, sig), log).value;
            OutOfSequence(r, x) && (r.comps[x] == comps[x] || r.comps[x] == comps[x].(status := TaskFailed))
  {
    hide TypeOf, ListOf, TierList, ActionsDue, Apply, Enabled, Shape;
    var r0 := Start(comps, ls, sig);
    StartHasShape(comps, ls, sig);
    if log == [] {
      ActionsDueCountsTiers(comps, ls, 0, x);
    } else {
      var mid := log[..|log| - 1];
      UnservedTaskIsLeftAlone(cfg, comps, ls, sig, mid, x);
      RunKeepsShape(cfg, r0, mid);
      StepKeepsOutOfSequence(cfg, After(cfg, r0, mid).value, log[|log| - 1], x);
    }
  }
}
