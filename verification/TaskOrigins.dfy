/** What the tasks that a runner finds can look like: new, or left behind by an earlier
    runner of the same transition that was stopped at any moment. */
module TaskOrigins {
  import opened Xnames
  import opened TransitionModel
  import opened Sequencing
  import opened TierRunner
  import opened TierShape
  import opened TierCounts
  import opened Outcomes

  /** Every queued action is one that the operation issues. */
  ghost predicate ListsIssued(op: Operation, ls: Lists) {
    forall a, t, x :: x in ListOf(ls, a, t) ==> Issues(op, a)
  }

  /** Every task can be resumed, and those under way were commanded. */
  ghost predicate AllResumable(op: Operation, r: Run) {
    && (forall x :: x in r.comps ==> Resumable(op, r.comps[x]))
    && (forall x :: x in r.comps && (x in r.inflight || x in r.waiting) ==> r.comps[x].state != GatherData)
  }

  lemma ScanKeepsResumable(op: Operation, r: Run)
    requires Shape(r) && r.phase.Scanning? && r.phase.todo != [] && r.phase.todo[0] in r.comps
    requires AllResumable(op, r) && ListsIssued(op, r.lists)
    ensures AllResumable(op, ScanOne(r))
  {
    ShapeParts(r);
    assert Pending(r, r.phase.todo[0]);
    assert Issues(op, TierAction(r.phase.k)) by {
      hide TypeOf, ListOf, TierOf, TierAction, WellListed, EscalatedLate, Shape, Coherent, Issues, AllResumable;
    }
    hide *;
    ScanOfIssued(op, r);
  }

  /** A scanned component is passed over, waited for or sent a command. */
  lemma ScanCases(r: Run)
    requires r.phase.Scanning? && r.phase.k < TIERS && r.phase.todo != [] && r.phase.todo[0] in r.comps
    ensures var x, c, r' := r.phase.todo[0], r.comps[r.phase.todo[0]], ScanOne(r);
            || (OnlyFails(r.comps, r'.comps) && r'.inflight == r.inflight && r'.waiting == r.waiting)
            || (r'.comps == r.comps && r'.inflight == r.inflight && r'.waiting == r.waiting + {x} && c.state == Waiting)
            || (&& r'.comps == r.comps[x := c.(state := Sending, operation := OpForAction(TierAction(r.phase.k)))]
                && r'.inflight == r.inflight + {x} && r'.waiting == r.waiting)
  {
    FailingOnlyFails(r.comps, TierAction(r.phase.k), r.phase.todo[0]);
    hide TierAction, FailWithDependents, TransitionPayload;
  }

  lemma ScanOfIssued(op: Operation, r: Run)
    requires r.phase.Scanning? && r.phase.k < TIERS && r.phase.todo != [] && r.phase.todo[0] in r.comps
    requires AllResumable(op, r) && Issues(op, TierAction(r.phase.k))
    ensures AllResumable(op, ScanOne(r))
  {
    var x, a := r.phase.todo[0], TierAction(r.phase.k);
    SentIsResumable(op, r.comps[x], a);
    ScanCases(r);
    hide TierAction, FailWithDependents, TransitionPayload, Issues, Resumable, ScanOne, AllResumable, OnlyFails;
    var r' := ScanOne(r);
    if r'.inflight == r.inflight && r'.waiting == r.waiting && OnlyFails(r.comps, r'.comps) {
      FailuresKeepResumable(op, r, r');
    } else if r'.comps == r.comps {
      UnderWayKeepsResumable(op, r, r', x, r.comps[x]);
    } else {
      UnderWayKeepsResumable(op, r, r', x, r.comps[x].(state := Sending, operation := OpForAction(a)));
    }
  }

  lemma UnderWayKeepsResumable(op: Operation, r: Run, r': Run, x: Xname, d: Component)
    requires AllResumable(op, r) && x in r.comps && (r.comps[x] == d || Resumable(op, d)) && d.state != GatherData
    requires r'.comps == r.comps[x := d]
    requires forall y :: y in r'.inflight || y in r'.waiting ==> y in r.inflight || y in r.waiting || y == x
    ensures AllResumable(op, r')
  {
    hide Issues, Resumable;
  }

  lemma SentIsResumable(op: Operation, c: Component, a: PowerAction)
    requires Issues(op, a)
    ensures Resumable(op, c.(state := Sending, operation := OpForAction(a)))
  {
  }

  /** Only statuses were changed. */
  lemma FailuresKeepResumable(op: Operation, r: Run, r': Run)
    requires AllResumable(op, r) && OnlyFails(r.comps, r'.comps)
    requires forall x :: x in r'.inflight || x in r'.waiting ==> x in r.inflight || x in r.waiting
    ensures AllResumable(op, r')
  {
    hide Issues;
  }

  lemma AnswerKeepsResumable(op: Operation, cfg: Config, r: Run, x: Xname, ok: bool)
    requires Enabled(cfg, r, Respond(x, ok)) && AllResumable(op, r)
    ensures AllResumable(op, Answered(cfg, r, x, ok))
  {
    hide TierAction, FailWithDependents, Issues, TierList;
    if ok {
      assert Resumable(op, r.comps[x]) && r.comps[x].state != GatherData;
    } else {
      FailingOnlyFails(r.comps, TierAction(r.phase.k), x);
      FailuresKeepResumable(op, r, Answered(cfg, r, x, ok));
    }
  }

  lemma PollKeepsResumable(op: Operation, cfg: Config, r: Run, x: Xname, answer: Answer)
    requires Coherent(r) && Enabled(cfg, r, PollOne(x, answer)) && AllResumable(op, r)
    ensures AllResumable(op, Polled(r, x, answer))
  {
    hide TierAction, FailWithDependents, Issues, TierList, NoDup;
    if answer.PollError? {
      FailingOnlyFails(r.comps, TierAction(r.phase.k), x);
      FailuresKeepResumable(op, r, Polled(r, x, answer));
    } else {
      assert Resumable(op, r.comps[x]) && r.comps[x].state != GatherData;
    }
  }

  lemma ExpiryKeepsResumable(op: Operation, cfg: Config, r: Run, x: Xname)
    requires Enabled(cfg, r, ExpireOne(x)) && AllResumable(op, r)
    ensures AllResumable(op, Expired(cfg, r, x))
  {
    hide TierAction, FailWithDependents, Issues, TierList, Append, Escalates;
    if !Escalates(cfg, r.comps[x], TierAction(r.phase.k)) {
      FailingOnlyFails(r.comps, TierAction(r.phase.k), x);
      FailuresKeepResumable(op, r, Expired(cfg, r, x));
    }
  }

  lemma StepKeepsResumable(op: Operation, cfg: Config, r: Run, e: Event)
    requires Shape(r) && Enabled(cfg, r, e) && AllResumable(op, r) && ListsIssued(op, r.lists)
    ensures AllResumable(op, Apply(cfg, r, e))
  {
    ShapeParts(r);
    hide TierAction, FailWithDependents, TierList, ScanOne, Answered, Polled, Expired, Shape, WellListed, EscalatedLate,
         PendingServed, Coherent, Issues, ListsIssued;
    match e
    case ScanNext => ScanKeepsResumable(op, r);
    case Respond(x, ok) => AnswerKeepsResumable(op, cfg, r, x, ok);
    case PollOne(x, answer) => PollKeepsResumable(op, cfg, r, x, answer);
    case ExpireOne(x) => ExpiryKeepsResumable(op, cfg, r, x);
    case LoseReservation(x, a) =>
      FailingOnlyFails(r.comps, a, x);
      FailuresKeepResumable(op, r, Apply(cfg, r, e));
    case _ =>
  }

  lemma GrownIsIssued(op: Operation, ls: Lists, ls': Lists)
    requires Grown(ls, ls') && ListsIssued(op, ls)
    ensures ListsIssued(op, ls')
  {
    hide ListOf;
    forall a, t, x | x in ListOf(ls', a, t) ensures Issues(op, a) {
      if a == ForceOff && x !in ListOf(ls, ForceOff, t) {
        assert Issues(op, GracefulShutdown);
      }
    }
  }

  /** Whatever a run does, and wherever it is stopped, its tasks can be resumed. */
  lemma {:induction false} RunKeepsResumable(op: Operation, cfg: Config, r: Run, log: seq<Event>)
    requires Shape(r) && AllResumable(op, r) && ListsIssued(op, r.lists) && After(cfg, r, log).Some?
    ensures AllResumable(op, After(cfg, r, log).value)
  {
    hide Shape, AllResumable, ListsIssued, Apply, Enabled, Grown;
    if log != [] {
      var mid := log[..|log| - 1];
      RunKeepsResumable(op, cfg, r, mid);
      RunKeepsShape(cfg, r, mid);
      RunGrows(cfg, r, mid);
      var m := After(cfg, r, mid).value;
      GrownIsIssued(op, r.lists, m.lists);
      StepKeepsResumable(op, cfg, m, log[|log| - 1]);
    }
  }
}
