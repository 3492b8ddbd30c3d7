/** Properties of the command trace of a run: order of the commands, containment of
    an abort, escalation, and protection of the power of a failed node. */
module TierTraces {
  import opened Xnames
  import opened TransitionModel
  import opened Sequencing
  import opened TierRunner
  import opened TierShape
  import opened TierCounts

  // ----- Order of the commands -----------------------------------------------------------

  /** Commands come tier by tier, each from the tier that serves it. */
  ghost predicate Ordered(r: Run) {
    && (forall i :: 0 <= i < |r.trace| ==>
          && ServedIn(r.trace[i].tier, r.trace[i].x)
          && r.trace[i].action == TierAction(r.trace[i].tier)
          && r.trace[i].tier < NextTier(r.phase))
    && (forall i, j :: 0 <= i <= j < |r.trace| ==> r.trace[i].tier <= r.trace[j].tier)
  }

  lemma StepKeepsOrder(cfg: Config, r: Run, e: Event)
    requires Shape(r) && Enabled(cfg, r, e) && Ordered(r)
    ensures Ordered(Apply(cfg, r, e))
  {
    hide TypeOf, ListOf, TierOf, TierAction, TierList, FailWithDependents, Answered, Polled, Expired, TransitionPayload;
    hide WellListed, EscalatedLate, ServedIn, NoDup, AbortTasks;
    match e
    case ScanNext =>
      assert Pending(r, r.phase.todo[0]);
    case Respond(x, ok) => AnswerKeepsTrace(cfg, r, x, ok);
    case PollOne(x, answer) => PollKeepsTrace(r, x, answer);
    case ExpireOne(x) => ExpiryKeepsTrace(cfg, r, x);
    case _ =>
  }

  lemma AnswerKeepsTrace(cfg: Config, r: Run, x: Xname, ok: bool)
    requires r.phase.Responding? && r.phase.k < TIERS && x in r.comps
    ensures var r' := Answered(cfg, r, x, ok);
            r'.trace == r.trace && r'.phase == r.phase && r'.signaledAt == r.signaledAt && r'.visits == r.visits &&
            r'.lists == r.lists && r'.escalated == r.escalated
  {
    hide FailWithDependents, TierAction;
  }

  lemma PollKeepsTrace(r: Run, x: Xname, answer: Answer)
    requires r.phase.Polling? && r.phase.k < TIERS && x in r.comps
    ensures var r' := Polled(r, x, answer);
            r'.trace == r.trace && r'.phase.Polling? && r'.phase.k == r.phase.k && r'.signaledAt == r.signaledAt &&
            r'.visits == r.visits && r'.lists == r.lists && r'.escalated == r.escalated
  {
    hide FailWithDependents, TierAction;
  }

  lemma ExpiryKeepsTrace(cfg: Config, r: Run, x: Xname)
    requires r.phase.Expiring? && r.phase.k < TIERS && x in r.comps
    ensures var r' := Expired(cfg, r, x);
            r'.trace == r.trace && r'.phase == r.phase && r'.signaledAt == r.signaledAt && r'.visits == r.visits
  {
    hide FailWithDependents, TierAction, Append;
  }

  lemma {:induction false} RunKeepsOrder(cfg: Config, r: Run, log: seq<Event>)
    requires Shape(r) && Ordered(r) && After(cfg, r, log).Some?
    ensures Ordered(After(cfg, r, log).value)
  {
    hide Shape, Ordered, Apply, Enabled;
    if log != [] {
      var mid := log[..|log| - 1];
      RunKeepsOrder(cfg, r, mid);
      RunKeepsShape(cfg, r, mid);
      StepKeepsOrder(cfg, After(cfg, r, mid).value, log[|log| - 1]);
    }
  }

  /** The tiers of two off commands, and of two on commands, follow the power levels. */
  lemma TiersFollowLevels(a: PowerAction, t: HMSType, b: PowerAction, u: HMSType)
    requires OnOffType(t) && OnOffType(u) && PowerLevel(t) < PowerLevel(u)
    ensures IsOffAction(a) && IsOffAction(b) ==> TierOf(a, t) < TierOf(b, u)
    ensures a == PowerUp && b == PowerUp ==> TierOf(b, u) < TierOf(a, t)
  {
  }

  lemma OffBeforeOn(a: PowerAction, t: HMSType, b: PowerAction, u: HMSType)
    requires IsOffAction(a) && b == PowerUp && TierOf(a, t) < TIERS && TierOf(b, u) < TIERS
    ensures TierOf(a, t) < TierOf(b, u) && OnOffType(t) && OnOffType(u)
  {
  }

  lemma OnOffTiers(a: PowerAction, t: HMSType)
    requires TierOf(a, t) < TIERS && a != GracefulRestart
    ensures OnOffType(t)
  {
  }

  ghost predicate PowerOrder(c: Command, d: Command) {
    || (IsOffAction(c.action) && IsOffAction(d.action) && Ancestor(d.x, c.x))
    || (c.action == PowerUp && d.action == PowerUp && Ancestor(c.x, d.x))
    || (IsOffAction(c.action) && d.action == PowerUp)
    || (IsOffAction(c.action) && d.action == GracefulRestart)
    || (c.action == GracefulRestart && d.action == PowerUp)
    || (c.action == GracefulRestart && d.action == GracefulRestart && !IsController(TypeOf(c.x)) && IsController(TypeOf(d.x)))
  }

  lemma RestartTiers(a: PowerAction, t: HMSType, b: PowerAction, u: HMSType)
    requires TierOf(a, t) < TIERS && TierOf(b, u) < TIERS
    requires || (IsOffAction(a) && b == GracefulRestart) || (a == GracefulRestart && b == PowerUp)
             || (a == GracefulRestart && b == GracefulRestart && !IsController(t) && IsController(u))
    ensures TierOf(a, t) < TierOf(b, u)
  {
  }

  /** In the trace of every run, whatever the lists hold and whatever is escalated:
      a descendant's off commands precede its ancestor's, an ancestor's on command
      precedes its descendants'; every off command precedes every restart, and these every
      on command; and controllers are restarted after everything else. */
  lemma CommandsFollowPowerOrder(cfg: Config, comps: Request, ls: Lists, sig: Option<nat>, log: seq<Event>)
    requires Sequenced(comps, ls) && After(cfg, Start(comps, ls, sig), log).Some?
    ensures var t := After(cfg, Start(comps, ls, sig), log).value.trace;
            forall i, j :: 0 <= i < |t| && 0 <= j < |t| && PowerOrder(t[i], t[j]) ==> i < j
  {
    hide TypeOf, TierOf, TierAction, Ancestor, Sequenced, Apply, Enabled;
    StartHasShape(comps, ls, sig);
    RunKeepsOrder(cfg, Start(comps, ls, sig), log);
    var r := After(cfg, Start(comps, ls, sig), log).value;
    forall i, j | 0 <= i < |r.trace| && 0 <= j < |r.trace| && PowerOrder(r.trace[i], r.trace[j]) ensures i < j {
      var c, d := r.trace[i], r.trace[j];
      var t, u := TypeOf(c.x), TypeOf(d.x);
      assert ServedIn(c.tier, c.x) && ServedIn(d.tier, d.x);
      if c.action != GracefulRestart {
        OnOffTiers(c.action, t);
      }
      if d.action != GracefulRestart {
        OnOffTiers(d.action, u);
      }
      if c.action == GracefulRestart || d.action == GracefulRestart {
        RestartTiers(c.action, t, d.action, u);
      } else if IsOffAction(c.action) && d.action == PowerUp {
        OffBeforeOn(c.action, t, d.action, u);
      } else if IsOffAction(c.action) {
        AncestorIsHigher(d.x, c.x);
        TiersFollowLevels(c.action, t, d.action, u);
      } else {
        AncestorIsHigher(c.x, d.x);
        TiersFollowLevels(d.action, u, c.action, t);
      }
      assert c.tier < d.tier;
    }
  }

  // ----- Escalation ------------------------------------------------------------------------

  function Visits(r: Run, k: nat, x: Xname): nat {
    multiset(r.visits)[Visit(k, x)]
  }

  /** The visit of `x` in tier `k` is over, or will not take place. */
  predicate PassedIn(r: Run, k: nat, x: Xname) {
    k < NextTier(r.phase) && !(r.phase.Scanning? && r.phase.k == k && x in r.phase.todo)
  }

  ghost predicate VisitedOnce(r: Run) {
    && (forall k: nat, x :: Visits(r, k, x) <= 1)
    && (forall k: nat, x :: Visits(r, k, x) > 0 ==> PassedIn(r, k, x) && ServedIn(k, x))
    && (forall x :: x in r.escalated ==>
          && TierOf(GracefulShutdown, TypeOf(x)) < TIERS
          && x in ListOf(r.lists, ForceOff, TypeOf(x))
          && TierOf(GracefulShutdown, TypeOf(x)) < NextTier(r.phase)
          && (PassedIn(r, TierOf(ForceOff, TypeOf(x)), x) ==> Visits(r, TierOf(ForceOff, TypeOf(x)), x) == 1))
  }

  lemma ScanKeepsVisits(r: Run)
    requires Shape(r) && r.phase.Scanning? && r.phase.todo != [] && r.phase.todo[0] in r.comps && VisitedOnce(r)
    ensures VisitedOnce(ScanOne(r))
  {
    hide TypeOf, ListOf, TierOf, TierAction, FailWithDependents, TransitionPayload, WellListed, EscalatedLate, NoDup, ServedIn;
    var y, k := r.phase.todo[0], r.phase.k;
    var r' := ScanOne(r);
    NoDupTail(r.phase.todo);
    assert Pending(r, y);
    assert r'.visits == r.visits + [Visit(k, y)];
    assert forall j: nat, x :: Visits(r', j, x) == Visits(r, j, x) + One(j == k && x == y);
    assert forall j: nat, x :: PassedIn(r', j, x) <==> PassedIn(r, j, x) || (j == k && x == y);
  }

  lemma StartKeepsVisits(cfg: Config, r: Run, e: Event)
    requires Shape(r) && Enabled(cfg, r, e) && (e.StartScan? || e.SkipTier?) && VisitedOnce(r)
    ensures VisitedOnce(Apply(cfg, r, e))
  {
    hide TypeOf, ListOf, TierOf, TierAction, TierList, WellListed, NoDup;
    var r' := Apply(cfg, r, e);
    var k := r.phase.k;
    ShapeParts(r);
    TierListHas(r.comps, r.lists, k);
    assert forall j: nat, x :: Visits(r', j, x) == Visits(r, j, x);
    assert forall j: nat, x :: PassedIn(r', j, x) <==> PassedIn(r, j, x) || (j == k && x !in TierList(r.lists, k));
    forall x | x in r.escalated && TierOf(ForceOff, TypeOf(x)) == k ensures x in TierList(r.lists, k) {
      TierOfForceOff(TypeOf(x));
    }
  }

  lemma TierOfForceOff(t: HMSType)
    requires TierOf(ForceOff, t) < TIERS
    ensures TierAction(TierOf(ForceOff, t)) == ForceOff
  {
    TierOfAction(ForceOff, t);
  }

  lemma EscalationKeepsVisits(cfg: Config, r: Run, y: Xname)
    requires Shape(r) && Enabled(cfg, r, ExpireOne(y)) && VisitedOnce(r)
    ensures VisitedOnce(Expired(cfg, r, y))
  {
    hide TypeOf, ListOf, TierOf, TierAction, FailWithDependents, WellListed, EscalatedLate, NoDup, Append;
    var r' := Expired(cfg, r, y);
    assert Pending(r, y);
    AppendLists(r.lists, y);
    assert forall j: nat, x :: Visits(r', j, x) == Visits(r, j, x) && (PassedIn(r', j, x) <==> PassedIn(r, j, x));
    if Escalates(cfg, r.comps[y], TierAction(r.phase.k)) {
      ForceOffFollows(TypeOf(y));
    }
  }

  /** Every event, an abort excepted, keeps the visits in order. */
  lemma StepKeepsVisits(cfg: Config, r: Run, e: Event)
    requires Shape(r) && Enabled(cfg, r, e) && e != SeeAbort && VisitedOnce(r)
    ensures VisitedOnce(Apply(cfg, r, e))
  {
    hide TypeOf, ListOf, TierOf, TierAction, TierList, FailWithDependents, ScanOne, Answered, Polled, Expired;
    hide WellListed, EscalatedLate, PendingServed, NoDup, Shape;
    match e
    case ScanNext => ScanKeepsVisits(r);
    case StartScan => StartKeepsVisits(cfg, r, e);
    case SkipTier => StartKeepsVisits(cfg, r, e);
    case ExpireOne(x) => EscalationKeepsVisits(cfg, r, x);
    case Respond(x, ok) =>
      AnswerKeepsTrace(cfg, r, x, ok);
      SameVisits(r, Apply(cfg, r, e));
    case PollOne(x, answer) =>
      PollKeepsTrace(r, x, answer);
      SameVisits(r, Apply(cfg, r, e));
    case SeeAbort =>
    case _ => SameVisits(r, Apply(cfg, r, e));
  }

  lemma SameVisits(r: Run, r': Run)
    requires VisitedOnce(r) && r'.visits == r.visits && r'.lists == r.lists && r'.escalated == r.escalated
    requires NextTier(r'.phase) == NextTier(r.phase)
    requires r.phase.Scanning? ==> r'.phase == r.phase || r.phase.todo == []
    requires r'.phase.Scanning? ==> r'.phase == r.phase
    ensures VisitedOnce(r')
  {
    hide TypeOf, ListOf, TierOf, TierAction;
    assert forall k: nat, x :: Visits(r', k, x) == Visits(r, k, x) && (PassedIn(r', k, x) <==> PassedIn(r, k, x));
  }

  lemma {:induction false} RunKeepsVisits(cfg: Config, r: Run, log: seq<Event>)
    requires Shape(r) && VisitedOnce(r) && After(cfg, r, log).Some? && SeeAbort !in log
    ensures VisitedOnce(After(cfg, r, log).value)
  {
    hide Shape, VisitedOnce, Apply, Enabled;
    if log != [] {
      var mid := log[..|log| - 1];
      RunKeepsVisits(cfg, r, mid);
      RunKeepsShape(cfg, r, mid);
      StepKeepsVisits(cfg, After(cfg, r, mid).value, log[|log| - 1]);
    }
  }

  /** Event `i` of a run leads from the state before it to the state after it. */
  lemma EventAt(cfg: Config, r: Run, log: seq<Event>, i: nat)
    requires i < |log| && After(cfg, r, log[..i + 1]).Some?
    ensures After(cfg, r, log[..i]).Some? && Enabled(cfg, After(cfg, r, log[..i]).value, log[i])
    ensures After(cfg, r, log[..i + 1]) == Some(Apply(cfg, After(cfg, r, log[..i]).value, log[i]))
  {
    hide Apply, Enabled;
    assert log[..i + 1][..i] == log[..i];
  }

  lemma SeenAbortEnds(cfg: Config, r: Run)
    requires Enabled(cfg, r, SeeAbort)
    ensures Apply(cfg, r, SeeAbort).phase == Aborted
  {
    hide TierList;
  }

  lemma SignalOnly(cfg: Config, r: Run)
    requires Enabled(cfg, r, SignalAbort)
    ensures Apply(cfg, r, SignalAbort) == r.(signaledAt := Some(|r.trace|))
  {
  }

  /** An abort ends a run for good, so a completed run has none. */
  lemma CompletedWithoutAbort(cfg: Config, r: Run, log: seq<Event>)
    requires After(cfg, r, log).Some? && After(cfg, r, log).value.phase == Finished
    ensures SeeAbort !in log
  {
    hide Apply, Enabled;
    if SeeAbort in log {
      var i :| 0 <= i < |log| && log[i] == SeeAbort;
      AfterPrefix(cfg, r, log, i + 1);
      EventAt(cfg, r, log, i);
      SeenAbortEnds(cfg, After(cfg, r, log[..i]).value);
      hide After;
      AbortedIsFinal(cfg, After(cfg, r, log[..i + 1]).value, log[i + 1..]);
    }
  }

  /** In a completed run every escalated component was visited in exactly one
      force-off tier, once, and that tier is the one after its shutdown tier. */
  lemma EscalatedIsForcedOnce(cfg: Config, comps: Request, ls: Lists, sig: Option<nat>, log: seq<Event>, x: Xname)
    requires Sequenced(comps, ls) && After(cfg, Start(comps, ls, sig), log).Some?
    requires After(cfg, Start(comps, ls, sig), log).value.phase == Finished
    requires x in After(cfg, Start(comps, ls, sig), log).value.escalated
    ensures var r := After(cfg, Start(comps, ls, sig), log).value;
            var shutdown := TierOf(GracefulShutdown, TypeOf(x));
            && shutdown + 1 < TIERS && TierAction(shutdown + 1) == ForceOff
            && Visits(r, shutdown + 1, x) == 1
            && forall k: nat :: k < TIERS && TierAction(k) == ForceOff && k != shutdown + 1 ==> Visits(r, k, x) == 0
  {
    hide TypeOf, ListOf, Apply, Enabled, Sequenced, Shape;
    var r0 := Start(comps, ls, sig);
    StartHasShape(comps, ls, sig);
    assert VisitedOnce(r0);
    CompletedWithoutAbort(cfg, r0, log);
    RunKeepsVisits(cfg, r0, log);
    ForceOffFollows(TypeOf(x));
    TierOfForceOff(TypeOf(x));
  }

  /** What a time-out does: a shutdown that may be forced is queued for the next tier and its
      task is left alone, with the component no longer waited for; any other task fails. */
  lemma TimeoutIsForcedIff(cfg: Config, r: Run, x: Xname)
    requires r.phase.Expiring? && r.phase.k < TIERS && x in r.comps
    ensures var r' := Expired(cfg, r, x);
            && x in r'.comps && r'.waiting == r.waiting - {x} && r'.trace == r.trace
            && (if TierAction(r.phase.k) == GracefulShutdown && !cfg.softOff && "forceoff" in r.comps[x].actions then
                  && r'.comps == r.comps && r'.escalated == r.escalated + {x}
                  && ListOf(r'.lists, ForceOff, TypeOf(x)) == ListOf(r.lists, ForceOff, TypeOf(x)) + [x]
                else
                  && r'.comps[x].status == TaskFailed && r'.escalated == r.escalated && r'.lists == r.lists)
  {
    AppendLists(r.lists, x);
    FailingOnlyFails(r.comps, TierAction(r.phase.k), x);
    hide TypeOf, ListOf, TierAction, FailWithDependents, Append;
  }

  /** Nothing is queued for force-off, nothing was escalated, and nothing was forced off. */
  ghost predicate Unforced(r: Run) {
    && r.escalated == {} && (forall t :: ListOf(r.lists, ForceOff, t) == [])
    && forall i :: 0 <= i < |r.trace| ==> r.trace[i].action != ForceOff
  }

  lemma SoftStepIsUnforced(cfg: Config, r: Run, e: Event)
    requires cfg.softOff && Shape(r) && Enabled(cfg, r, e) && Unforced(r)
    ensures Unforced(Apply(cfg, r, e))
  {
    ShapeParts(r);
    hide TypeOf, ListOf, TierOf, TierAction, TierList, FailWithDependents, TransitionPayload, WellListed, EscalatedLate, Shape,
         Coherent, Append, AbortTasks;
    match e
    case ScanNext => assert Pending(r, r.phase.todo[0]);
    case Respond(x, ok) => AnswerKeepsTrace(cfg, r, x, ok);
    case PollOne(x, answer) => PollKeepsTrace(r, x, answer);
    case ExpireOne(x) =>
      ExpiryKeepsTrace(cfg, r, x);
      TimeoutIsForcedIff(cfg, r, x);
    case _ =>
  }

  /** A run that must not force anything off, and has nothing queued for it, never does. */
  lemma {:induction false} SoftRunIsUnforced(cfg: Config, r: Run, log: seq<Event>)
    requires cfg.softOff && Shape(r) && Unforced(r) && After(cfg, r, log).Some?
    ensures Unforced(After(cfg, r, log).value)
  {
    hide Shape, Unforced, Apply, Enabled;
    if log != [] {
      var mid := log[..|log| - 1];
      SoftRunIsUnforced(cfg, r, mid);
      RunKeepsShape(cfg, r, mid);
      SoftStepIsUnforced(cfg, After(cfg, r, mid).value, log[|log| - 1]);
    }
  }

  // ----- Abort ---------------------------------------------------------------------------------

  /** The abort check of the current tier has passed, and commands are still to be sent. */
  predicate Cleared(p: Phase) {
    p.Reserving? || p.Scanning?
  }

  /** `r'` adds commands to the trace of `r` only in the tier that `r` was cleared for. */
  ghost predicate AddsOnlyCleared(r: Run, r': Run) {
    && |r.trace| <= |r'.trace| && r'.trace[..|r.trace|] == r.trace
    && (|r.trace| < |r'.trace| ==>
          Cleared(r.phase) && forall i :: |r.trace| <= i < |r'.trace| ==> r'.trace[i].tier == r.phase.k)
  }

  ghost predicate Confined(r: Run, r': Run) {
    && r'.signaledAt == r.signaledAt && AddsOnlyCleared(r, r')
    && (Cleared(r'.phase) ==> Cleared(r.phase) && r'.phase.k == r.phase.k)
  }

  lemma StepKeepsConfined(cfg: Config, r: Run, m: Run, e: Event)
    requires r.signaledAt.Some? && Confined(r, m) && Enabled(cfg, m, e) && e != PassCheck(true)
    ensures Confined(r, Apply(cfg, m, e))
  {
    hide TypeOf, ListOf, TierOf, TierAction, TierList, FailWithDependents, Answered, Polled, Expired, TransitionPayload;
    match e
    case Respond(x, ok) => AnswerKeepsTrace(cfg, m, x, ok);
    case PollOne(x, answer) => PollKeepsTrace(m, x, answer);
    case ExpireOne(x) => ExpiryKeepsTrace(cfg, m, x);
    case _ =>
  }

  lemma {:induction false} SignaledRunIsConfined(cfg: Config, r: Run, log: seq<Event>)
    requires r.signaledAt.Some? && After(cfg, r, log).Some? && PassCheck(true) !in log
    ensures Confined(r, After(cfg, r, log).value)
  {
    hide Apply, Enabled;
    if log != [] {
      var mid := log[..|log| - 1];
      SignaledRunIsConfined(cfg, r, mid);
      hide Confined;
      StepKeepsConfined(cfg, r, After(cfg, r, mid).value, log[|log| - 1]);
    }
  }

  /** Without storage errors, a run in which an abort has been signaled sends further
      commands only in a tier whose check it had passed before and whose commands were
      not all sent yet; in particular none when it stands at a tier boundary. */
  lemma AbortIsContained(cfg: Config, r: Run, log: seq<Event>)
    requires r.signaledAt.Some? && After(cfg, r, log).Some? && PassCheck(true) !in log
    ensures AddsOnlyCleared(r, After(cfg, r, log).value)
    ensures !Cleared(r.phase) ==> After(cfg, r, log).value.trace == r.trace
  {
    SignaledRunIsConfined(cfg, r, log);
  }

  /** The same of a whole run, for every signal in its log. */
  ghost predicate AbortsContained(cfg: Config, r: Run, log: seq<Event>)
    requires After(cfg, r, log).Some?
  {
    forall i {:trigger log[i]} :: 0 <= i < |log| && log[i] == SignalAbort && PassCheck(true) !in log[i..] ==>
      After(cfg, r, log[..i]).Some? && AddsOnlyCleared(After(cfg, r, log[..i]).value, After(cfg, r, log).value)
  }

  lemma {:induction false} AfterPrefix(cfg: Config, r: Run, log: seq<Event>, i: nat)
    requires After(cfg, r, log).Some? && i <= |log|
    ensures After(cfg, r, log[..i]).Some?
    ensures After(cfg, After(cfg, r, log[..i]).value, log[i..]) == After(cfg, r, log)
  {
    hide Apply, Enabled;
    if i == |log| {
      assert log[..i] == log && log[i..] == [];
    } else {
      var mid := log[..|log| - 1];
      AfterPrefix(cfg, r, mid, i);
      assert mid[..i] == log[..i];
      assert log[i..][..|log[i..]| - 1] == mid[i..];
      assert log[i..][|log[i..]| - 1] == log[|log| - 1];
    }
  }

  lemma EveryAbortIsContained(cfg: Config, r: Run, log: seq<Event>)
    requires After(cfg, r, log).Some?
    ensures AbortsContained(cfg, r, log)
  {
    hide AddsOnlyCleared, Apply, Enabled, After;
    forall i | 0 <= i < |log| && log[i] == SignalAbort && PassCheck(true) !in log[i..]
      ensures After(cfg, r, log[..i]).Some? && AddsOnlyCleared(After(cfg, r, log[..i]).value, After(cfg, r, log).value)
    {
      AfterPrefix(cfg, r, log, i + 1);
      EventAt(cfg, r, log, i);
      var m, m' := After(cfg, r, log[..i]).value, After(cfg, r, log[..i + 1]).value;
      SignalOnly(cfg, m);
      assert forall e :: e in log[i + 1..] ==> e in log[i..] by { assert log[i..] == [log[i]] + log[i + 1..]; }
      AbortIsContained(cfg, m', log[i + 1..]);
      SameTrace(m, m', After(cfg, r, log).value);
    }
  }

  lemma SameTrace(m: Run, m': Run, r: Run)
    requires m'.trace == m.trace && m'.phase == m.phase && AddsOnlyCleared(m', r)
    ensures AddsOnlyCleared(m, r)
  {
  }

  /** Seeing the abort fails exactly the unfinished tasks. */
  lemma AbortFailsUnfinished(cfg: Config, r: Run, x: Xname)
    requires Enabled(cfg, r, SeeAbort) && x in r.comps
    ensures var r' := Apply(cfg, r, SeeAbort);
            && r'.phase == Aborted && r'.trace == r.trace && x in r'.comps
            && !Unfinished(r'.comps[x].status)
            && r'.comps[x] == if Unfinished(r.comps[x].status) then r.comps[x].(status := TaskFailed) else r.comps[x]
  {
  }

  lemma {:induction false} AbortedIsFinal(cfg: Config, r: Run, log: seq<Event>)
    requires r.phase == Aborted && After(cfg, r, log).Some?
    ensures After(cfg, r, log).value.(signaledAt := r.signaledAt) == r
  {
    if log != [] {
      AbortedIsFinal(cfg, r, log[..|log| - 1]);
    }
  }

  /** In every reachable state of an aborted run all tasks are finished. */
  lemma {:induction false} AbortedHasNoUnfinished(cfg: Config, r: Run, log: seq<Event>)
    requires r.phase != Aborted && After(cfg, r, log).Some? && After(cfg, r, log).value.phase == Aborted
    ensures forall x :: x in After(cfg, r, log).value.comps ==> !Unfinished(After(cfg, r, log).value.comps[x].status)
  {
    hide ScanOne, Answered, Polled, Expired, TierList, FailWithDependents, TierAction;
    var mid := log[..|log| - 1];
    var m := After(cfg, r, mid).value;
    var e := log[|log| - 1];
    if m.phase == Aborted {
      AbortedHasNoUnfinished(cfg, r, mid);
    } else {
      OnlySeeAbortAborts(cfg, m, e);
    }
  }

  lemma OnlySeeAbortAborts(cfg: Config, r: Run, e: Event)
    requires Enabled(cfg, r, e) && r.phase != Aborted && Apply(cfg, r, e).phase == Aborted
    ensures e == SeeAbort
  {
    hide TierList, FailWithDependents, TierAction, TransitionPayload, Append;
  }

  ghost predicate Idle(r: Run, comps: Request, ls: Lists) {
    && r.trace == [] && r.comps == comps && r.lists == ls
    && (r.phase == Finished || (r.phase.Boundary? && r.phase.k <= TIERS))
  }

  lemma IdleStep(cfg: Config, r: Run, e: Event, comps: Request, ls: Lists)
    requires Idle(r, comps, ls) && Enabled(cfg, r, e) && forall x :: x in comps ==> !Unfinished(comps[x].status)
    requires forall k :: 0 <= k < TIERS ==> TierList(ls, k) == []
    ensures Idle(Apply(cfg, r, e), comps, ls)
  {
    hide TierList;
  }

  lemma NothingListed(comps: Request, ls: Lists)
    requires Sequenced(comps, ls) && forall x :: x in comps ==> !Unfinished(comps[x].status)
    ensures forall k :: 0 <= k < TIERS ==> TierList(ls, k) == []
  {
    hide TypeOf, ListOf, TierOf, TierAction, TierList;
    forall k | 0 <= k < TIERS ensures TierList(ls, k) == [] {
      TierListHas(comps, ls, k);
      EmptyOrMember(TierList(ls, k));
    }
  }

  /** If every task is finished when the tiers start, as after an abort that was seen
      early, no run sends any command or changes any task. */
  lemma {:induction false} NoCommandsWhenAllFinished(cfg: Config, comps: Request, ls: Lists, sig: Option<nat>, log: seq<Event>)
    requires Sequenced(comps, ls) && forall x :: x in comps ==> !Unfinished(comps[x].status)
    requires After(cfg, Start(comps, ls, sig), log).Some?
    ensures Idle(After(cfg, Start(comps, ls, sig), log).value, comps, ls)
  {
    hide TypeOf, ListOf, TierList, Apply, Enabled, Sequenced;
    if log != [] {
      var mid := log[..|log| - 1];
      NoCommandsWhenAllFinished(cfg, comps, ls, sig, mid);
      NothingListed(comps, ls);
      IdleStep(cfg, After(cfg, Start(comps, ls, sig), mid).value, log[|log| - 1], comps, ls);
    }
  }

  // ----- Who is commanded ---------------------------------------------------------------------

  predicate Unlisted(ls: Lists, x: Xname) {
    forall a :: x !in ListOf(ls, a, TypeOf(x))
  }

  /** Nothing is queued, under way or sent for `x`. */
  ghost predicate LeftOut(r: Run, x: Xname) {
    && Unlisted(r.lists, x) && !Pending(r, x)
    && forall i :: 0 <= i < |r.trace| ==> r.trace[i].x != x
  }

  lemma StepKeepsLeftOut(cfg: Config, r: Run, e: Event, x: Xname)
    requires Shape(r) && Enabled(cfg, r, e) && LeftOut(r, x)
    ensures LeftOut(Apply(cfg, r, e), x)
  {
    hide TypeOf, ListOf, TierAction, TierList, FailWithDependents, TransitionPayload, AbortTasks, WellListed, PendingServed,
         EscalatedLate;
    match e
    case StartScan =>
      ShapeParts(r);
      TierListHas(r.comps, r.lists, r.phase.k);
    case ScanNext =>
      ShapeParts(r);
      NoDupTail(r.phase.todo);
    case ExpireOne(y) => AppendLists(r.lists, y);
    case _ =>
  }

  /** Only components that sequencing queued are ever commanded. */
  lemma {:induction false} UnlistedIsNeverCommanded(cfg: Config, comps: Request, ls: Lists, sig: Option<nat>, log: seq<Event>, x: Xname)
    requires Sequenced(comps, ls) && Unlisted(ls, x) && After(cfg, Start(comps, ls, sig), log).Some?
    ensures LeftOut(After(cfg, Start(comps, ls, sig), log).value, x)
  {
    hide Unlisted, Apply, Enabled, Shape;
    StartHasShape(comps, ls, sig);
    if log != [] {
      var mid := log[..|log| - 1];
      UnlistedIsNeverCommanded(cfg, comps, ls, sig, mid, x);
      RunKeepsShape(cfg, Start(comps, ls, sig), mid);
      hide LeftOut;
      StepKeepsLeftOut(cfg, After(cfg, Start(comps, ls, sig), mid).value, log[|log| - 1], x);
    }
  }

  // ----- Protection of a failed node's power ------------------------------------------------

  /** The supply is on, and no later one is. */
  predicate LastOn(supplies: seq<PowerSupply>, i: nat) {
    i < |supplies| && supplies[i].state == PowerOn && forall j :: i < j < |supplies| ==> supplies[j].state != PowerOn
  }

  lemma {:induction false} LastSupplyOnIsOn(supplies: seq<PowerSupply>)
    ensures LastSupplyOn(supplies).None? <==> forall i :: 0 <= i < |supplies| ==> supplies[i].state != PowerOn
    ensures LastSupplyOn(supplies).Some? ==>
              exists i :: 0 <= i < |supplies| && supplies[i].state == PowerOn && supplies[i].id == LastSupplyOn(supplies).value
    ensures LastSupplyOn(supplies).Some? ==>
              exists i :: 0 <= i < |supplies| && supplies[i].id == LastSupplyOn(supplies).value && LastOn(supplies, i)
  {
    if supplies != [] {
      var n := |supplies| - 1;
      LastSupplyOnIsOn(supplies[..n]);
      if supplies[n].state != PowerOn && LastSupplyOn(supplies[..n]).Some? {
        var i :| 0 <= i < n && supplies[..n][i].state == PowerOn && supplies[..n][i].id == LastSupplyOn(supplies[..n]).value;
        assert supplies[i].state == PowerOn;
        var j: nat :| j < n && supplies[..n][j].id == LastSupplyOn(supplies[..n]).value && LastOn(supplies[..n], j);
        assert forall m :: j < m < n ==> supplies[m] == supplies[..n][m];
        assert LastOn(supplies, j);
      } else if supplies[n].state == PowerOn {
        assert LastOn(supplies, n);
      }
    }
  }

  /** The compute module of a node that fails to shut down is failed, and if a supply
      outside the request is on, nothing else is. */
  lemma FailedNodeFailsItsModule(req: Request, x: Xname)
    requires x in req && TypeOf(x) == Node
    ensures var req', compute := FailDependents(req, GracefulShutdown, x), Parent(Parent(x));
            && TypeOf(compute) == ComputeModule
            && OnlyFails(req, req')
            && (compute in req ==> req'[compute].status == TaskFailed)
            && (OutsideSupplyOn(req, req[x].supplies) ==> forall y :: y in req && y != compute ==> req'[y] == req[y])
  {
    ModuleOfNode(x);
    DependentsOnlyFail(req, GracefulShutdown, x);
    hide TypeOf, Parent, LastSupplyOn, OnlyFails;
  }

  lemma ModuleOfNode(x: Xname)
    requires TypeOf(x) == Node
    ensures TypeOf(Parent(Parent(x))) == ComputeModule
  {
    ParentHasParentType(x);
    ParentHasParentType(Parent(x));
    hide Parent, TypeOf;
  }

  /** A node that fails its shutdown keeps its power: its compute module, if
      requested, is failed; if it has a supply that is on, one such supply is outside
      the request or failed; and no supply is failed needlessly. */
  lemma FailedNodeKeepsPower(req: Request, x: Xname)
    requires x in req && TypeOf(x) == Node
    requires forall i :: 0 <= i < |req[x].supplies| ==> req[x].supplies[i].id != []
    ensures var req' := FailDependents(req, GracefulShutdown, x);
            var compute, supplies := Parent(Parent(x)), req[x].supplies;
            && TypeOf(compute) == ComputeModule
            && OnlyFails(req, req')
            && (compute in req ==> req'[compute].status == TaskFailed)
            && ((exists i :: 0 <= i < |supplies| && supplies[i].state == PowerOn) ==>
                  exists i :: 0 <= i < |supplies| && supplies[i].state == PowerOn &&
                    (supplies[i].id !in req || req'[supplies[i].id].status == TaskFailed))
            && (OutsideSupplyOn(req, supplies) ==> forall y :: y in req && y != compute ==> req'[y] == req[y])
  {
    FailedNodeFailsItsModule(req, x);
    var supplies := req[x].supplies;
    hide TypeOf, Parent;
    LastSupplyOnIsOn(supplies);
    if !OutsideSupplyOn(req, supplies) && LastSupplyOn(supplies).Some? {
      var i :| 0 <= i < |supplies| && supplies[i].state == PowerOn && supplies[i].id == LastSupplyOn(supplies).value;
      assert supplies[i].id in req;
      assert FailDependents(req, GracefulShutdown, x)[supplies[i].id].status == TaskFailed;
    }
  }

  /** Nothing else is failed: only the compute module, and the last supply that is on if all
      that are on are requested; and only for the graceful shutdown of a node. */
  lemma OnlyDependentsFail(req: Request, a: PowerAction, x: Xname, y: Xname)
    requires x in req && y in req && FailDependents(req, a, x).Keys == req.Keys && FailDependents(req, a, x)[y] != req[y]
    ensures a == GracefulShutdown && TypeOf(x) == Node
    ensures || y == Parent(Parent(x))
            || ((forall i :: 0 <= i < |req[x].supplies| && req[x].supplies[i].state == PowerOn ==> req[x].supplies[i].id in req) &&
                exists i: nat :: LastOn(req[x].supplies, i) && req[x].supplies[i].id == y)
  {
    LastSupplyOnIsOn(req[x].supplies);
    hide TypeOf, Parent, LastSupplyOn;
  }

  ghost predicate Benched(r: Run, x: Xname) {
    x in r.comps && r.comps[x].status == TaskFailed && x !in r.inflight && x !in r.waiting
  }

  /** `x` stays benched and no command was added for it. */
  ghost predicate LeavesBenched(r: Run, r': Run, x: Xname) {
    && Benched(r', x)
    && (r'.trace == r.trace || exists c: Command :: c.x != x && r'.trace == r.trace + [c])
  }

  lemma ScanLeavesBenched(r: Run, x: Xname)
    requires r.phase.Scanning? && r.phase.k < TIERS && r.phase.todo != [] && r.phase.todo[0] in r.comps && Benched(r, x)
    ensures LeavesBenched(r, ScanOne(r), x)
  {
    hide FailWithDependents, TransitionPayload, TierAction;
    FailingOnlyFails(r.comps, TierAction(r.phase.k), r.phase.todo[0]);
  }

  lemma AnswerLeavesBenched(cfg: Config, r: Run, y: Xname, ok: bool, x: Xname)
    requires Enabled(cfg, r, Respond(y, ok)) && Benched(r, x)
    ensures LeavesBenched(r, Answered(cfg, r, y, ok), x)
  {
    hide FailWithDependents, TierAction, TierList;
    FailingOnlyFails(r.comps, TierAction(r.phase.k), y);
  }

  lemma PollLeavesBenched(cfg: Config, r: Run, y: Xname, answer: Answer, x: Xname)
    requires Coherent(r) && Enabled(cfg, r, PollOne(y, answer)) && Benched(r, x)
    ensures LeavesBenched(r, Polled(r, y, answer), x)
  {
    hide FailWithDependents, TierAction, TierList, NoDup;
    FailingOnlyFails(r.comps, TierAction(r.phase.k), y);
  }

  lemma ExpiryLeavesBenched(cfg: Config, r: Run, y: Xname, x: Xname)
    requires Enabled(cfg, r, ExpireOne(y)) && Benched(r, x)
    ensures LeavesBenched(r, Expired(cfg, r, y), x)
  {
    hide FailWithDependents, TierAction, TierList, Append;
    FailingOnlyFails(r.comps, TierAction(r.phase.k), y);
  }

  lemma StepKeepsBenched(cfg: Config, r: Run, e: Event, x: Xname)
    requires Coherent(r) && Enabled(cfg, r, e) && Benched(r, x)
    ensures LeavesBenched(r, Apply(cfg, r, e), x)
  {
    hide TierList, TierAction, FailWithDependents, ScanOne, Answered, Polled, Expired, Coherent;
    match e
    case ScanNext => ScanLeavesBenched(r, x);
    case LoseReservation(y, a) => FailingOnlyFails(r.comps, a, y);
    case Respond(y, ok) => AnswerLeavesBenched(cfg, r, y, ok, x);
    case PollOne(y, answer) => PollLeavesBenched(cfg, r, y, answer, x);
    case ExpireOne(y) => ExpiryLeavesBenched(cfg, r, y, x);
    case _ =>
  }

  /** A failed component that is not being handled stays failed for the rest of the
      run, and no command is sent to it any more. */
  lemma {:induction false} FailedStaysFailed(cfg: Config, r: Run, log: seq<Event>, x: Xname)
    requires Shape(r) && Benched(r, x) && After(cfg, r, log).Some?
    ensures var r' := After(cfg, r, log).value;
            && Benched(r', x)
            && |r.trace| <= |r'.trace| && r'.trace[..|r.trace|] == r.trace
            && forall i :: |r.trace| <= i < |r'.trace| ==> r'.trace[i].x != x
  {
    hide Apply, Enabled, Benched, Shape;
    if log != [] {
      var mid := log[..|log| - 1];
      FailedStaysFailed(cfg, r, mid, x);
      RunKeepsShape(cfg, r, mid);
      var m := After(cfg, r, mid).value;
      ShapeParts(m);
      var r' := Apply(cfg, m, log[|log| - 1]);
      StepKeepsBenched(cfg, m, log[|log| - 1], x);
    }
  }

  /** The event by which the graceful shutdown of a component fails: no payload, a bad
      answer, an error when polling, a time-out without escalation, or no reservation. */
  predicate ShutdownFails(cfg: Config, r: Run, e: Event, x: Xname) {
    && Placed(r.phase) && x in r.comps
    && (InTier(r.phase) ==> TierAction(r.phase.k) == GracefulShutdown)
    && match e
       case ScanNext =>
         && r.phase.Scanning? && r.phase.todo != [] && r.phase.todo[0] == x && r.comps[x].status != TaskFailed
         && !(r.comps[x].state == Waiting && r.comps[x].operation == OpForAction(GracefulShutdown))
         && TransitionPayload(x, r.comps[x], GracefulShutdown).None?
       case Respond(y, ok) => y == x && !ok
       case PollOne(y, answer) => y == x && answer.PollError?
       case ExpireOne(y) => y == x && !Escalates(cfg, r.comps[x], GracefulShutdown)
       case LoseReservation(y, a) => y == x && a == GracefulShutdown
       case _ => false
  }

  lemma ShutdownFailure(cfg: Config, r: Run, e: Event, x: Xname)
    requires Enabled(cfg, r, e) && ShutdownFails(cfg, r, e, x)
    ensures var r' := Apply(cfg, r, e);
            && r'.comps == FailWithDependents(r.comps, GracefulShutdown, x)
            && r'.inflight <= r.inflight && r'.waiting <= r.waiting
  {
    hide FailWithDependents, TierList, TierAction, TransitionPayload;
  }

  lemma DependentsAreFailed(comps: Request, x: Xname, y: Xname)
    requires x in comps && TypeOf(x) == Node && y in comps
    requires y == Parent(Parent(x)) || SupplyToFail(comps, x) == Some(y)
    ensures var comps' := FailWithDependents(comps, GracefulShutdown, x); y in comps' && comps'[y].status == TaskFailed
  {
    assert SupplyToFail(Fail(comps, x), x) == SupplyToFail(comps, x) by {
      assert Fail(comps, x).Keys == comps.Keys;
    }
    hide TypeOf, Parent, SupplyToFail;
  }

  lemma ElsewhereIsNotPending(cfg: Config, r: Run, e: Event, x: Xname, y: Xname)
    requires Shape(r) && Enabled(cfg, r, e) && ShutdownFails(cfg, r, e, x) && TypeOf(x) == Node && TypeOf(y) != Node
    ensures y !in r.inflight && y !in r.waiting
  {
    ShapeParts(r);
    hide TypeOf, TierOf, TierAction, TierList, ListOf, TransitionPayload, WellListed, EscalatedLate, Shape;
    if Busy(r.phase) {
      assert Pending(r, x);
      OnlyNodesInNodeTier(r.phase.k, x, y);
    }
  }

  /** When the shutdown of a node fails, its compute module and the supply chosen to
      stay on are out of the run: failed, and not being handled. */
  lemma FailedNodeBenchesItsPower(cfg: Config, r: Run, e: Event, x: Xname, y: Xname)
    requires Shape(r) && Enabled(cfg, r, e) && ShutdownFails(cfg, r, e, x) && TypeOf(x) == Node
    requires y in r.comps && (y == Parent(Parent(x)) || SupplyToFail(r.comps, x) == Some(y))
    requires TypeOf(y) != Node
    ensures Benched(Apply(cfg, r, e), y)
  {
    hide Shape, Apply, Enabled, ShutdownFails, SupplyToFail, TypeOf, Parent, FailWithDependents;
    assert x in r.comps by { ShutdownOfRequested(cfg, r, e, x); }
    ShutdownFailure(cfg, r, e, x);
    DependentsAreFailed(r.comps, x, y);
    ElsewhereIsNotPending(cfg, r, e, x, y);
  }

  /** From then on, whatever happens, they stay failed and get no command. */
  lemma FailedNodeProtectsItsPower(cfg: Config, r: Run, e: Event, log: seq<Event>, x: Xname, y: Xname)
    requires Shape(r) && Enabled(cfg, r, e) && ShutdownFails(cfg, r, e, x) && TypeOf(x) == Node
    requires y in r.comps && (y == Parent(Parent(x)) || SupplyToFail(r.comps, x) == Some(y)) && TypeOf(y) != Node
    requires After(cfg, Apply(cfg, r, e), log).Some?
    ensures var r' := After(cfg, Apply(cfg, r, e), log).value;
            && y in r'.comps && r'.comps[y].status == TaskFailed
            && |Apply(cfg, r, e).trace| <= |r'.trace|
            && forall i :: |Apply(cfg, r, e).trace| <= i < |r'.trace| ==> r'.trace[i].x != y
  {
    hide Shape, Apply, Enabled, ShutdownFails, SupplyToFail, TypeOf, Parent;
    FailedNodeBenchesItsPower(cfg, r, e, x, y);
    StepKeepsShape(cfg, r, e);
    FailedStaysFailed(cfg, Apply(cfg, r, e), log, y);
  }

  lemma ShutdownOfRequested(cfg: Config, r: Run, e: Event, x: Xname)
    requires ShutdownFails(cfg, r, e, x)
    ensures x in r.comps
  {
  }

  lemma OnlyNodesInNodeTier(k: nat, x: Xname, y: Xname)
    requires k < TIERS && TierAction(k) == GracefulShutdown && ServedIn(k, x) && TypeOf(x) == Node && TypeOf(y) != Node
    ensures !ServedIn(k, y)
  {
    hide TypeOf;
  }

  /** A failed status is undone only for a component that is still being handled: by
      the answer to a command already sent, or by its last confirmation. */
  lemma FailureUndoneIff(cfg: Config, r: Run, e: Event, x: Xname)
    requires Shape(r) && Enabled(cfg, r, e) && x in r.comps && r.comps[x].status == TaskFailed
    ensures x in Apply(cfg, r, e).comps
    ensures Apply(cfg, r, e).comps[x].status != TaskFailed <==>
            || e == Respond(x, true)
            || (e.PollOne? && e.x == x && r.comps[x].actionCount == 1 && e.answer == PollState(EndState(TierAction(r.phase.k))))
  {
    hide Shape, Benched;
    ShapeParts(r);
    StepKeepsKeys(cfg, r, e);
    if e == Respond(x, true) {
    } else if e.PollOne? && e.x == x {
      hide TierAction, FailWithDependents;
      FailingOnlyFails(r.comps, TierAction(r.phase.k), x);
    } else {
      OthersDoNotUndo(cfg, r, e, x);
    }
  }

  lemma OthersDoNotUndo(cfg: Config, r: Run, e: Event, x: Xname)
    requires Placed(r.phase) && Enabled(cfg, r, e) && x in r.comps && r.comps[x].status == TaskFailed
    requires e != Respond(x, true) && !(e.PollOne? && e.x == x)
    ensures x in Apply(cfg, r, e).comps && Apply(cfg, r, e).comps[x].status == TaskFailed
  {
    hide TierAction, TierList, FailWithDependents, TransitionPayload, Append, Escalates;
    match e
    case ScanNext => FailingOnlyFails(r.comps, TierAction(r.phase.k), r.phase.todo[0]);
    case LoseReservation(y, a) => FailingOnlyFails(r.comps, a, y);
    case Respond(y, _) => FailingOnlyFails(r.comps, TierAction(r.phase.k), y);
    case PollOne(y, _) => FailingOnlyFails(r.comps, TierAction(r.phase.k), y);
    case ExpireOne(y) => FailingOnlyFails(r.comps, TierAction(r.phase.k), y);
    case _ =>
  }
}
