/** The runner in the form of the source: an object whose component map, tier lists
    and outstanding requests are updated in place.  Each method is proved to be the
    corresponding event of the transition system in `TierRunner`. */
module TransitionRunner {
  import opened Xnames
  import opened TransitionModel
  import opened Sequencing
  import opened TierRunner
  import opened TierShape
  import opened TierCounts
  import opened ZeroDeadline
  import opened RunBuilding
  import opened TierTraces
  import opened Outcomes
  import opened SequencedRuns

  lemma GatherNext(ls: Lists, a: PowerAction, types: seq<HMSType>, i: nat, soFar: seq<Xname>)
    requires i < |types|
    ensures soFar + Gather(ls, a, types[i..]) == soFar + ListOf(ls, a, types[i]) + Gather(ls, a, types[i + 1..])
  {
    assert types[i..][1..] == types[i + 1..];
    hide ListOf;
  }

  lemma GatherNone(ls: Lists, a: PowerAction, types: seq<HMSType>)
    requires types == []
    ensures Gather(ls, a, types) == []
  {
  }

  // ----- The runner ---------------------------------------------------------------------

  /** How a tier ended: the next one follows, the run was aborted, or the runner was
      stopped while it was still waiting. */
  datatype Outcome = Continue | Stop | Interrupted


  function PhaseAfter(outcome: Outcome, k: nat): Phase {
    match outcome
    case Continue => Boundary(k + 1)
    case Stop => Aborted
    case Interrupted => Checking(k)
  }

  /** `r` is what the log makes of `start`. */
  ghost predicate OnPath(cfg: Config, start: Run, log: seq<Event>, r: Run) {
    After(cfg, start, log) == Some(r) && Shape(r)
  }

  lemma PendingIsRequested(r: Run, x: Xname)
    requires Shape(r) && Pending(r, x)
    ensures x in r.comps && Placed(r.phase)
  {
    hide TypeOf, ListOf, TierOf, WellListed, EscalatedLate, Coherent;
  }

  lemma PolledIsPending(r: Run, x: Xname)
    requires Shape(r) && r.phase.Polling? && x in r.phase.left
    ensures Pending(r, x)
  {
    hide TypeOf, ListOf, TierOf, WellListed, EscalatedLate, PendingServed;
  }

  // Events that only change the phase.

  lemma Skips(cfg: Config, r: Run, k: nat)
    requires k < TIERS && r.phase == Boundary(k) && TierList(r.lists, k) == []
    ensures Enabled(cfg, r, SkipTier) && Apply(cfg, r, SkipTier) == r.(phase := Boundary(k + 1))
  {
    hide TierList;
  }

  lemma Passes(cfg: Config, r: Run, k: nat)
    requires k < TIERS && (r.phase == Checking(k) || (r.phase == Boundary(k) && TierList(r.lists, k) != []))
    ensures r.signaledAt.Some? ==> Enabled(cfg, r, SeeAbort)
    ensures var e := PassCheck(r.signaledAt.Some?);
            Enabled(cfg, r, e) &&
            Apply(cfg, r, e) == r.(phase := if r.phase.Checking? then Polling(k, r.waiting) else Reserving(k))
  {
    hide TierList;
  }

  lemma StartsScan(cfg: Config, r: Run, k: nat)
    requires k < TIERS && r.phase == Reserving(k)
    ensures Enabled(cfg, r, StartScan) && Apply(cfg, r, StartScan) == r.(phase := Scanning(k, TierList(r.lists, k)))
  {
    hide TierList;
  }

  lemma EndsScan(cfg: Config, r: Run, k: nat)
    requires k < TIERS && r.phase == Scanning(k, [])
    ensures Enabled(cfg, r, EndScan) && Apply(cfg, r, EndScan) == r.(phase := Responding(k))
  {
  }

  function AfterResponses(cfg: Config, r: Run, k: nat): Phase {
    if r.waiting == {} && cfg.deadline == 0 then Boundary(k + 1) else Checking(k)
  }

  lemma EndsResponses(cfg: Config, r: Run, k: nat)
    requires k < TIERS && r.phase == Responding(k) && r.inflight == {}
    ensures Enabled(cfg, r, EndResponses) && Apply(cfg, r, EndResponses) == r.(phase := AfterResponses(cfg, r, k))
  {
  }

  function AfterRound(r: Run, k: nat, expired: bool): Phase {
    if expired then Expiring(k) else if r.waiting == {} then Boundary(k + 1) else Checking(k)
  }

  lemma EndsRound(cfg: Config, r: Run, k: nat, expired: bool)
    requires k < TIERS && r.phase == Polling(k, {})
    requires expired ==> r.waiting != {} && cfg.deadline >= 0
    requires !expired ==> r.waiting == {} || cfg.deadline != 0
    ensures Enabled(cfg, r, EndRound(expired))
    ensures Apply(cfg, r, EndRound(expired)) == r.(phase := AfterRound(r, k, expired))
  {
  }

  lemma EndsExpiry(cfg: Config, r: Run, k: nat)
    requires k < TIERS && r.phase == Expiring(k) && r.waiting == {}
    ensures Enabled(cfg, r, EndExpiry) && Apply(cfg, r, EndExpiry) == r.(phase := Boundary(k + 1))
  {
  }

  lemma NextOnPath(cfg: Config, start: Run, log: seq<Event>, r: Run, e: Event)
    requires OnPath(cfg, start, log, r) && Enabled(cfg, r, e)
    ensures OnPath(cfg, start, log + [e], Apply(cfg, r, e))
  {
    hide After, Apply, Enabled, Shape;
    AfterSnoc(cfg, start, log, e);
    StepKeepsShape(cfg, r, e);
  }

  class Runner {
    const cfg: Config
    var comps: Request
    var lists: Lists
    var inflight: set<Xname>
    var waiting: set<Xname>
    var trace: seq<Command>
    var signaledAt: Option<nat>
    ghost var phase: Phase
    ghost var visits: seq<Visit>
    ghost var escalated: set<Xname>
    ghost var log: seq<Event>

    constructor (cfg: Config, comps: Request)
      ensures this.cfg == cfg && this.comps == comps && lists == map[] && inflight == {} && waiting == {}
      ensures trace == [] && signaledAt == None && visits == [] && escalated == {} && log == []
      ensures phase == Boundary(0)
    {
      this.cfg, this.comps, this.lists, this.inflight, this.waiting := cfg, comps, map[], {}, {};
      trace, signaledAt := [], None;
      phase, visits, escalated, log := Boundary(0), [], {}, [];
    }

    ghost function View(): Run
      reads this
    {
      Run(comps, lists, phase, inflight, waiting, signaledAt, trace, visits, escalated)
    }

    /** The state and the log moved by exactly this event. */
    twostate predicate Did(e: Event)
      reads this
    {
      Enabled(cfg, old(View()), e) && View() == Apply(cfg, old(View()), e) && log == old(log) + [e]
    }

    // --- Sequencing -----------------------------------------------------------------

    method SequenceComponents(op: Operation) returns (hung: bool, reservations: seq<Xname>)
      requires Recognised(comps) && lists == map[]
      modifies this`comps, this`lists
      ensures hung <==> exists x :: x in old(comps) && HangsOn(op, old(comps), x)
      ensures !hung ==> ComponentsAfter(op, old(comps), old(comps).Keys, comps)
      ensures !hung ==> ListsAfter(op, old(comps), old(comps).Keys, lists)
      ensures !hung ==> ReservationsAfter(op, old(comps), old(comps).Keys, reservations)
      ensures !hung && op != OpNil ==> WorkListed(op, old(comps), comps, lists)
    {
      hung, reservations := false, [];
      var req := comps;
      var todo := comps.Keys;
      NothingSequenced(op, req);
      assert req.Keys - todo == {};
      hide ComponentsAfter, ListsAfter, ReservationsAfter, HangsOn, QueuedFor, SequencedComponent, Reserves, Extends, WorkListed;
      while todo != {} && !hung
        invariant todo <= req.Keys && comps.Keys == req.Keys
        invariant forall x :: x in todo ==> comps[x] == req[x]
        invariant !hung ==> ComponentsAfter(op, req, req.Keys - todo, comps)
        invariant !hung ==> ListsAfter(op, req, req.Keys - todo, lists)
        invariant !hung ==> ReservationsAfter(op, req, req.Keys - todo, reservations)
        invariant !hung ==> forall x :: x in req && x !in todo ==> !HangsOn(op, req, x)
        invariant hung ==> exists x :: x in req && HangsOn(op, req, x)
        decreases todo, !hung
      {
        var x :| x in todo;
        ghost var done, comps0, lists0, reservations0 := req.Keys - todo, comps, lists, reservations;
        hung := SequenceOne(op, req, x);
        if !hung {
          if Reserves(op, req, x) {
            reservations := reservations + [x];
          }
          ComponentReplaced(op, req, done, x, comps0);
          AddedToLists(op, req, done, x, QueuedFor(op, req, x), lists0, lists);
          AddedToReservations(op, req, done, x, reservations0, reservations);
          todo := todo - {x};
          assert req.Keys - todo == done + {x};
        }
      }
      if !hung {
        assert req.Keys - todo == req.Keys;
        if op != OpNil {
          SequencedWork(op, req, comps, lists);
        }
      }
    }

    /** One iteration of the loop over the request. */
    method SequenceOne(op: Operation, req: Request, x: Xname) returns (hung: bool)
      requires Recognised(req) && x in req && x in comps && comps[x] == req[x]
      modifies this`comps, this`lists
      ensures hung <==> HangsOn(op, req, x)
      ensures hung ==> comps == old(comps)
      ensures !hung ==> comps == old(comps)[x := SequencedComponent(op, req, x)]
      ensures !hung ==> Extends(old(lists), lists, x, QueuedFor(op, req, x))
    {
      hung := false;
      var c := comps[x];
      if Unfinished(c.status) {
        var ancestorsRestart := true;
        if op == OpSoftRestart && op in c.supported && c.power == PowerOn && HasRestart(x, c) {
          hung, ancestorsRestart := WalkAncestors(req, x);
        }
        if !hung {
          hide Schedule, TypeOf, ListOf;
          var s := Schedule(op, x, c, ancestorsRestart);
          QueuedFacts(op, req, x);
          QueueActions(x, s.actions);
          comps := comps[x := s.comp];
        }
      } else {
        assert comps == comps[x := c];
      }
    }

    method QueueActions(x: Xname, actions: seq<PowerAction>)
      requires NoDup(actions)
      modifies this`lists
      ensures Extends(old(lists), lists, x, actions)
    {
      for i := 0 to |actions|
        invariant Extends(old(lists), lists, x, actions[..i])
      {
        hide TypeOf;
        lists := Append(lists, actions[i], x);
        assert actions[..i + 1] == actions[..i] + [actions[i]];
      }
      assert actions[..|actions|] == actions;
    }

    // --- Single events -----------------------------------------------------------------

    /** The state is what the log makes of the start of the run. */
    ghost predicate Follows(start: Run)
      reads this
    {
      OnPath(cfg, start, log, View())
    }

    method FailDependentComps(a: PowerAction, x: Xname)
      modifies this`comps
      ensures comps == FailDependents(old(comps), a, x)
    {
      hide TypeOf, Parent;
      if a == GracefulShutdown && TypeOf(x) == Node {
        var supply := None;
        if x in comps {
          supply := ChooseSupply(comps[x].supplies);
        }
        comps := Fail(comps, Parent(Parent(x)));
        if supply.Some? {
          comps := Fail(comps, supply.value);
        }
      }
    }

    /** The last supply that is on, unless one outside the request is on. */
    method ChooseSupply(supplies: seq<PowerSupply>) returns (chosen: Option<Xname>)
      ensures chosen == if OutsideSupplyOn(comps, supplies) || LastSupplyOn(supplies) == Some([]) then None
                        else LastSupplyOn(supplies)
    {
      chosen := None;
      var willHavePower := false;
      var i := 0;
      while i < |supplies| && !willHavePower
        invariant 0 <= i <= |supplies|
        invariant willHavePower ==> OutsideSupplyOn(comps, supplies)
        invariant !willHavePower ==> !OutsideSupplyOn(comps, supplies[..i]) && chosen == LastSupplyOn(supplies[..i])
        decreases |supplies| - i, !willHavePower
      {
        assert supplies[..i + 1][..i] == supplies[..i];
        if supplies[i].id !in comps && supplies[i].state == PowerOn {
          willHavePower := true;
        } else {
          if supplies[i].state == PowerOn {
            chosen := Some(supplies[i].id);
          }
          i := i + 1;
        }
      }
      assert supplies[..|supplies|] == supplies;
      if willHavePower || chosen == Some([]) {
        chosen := None;
      }
    }

    method FailComponent(a: PowerAction, x: Xname)
      requires x in comps
      modifies this`comps
      ensures comps == FailWithDependents(old(comps), a, x)
    {
      comps := comps[x := comps[x].(status := TaskFailed)];
      FailDependentComps(a, x);
    }

    /** Handles one component while the requests of a tier are built. */
    method ScanComponent(k: nat, x: Xname, ghost rest: seq<Xname>)
      requires k < TIERS && phase == Scanning(k, [x] + rest) && x in comps
      modifies this
      ensures Did(ScanNext) && phase == Scanning(k, rest)
    {
      hide TransitionPayload, FailWithDependents, TierAction;
      var a := TierAction(k);
      var c := comps[x];
      if c.status == TaskFailed {
      } else if c.state == Waiting && c.operation == OpForAction(a) {
        waiting := waiting + {x};
      } else if TransitionPayload(x, c, a).None? {
        FailComponent(a, x);
      } else {
        comps := comps[x := c.(state := Sending, operation := OpForAction(a))];
        inflight := inflight + {x};
        trace := trace + [Command(k, a, x)];
      }
      assert ([x] + rest)[1..] == rest;
      phase, visits, log := Scanning(k, rest), visits + [Visit(k, x)], log + [ScanNext];
    }

    /** Processes the answer to one request. */
    method CollectAnswer(k: nat, x: Xname, ok: bool)
      requires k < TIERS && phase == Responding(k) && x in comps && x in inflight
      modifies this
      ensures Did(Respond(x, ok)) && phase == Responding(k) && inflight == old(inflight) - {x}
    {
      hide FailWithDependents, TierAction;
      var c := comps[x];
      inflight := inflight - {x};
      if !ok {
        FailComponent(TierAction(k), x);
      } else {
        if cfg.deadline == 0 {
          var n := c.actionCount - 1;
          comps := comps[x := c.(actionCount := n, state := Confirmed,
                                 status := if n == 0 then TaskSucceeded else TaskInProgress)];
        } else {
          comps := comps[x := c.(state := Waiting, status := TaskInProgress)];
        }
        waiting := waiting + {x};
      }
      log := log + [Respond(x, ok)];
    }

    /** Compares the stored power state of one component with the desired one. */
    method PollComponent(k: nat, x: Xname, answer: Answer, ghost left: set<Xname>)
      requires k < TIERS && phase == Polling(k, left) && x in comps && x in left
      modifies this
      ensures Did(PollOne(x, answer)) && phase == Polling(k, left - {x})
    {
      hide FailWithDependents, TierAction;
      var a := TierAction(k);
      if answer.PollError? {
        FailComponent(a, x);
        waiting := waiting - {x};
      } else if answer.power == EndState(a) {
        var c := comps[x];
        c := c.(actionCount := c.actionCount - 1, state := Confirmed);
        if c.actionCount == 0 {
          c := c.(status := TaskSucceeded);
        }
        comps := comps[x := c];
        waiting := waiting - {x};
      }
      phase, log := Polling(k, left - {x}), log + [PollOne(x, answer)];
    }

    /** Escalates or fails one component whose deadline has passed. */
    method ExpireComponent(k: nat, x: Xname)
      requires k < TIERS && phase == Expiring(k) && x in comps && x in waiting
      modifies this
      ensures Did(ExpireOne(x)) && phase == Expiring(k) && waiting == old(waiting) - {x}
      ensures if TierAction(k) == GracefulShutdown && !cfg.softOff && "forceoff" in old(comps)[x].actions then
                comps == old(comps) && ListOf(lists, ForceOff, TypeOf(x)) == old(ListOf(lists, ForceOff, TypeOf(x))) + [x]
              else
                lists == old(lists) && x in comps && comps[x].status == TaskFailed
    {
      TimeoutIsForcedIff(cfg, View(), x);
      hide FailWithDependents, TierAction, Append, ListOf, TypeOf;
      var a := TierAction(k);
      waiting := waiting - {x};
      if a == GracefulShutdown && !cfg.softOff && "forceoff" in comps[x].actions {
        lists := Append(lists, ForceOff, x);
        escalated := escalated + {x};
      } else {
        FailComponent(a, x);
      }
      log := log + [ExpireOne(x)];
    }

    /** Fails every unfinished task. */
    method FailUnfinished()
      modifies this`comps
      ensures comps == AbortTasks(old(comps))
    {
      var todo := comps.Keys;
      var req := comps;
      while todo != {}
        invariant todo <= req.Keys && comps.Keys == req.Keys
        invariant forall x :: x in req ==>
                    (comps[x] == if x in todo then req[x] else AbortTasks(req)[x])
        decreases todo
      {
        var x :| x in todo;
        if Unfinished(comps[x].status) {
          comps := comps[x := comps[x].(status := TaskFailed)];
        }
        todo := todo - {x};
      }
    }

    method DoAbort()
      requires Enabled(cfg, View(), SeeAbort)
      modifies this
      ensures Did(SeeAbort) && phase == Aborted
    {
      hide TierList, AbortTasks;
      FailUnfinished();
      inflight, waiting := {}, {};
      phase, log := Aborted, log + [SeeAbort];
    }

    // --- The loop over the power sequence --------------------------------------------------

    /** An event that only changes the phase. */
    ghost method Note(e: Event, p: Phase, start: Run)
      requires Follows(start) && Enabled(cfg, View(), e)
      requires Apply(cfg, View(), e) == View().(phase := p)
      modifies this`phase, this`log
      ensures Follows(start) && phase == p
    {
      hide TierList, After, Apply, Enabled, Shape;
      NextOnPath(cfg, start, log, View(), e);
      phase := p;
      log := log + [e];
    }

    /** Another instance may signal an abort at any time. */
    method Interference(ghost start: Run)
      requires Follows(start)
      modifies this`signaledAt, this`log
      ensures Follows(start)
      ensures View() == old(View()).(signaledAt := signaledAt)
    {
      hide TierList, After, Shape;
      var signal: bool := *;
      if signal && signaledAt.None? {
        assert Enabled(cfg, View(), SignalAbort) by { ShapeParts(View()); }
        NextOnPath(cfg, start, log, View(), SignalAbort);
        signaledAt := Some(|trace|);
        log := log + [SignalAbort];
      }
    }

    /** The components a tier acts on. */
    method GatherTier(k: nat) returns (compList: seq<Xname>)
      requires k < TIERS
      ensures compList == TierList(lists, k)
    {
      compList := [];
      var a, types := TierAction(k), TierTypes(k);
      assert TierList(lists, k) == Gather(lists, a, types);
      hide ListOf, TierList, TierTypes, TierAction, Gather;
      assert types[0..] == types;
      for i := 0 to |types|
        invariant compList + Gather(lists, a, types[i..]) == Gather(lists, a, types)
      {
        GatherNext(lists, a, types, i, compList);
        compList := compList + ListOf(lists, a, types[i]);
      }
      GatherNone(lists, a, types[|types|..]);
    }

    /** The reservation service reports lost reservations. */
    method CheckReservations(k: nat, ghost start: Run)
      requires Follows(start) && k < TIERS && phase == Reserving(k)
      modifies this`comps, this`log
      ensures Follows(start) && phase == Reserving(k)
    {
      hide TierList, FailWithDependents, After, Shape, TierAction;
      var reports: int := *;
      for i := 0 to if reports < 0 then 0 else reports
        invariant Follows(start)
      {
        var x: Xname := *;
        if x in comps && Unfinished(comps[x].status) {
          NextOnPath(cfg, start, log, View(), LoseReservation(x, TierAction(k)));
          FailComponent(TierAction(k), x);
          log := log + [LoseReservation(x, TierAction(k))];
        }
      }
    }

    method SendAll(k: nat, compList: seq<Xname>, ghost start: Run)
      requires Follows(start) && k < TIERS && phase == Scanning(k, compList)
      modifies this
      ensures Follows(start) && phase == Scanning(k, [])
    {
      hide TierList, After, Shape, ScanOne, Answered, Polled, Expired, FailWithDependents, AbortTasks;
      for i := 0 to |compList|
        invariant Follows(start) && phase == Scanning(k, compList[i..])
      {
        assert compList[i..] == [compList[i]] + compList[i + 1..];
        PendingIsRequested(View(), compList[i]);
        NextOnPath(cfg, start, log, View(), ScanNext);
        ScanComponent(k, compList[i], compList[i + 1..]);
      }
    }

    method CollectAll(k: nat, ghost start: Run)
      requires Follows(start) && k < TIERS && phase == Responding(k)
      modifies this
      ensures Follows(start) && phase == Responding(k) && inflight == {}
    {
      hide TierList, After, Shape, ScanOne, Answered, Polled, Expired, FailWithDependents, AbortTasks;
      while inflight != {}
        invariant Follows(start) && phase == Responding(k)
        decreases inflight
      {
        var x :| x in inflight;
        var ok: bool := *;
        PendingIsRequested(View(), x);
        NextOnPath(cfg, start, log, View(), Respond(x, ok));
        CollectAnswer(k, x, ok);
      }
    }

    method PollAll(k: nat, ghost start: Run)
      requires Follows(start) && k < TIERS && phase == Polling(k, waiting)
      modifies this
      ensures Follows(start) && phase == Polling(k, {})
    {
      hide TierList, After, Shape, ScanOne, Answered, Polled, Expired, FailWithDependents, AbortTasks;
      var left := waiting;
      while left != {}
        invariant Follows(start) && phase == Polling(k, left)
        decreases left
      {
        var x :| x in left;
        var answer: Answer := *;
        PolledIsPending(View(), x);
        PendingIsRequested(View(), x);
        NextOnPath(cfg, start, log, View(), PollOne(x, answer));
        PollComponent(k, x, answer, left);
        left := left - {x};
      }
    }

    method ExpireAll(k: nat, ghost start: Run)
      requires Follows(start) && k < TIERS && phase == Expiring(k)
      modifies this
      ensures Follows(start) && phase == Expiring(k) && waiting == {}
    {
      hide TierList, After, Shape, ScanOne, Answered, Polled, Expired, FailWithDependents, AbortTasks;
      while waiting != {}
        invariant Follows(start) && phase == Expiring(k)
        decreases waiting
      {
        var x :| x in waiting;
        PendingIsRequested(View(), x);
        NextOnPath(cfg, start, log, View(), ExpireOne(x));
        ExpireComponent(k, x);
      }
    }

    /** Waits for the power states of a tier, for at most `rounds` rounds: a runner may
        be stopped at any point, and a negative deadline never expires. */
    method ConfirmTier(k: nat, rounds: nat, ghost start: Run) returns (outcome: Outcome)
      requires Follows(start) && k < TIERS && phase == Checking(k)
      modifies this
      ensures Follows(start) && phase == PhaseAfter(outcome, k)
    {
      hide TierList, Apply, Enabled, OnPath;
      for i := 0 to rounds
        invariant Follows(start) && phase == Checking(k)
      {
        Interference(start);
        var lost: bool := *;
        Passes(cfg, View(), k);
        if signaledAt.Some? && !lost {
          SeeSignal(start);
          return Stop;
        }
        Note(PassCheck(signaledAt.Some?), Polling(k, waiting), start);
        PollAll(k, start);
        var expired: bool := *;
        expired := waiting != {} && (cfg.deadline == 0 || (cfg.deadline > 0 && expired));
        EndsRound(cfg, View(), k, expired);
        Note(EndRound(expired), AfterRound(View(), k, expired), start);
        if expired {
          ExpireAll(k, start);
          EndsExpiry(cfg, View(), k);
          Note(EndExpiry, Boundary(k + 1), start);
          return Continue;
        }
        if waiting == {} {
          return Continue;
        }
      }
      outcome := Interrupted;
    }

    method SeeSignal(ghost start: Run)
      requires Follows(start) && Enabled(cfg, View(), SeeAbort)
      modifies this
      ensures Follows(start) && phase == Aborted
    {
      hide TierList, After, Shape, Apply, Enabled;
      NextOnPath(cfg, start, log, View(), SeeAbort);
      DoAbort();
    }

    /** One tier of the power sequence. */
    method RunTier(k: nat, rounds: nat, ghost start: Run) returns (outcome: Outcome)
      requires Follows(start) && k < TIERS && phase == Boundary(k)
      modifies this
      ensures Follows(start) && phase == PhaseAfter(outcome, k)
    {
      hide TierList, Apply, Enabled, OnPath;
      var compList := GatherTier(k);
      if compList == [] {
        Skips(cfg, View(), k);
        Note(SkipTier, Boundary(k + 1), start);
        return Continue;
      }
      Interference(start);
      var lost: bool := *;
      Passes(cfg, View(), k);
      if signaledAt.Some? && !lost {
        SeeSignal(start);
        return Stop;
      }
      Note(PassCheck(signaledAt.Some?), Reserving(k), start);
      CheckReservations(k, start);
      StartsScan(cfg, View(), k);
      Note(StartScan, Scanning(k, compList), start);
      SendAll(k, compList, start);
      EndsScan(cfg, View(), k);
      Note(EndScan, Responding(k), start);
      CollectAll(k, start);
      EndsResponses(cfg, View(), k);
      Note(EndResponses, AfterResponses(cfg, View(), k), start);
      outcome := Continue;
      if waiting != {} || cfg.deadline != 0 {
        outcome := ConfirmTier(k, rounds, start);
      }
    }

    /** The walk over the whole power sequence. */
    method RunTiers(rounds: nat) returns (ended: bool)
      requires Shape(View()) && phase == Boundary(0) && log == []
      modifies this
      ensures Follows(old(View()))
      ensures ended <==> phase in {Finished, Aborted}
    {
      hide TierList, After, Shape, ScanOne, Answered, Polled, Expired, AbortTasks, FailWithDependents;
      ghost var start := View();
      assert Follows(start) by { AfterNothing(cfg, start); }
      var k := 0;
      while k < TIERS
        invariant 0 <= k <= TIERS && Follows(start) && phase == Boundary(k)
      {
        var outcome := RunTier(k, rounds, start);
        if outcome != Continue {
          return outcome == Stop;
        }
        k := k + 1;
      }
      Note(Finish, Finished, start);
      ended := true;
    }

    method FailOneUnreserved(x: Xname, ghost start: Run)
      requires Follows(start) && phase == Boundary(0) && x in comps && Unfinished(comps[x].status)
      modifies this`comps, this`log
      ensures Follows(start) && View() == old(View()).(comps := comps) && OnlyFails(old(comps), comps)
      ensures x in comps && comps[x].status == TaskFailed
      ensures var compute, was := Parent(Parent(x)), old(comps)[x].operation;
              TypeOf(x) == Node && was in {OpSoftRestart, OpHardRestart, OpSoftOff, OpOff} && compute in comps ==>
                comps[compute].status == TaskFailed
    {
      hide TierList, FailWithDependents, After, Shape, TierAction, TypeOf, Parent;
      LossMeans(comps, x);
      var a := LossAction(comps[x]);
      NextOnPath(cfg, start, log, View(), LoseReservation(x, a));
      FailingOnlyFails(comps, a, x);
      FailComponent(a, x);
      log := log + [LoseReservation(x, a)];
    }

    /** Components without a reservation or a valid deputy key fail before the first tier. */
    method FailUnreserved(reservations: seq<Xname>, obtained: set<Xname>, ghost start: Run)
      requires Follows(start) && phase == Boundary(0)
      modifies this`comps, this`log
      ensures Follows(start) && View() == old(View()).(comps := comps) && OnlyFails(old(comps), comps)
      ensures forall x :: x in reservations && x !in obtained && x in comps ==> !Unfinished(comps[x].status)
    {
      hide TierList, FailWithDependents, OnPath, TierAction;
      for i := 0 to |reservations|
        invariant Follows(start) && OnlyFails(old(comps), comps)
        invariant View() == old(View()).(comps := comps)
        invariant forall j :: 0 <= j < i && reservations[j] !in obtained && reservations[j] in comps ==>
                    !Unfinished(comps[reservations[j]].status)
      {
        var x := reservations[i];
        if x !in obtained && x in comps && Unfinished(comps[x].status) {
          FailOneUnreserved(x, start);
        }
      }
    }

    /** Sequencing, reserving and the tiers.  `reserved` are the components with a reservation
        or a valid deputy key, `None` when the reservation service could not be asked.  The
        tiers are a run of the transition system from `start`, which is what sequencing made
        of the request. */
    method Execute(op: Operation, reserved: Option<set<Xname>>, rounds: nat)
      returns (hung: bool, ended: bool, ghost start: Run)
      requires Recognised(comps) && AsFound(op, comps)
      requires View() == Start(comps, map[], None) && log == [] && (cfg.softOff <==> op == OpSoftOff)
      modifies this
      ensures hung <==> exists x :: x in old(comps) && HangsOn(op, old(comps), x)
      ensures !hung ==> SequencedFrom(op, old(comps), start) && comps.Keys == old(comps).Keys
      ensures !hung ==> WorkListed(op, old(comps), start.comps, start.lists)
      ensures !hung && reserved.Some? ==>
                After(cfg, start, log) == Some(View()) && TraceHolds(cfg, start, log) && AllCommanded(start, View())
      ensures !hung ==> forall i, j :: 0 <= i < |trace| && 0 <= j < |trace| && PowerOrder(trace[i], trace[j]) ==> i < j
      ensures !hung && ended && phase == Finished && cfg.deadline != 0 ==>
                forall x :: x in old(comps) && ServedFor(op, old(comps), x) ==> !Unfinished(comps[x].status)
      ensures !hung && ended && phase != Finished ==> forall x :: x in comps ==> !Unfinished(comps[x].status)
      ensures !hung && (forall x :: x in old(comps) ==> !Unfinished(old(comps)[x].status)) ==>
                trace == [] && comps == old(comps)
      ensures !hung && cfg.deadline != 0 ==>
                forall x :: x in old(comps) && Carried(op, old(comps), x) && comps[x].status == TaskSucceeded ==>
                  SeenInGoal(op, old(comps), log, x)
      ensures !hung ==> forall x :: x in comps ==> Resumable(op, comps[x])
      ensures !hung && op == OpSoftOff ==> forall i :: 0 <= i < |trace| ==> trace[i].action != PowerAction.ForceOff
      ensures !hung && reserved.None? ==> ended && trace == []
      ensures !hung && reserved.Some? ==> forall i :: 0 <= i < |trace| ==> trace[i].x in reserved.value
    {
      hide ComponentsAfter, ListsAfter, ReservationsAfter, HangsOn, Recognised, Shape, After, ServedFor, PowerOrder,
           Carried, SeenInGoal, OnlyFails, TraceHolds, Resumable, WorkListed, AllCommanded;
      assert op != OpNil;
      hide AsFound;
      ghost var req := comps;
      ended := false;
      start := View();
      var reservations;
      hung, reservations := SequenceComponents(op);
      if !hung {
        start := View();
        if reserved.None? {
          RefuseAll(op, req);
          ended := true;
        } else {
          ended := RunReserved(op, reservations, reserved.value, rounds, req);
        }
      }
    }

    /** Reserving has failed: every unfinished task fails. */
    method RefuseAll(op: Operation, ghost req: Request)
      requires AsFound(op, req) && SequencedFrom(op, req, View()) && log == []
      modifies this`comps
      ensures comps == AbortTasks(old(comps)) && comps.Keys == req.Keys
      ensures forall x :: x in comps ==> !Unfinished(comps[x].status) && Resumable(op, comps[x])
      ensures (forall x :: x in req ==> !Unfinished(req[x].status)) ==> comps == req
      ensures cfg.deadline != 0 ==>
                forall x :: x in req && Carried(op, req, x) && comps[x].status == TaskSucceeded ==> SeenInGoal(op, req, log, x)
    {
      AfterNothing(cfg, View());
      RunResults(op, cfg, req, comps, lists, [], View());
      FailedStayResumable(op, comps);
      hide AsFound, SequencedFrom, Resumable, Carried, SeenInGoal, TraceHolds, ServedFor, PowerOrder, AllCommanded;
      FailUnfinished();
    }

    /** What follows when reserving has succeeded. */
    method RunReserved(op: Operation, reservations: seq<Xname>, reserved: set<Xname>, rounds: nat, ghost req: Request)
      returns (ended: bool)
      requires AsFound(op, req) && SequencedFrom(op, req, View()) && log == []
      requires ReservationsAfter(op, req, req.Keys, reservations)
      modifies this
      ensures After(cfg, old(View()), log) == Some(View()) && TraceHolds(cfg, old(View()), log)
      ensures AllCommanded(old(View()), View())
      ensures ended <==> phase in {Finished, Aborted}
      ensures comps.Keys == req.Keys
      ensures forall i, j :: 0 <= i < |trace| && 0 <= j < |trace| && PowerOrder(trace[i], trace[j]) ==> i < j
      ensures phase == Finished && cfg.deadline != 0 ==>
                forall x :: x in req && ServedFor(op, req, x) ==> !Unfinished(comps[x].status)
      ensures phase == Aborted ==> forall x :: x in comps ==> !Unfinished(comps[x].status)
      ensures (forall x :: x in req ==> !Unfinished(req[x].status)) ==> trace == [] && comps == req
      ensures cfg.deadline != 0 ==>
                forall x :: x in req && Carried(op, req, x) && comps[x].status == TaskSucceeded ==> SeenInGoal(op, req, log, x)
      ensures forall x :: x in comps ==> Resumable(op, comps[x])
      ensures op == OpSoftOff && cfg.softOff ==> forall i :: 0 <= i < |trace| ==> trace[i].action != PowerAction.ForceOff
      ensures forall i :: 0 <= i < |trace| ==> trace[i].x in reserved
    {
      hide ComponentsAfter, ListsAfter, ReservationsAfter, Shape, After, ServedFor, PowerOrder, Carried, SeenInGoal, OnlyFails,
           TraceHolds, Resumable, AsFound, AllCommanded;
      ghost var start := View();
      SequencingIsSequenced(op, req, comps, lists);
      StartHasShape(comps, lists, None);
      AfterNothing(cfg, start);
      FailUnreserved(reservations, reserved, start);
      ghost var before, mid := log, View();
      log := [];
      ended := RunTiers(rounds);
      AfterConcat(cfg, start, before, log);
      RunResults(op, cfg, req, start.comps, start.lists, before + log, View());
      NoCommandWithoutReservation(op, cfg, req, start.comps, start.lists, reservations, reserved, before, mid, log);
      log := before + log;
    }
  }

  ghost predicate SequencedFrom(op: Operation, req: Request, start: Run) {
    && start == Start(start.comps, start.lists, None)
    && ComponentsAfter(op, req, req.Keys, start.comps) && ListsAfter(op, req, req.Keys, start.lists)
  }

  lemma FailedStayResumable(op: Operation, req: Request)
    requires forall x :: x in req ==> Resumable(op, req[x])
    ensures forall x :: x in AbortTasks(req) ==> Resumable(op, AbortTasks(req)[x])
  {
    hide Issues;
  }

  lemma NothingSequenced(op: Operation, req: Request)
    ensures ComponentsAfter(op, req, {}, req) && ListsAfter(op, req, {}, map[]) && ReservationsAfter(op, req, {}, [])
  {
    hide TypeOf, QueuedFor, SequencedComponent, Reserves;
  }

  lemma ComponentReplaced(op: Operation, req: Request, done: set<Xname>, x: Xname, comps: Request)
    requires ComponentsAfter(op, req, done, comps) && x in req
    ensures ComponentsAfter(op, req, done + {x}, comps[x := SequencedComponent(op, req, x)])
  {
    hide SequencedComponent;
  }

  lemma AddedToReservations(op: Operation, req: Request, done: set<Xname>, x: Xname, res: seq<Xname>, res': seq<Xname>)
    requires ReservationsAfter(op, req, done, res) && x in req && x !in done
    requires res' == if Reserves(op, req, x) then res + [x] else res
    ensures ReservationsAfter(op, req, done + {x}, res')
  {
    hide Reserves;
  }

  lemma AddedToLists(op: Operation, req: Request, done: set<Xname>, x: Xname, actions: seq<PowerAction>, ls: Lists, ls': Lists)
    requires ListsAfter(op, req, done, ls) && x in req && x !in done && actions == QueuedFor(op, req, x)
    requires Extends(ls, ls', x, actions)
    ensures ListsAfter(op, req, done + {x}, ls')
  {
    hide TypeOf, ListOf, QueuedFor;
    forall a, t ensures NoDup(ListOf(ls', a, t)) {
      assert x !in ListOf(ls, a, t);
    }
  }
}
