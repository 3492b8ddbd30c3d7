/** Building runs: how a tier goes when every command in it is accepted. */
module RunBuilding {
  import opened Xnames
  import opened TransitionModel
  import opened Sequencing
  import opened TierRunner
  import opened TierShape

  lemma AfterSnoc(cfg: Config, r: Run, log: seq<Event>, e: Event)
    requires After(cfg, r, log).Some? && Enabled(cfg, After(cfg, r, log).value, e)
    ensures After(cfg, r, log + [e]) == Some(Apply(cfg, After(cfg, r, log).value, e))
  {
    hide Enabled, Apply;
    assert (log + [e])[..|log|] == log;
  }

  lemma AfterNothing(cfg: Config, r: Run)
    ensures After(cfg, r, []) == Some(r)
  {
  }

  lemma PayloadIgnoresTask(x: Xname, c: Component, d: Component, a: PowerAction)
    requires c.actions == d.actions && c.rtsOutlet == d.rtsOutlet
    ensures TransitionPayload(x, c, a) == TransitionPayload(x, d, a)
  {
  }

  // ----- One component in a tier --------------------------------------------------------------

  /** The command was sent by an earlier runner, and is only waited for. */
  predicate Awaited(c: Component, a: PowerAction) {
    c.state == Waiting && c.operation == OpForAction(a)
  }

  /** The component takes part in the tier. */
  predicate Goes(x: Xname, c: Component, a: PowerAction) {
    c.status != TaskFailed && (Awaited(c, a) || TransitionPayload(x, c, a).Some?)
  }

  function Scanned(c: Component, a: PowerAction): Component {
    if Awaited(c, a) then c else c.(state := Sending, operation := OpForAction(a))
  }

  /** The command was accepted. */
  function Accepted(cfg: Config, c: Component): Component {
    var n := c.actionCount - 1;
    if cfg.deadline == 0 then
      c.(actionCount := n, state := Confirmed, status := if n == 0 then TaskSucceeded else TaskInProgress)
    else c.(state := Waiting, status := TaskInProgress)
  }

  function Visited(cfg: Config, c: Component, a: PowerAction, confirmed: bool): Component {
    var d := if Awaited(c, a) then c else Accepted(cfg, Scanned(c, a));
    if confirmed then Confirm(d) else d
  }

  // ----- The parts of a tier --------------------------------------------------------------------

  ghost predicate ScannedFrom(r: Run, r': Run) {
    && r.phase.Scanning? && r.phase.k < TIERS && r'.phase == Responding(r.phase.k)
    && r'.lists == r.lists && r'.signaledAt == r.signaledAt && r'.comps.Keys == r.comps.Keys
    && (forall y :: y in r.comps ==>
          r'.comps[y] == if y in r.phase.todo then Scanned(r.comps[y], TierAction(r.phase.k)) else r.comps[y])
    && (forall y :: y in r'.inflight <==>
          y in r.inflight || (y in r.phase.todo && y in r.comps && !Awaited(r.comps[y], TierAction(r.phase.k))))
    && (forall y :: y in r'.waiting <==>
          y in r.waiting || (y in r.phase.todo && y in r.comps && Awaited(r.comps[y], TierAction(r.phase.k))))
  }

  ghost predicate AllGo(r: Run, l: seq<Xname>, a: PowerAction) {
    NoDup(l) && forall y :: y in l ==> y in r.comps && Goes(y, r.comps[y], a)
  }

  lemma {:induction false} ScanRest(cfg: Config, r0: Run, log: seq<Event>, r: Run) returns (log': seq<Event>, r': Run)
    requires After(cfg, r0, log) == Some(r) && r.phase.Scanning? && r.phase.k < TIERS
    requires AllGo(r, r.phase.todo, TierAction(r.phase.k))
    ensures After(cfg, r0, log') == Some(r') && ScannedFrom(r, r')
    decreases |r.phase.todo|
  {
    hide After, TierAction, TransitionPayload, TierList, NoDup;
    var todo := r.phase.todo;
    if todo == [] {
      AfterSnoc(cfg, r0, log, EndScan);
      log', r' := log + [EndScan], Apply(cfg, r, EndScan);
    } else {
      NoDupTail(todo);
      AfterSnoc(cfg, r0, log, ScanNext);
      var m := Apply(cfg, r, ScanNext);
      ScanOneGoes(cfg, r);
      log', r' := ScanRest(cfg, r0, log + [ScanNext], m);
      ScanJoins(r, m, r');
    }
  }

  /** One component of a tier that takes part. */
  lemma ScanOneGoes(cfg: Config, r: Run)
    requires r.phase.Scanning? && r.phase.k < TIERS && r.phase.todo != []
    requires AllGo(r, r.phase.todo, TierAction(r.phase.k))
    ensures var x, a, r' := r.phase.todo[0], TierAction(r.phase.k), ScanOne(r);
            && r'.phase == Scanning(r.phase.k, r.phase.todo[1..])
            && r'.lists == r.lists && r'.signaledAt == r.signaledAt
            && r'.comps == r.comps[x := Scanned(r.comps[x], a)]
            && r'.inflight == (if Awaited(r.comps[x], a) then r.inflight else r.inflight + {x})
            && r'.waiting == (if Awaited(r.comps[x], a) then r.waiting + {x} else r.waiting)
            && AllGo(r', r'.phase.todo, a)
  {
    NoDupTail(r.phase.todo);
    hide TierAction, TransitionPayload, FailWithDependents, NoDup;
    var x := r.phase.todo[0];
    assert r.comps[x := r.comps[x]] == r.comps;
  }

  lemma ScanJoins(r: Run, m: Run, r': Run)
    requires r.phase.Scanning? && r.phase.k < TIERS && r.phase.todo != [] && r.phase.todo[0] in r.comps
    requires NoDup(r.phase.todo)
    requires var x, a := r.phase.todo[0], TierAction(r.phase.k);
             && m.phase == Scanning(r.phase.k, r.phase.todo[1..]) && m.lists == r.lists && m.signaledAt == r.signaledAt
             && m.comps == r.comps[x := Scanned(r.comps[x], a)]
             && m.inflight == (if Awaited(r.comps[x], a) then r.inflight else r.inflight + {x})
             && m.waiting == (if Awaited(r.comps[x], a) then r.waiting + {x} else r.waiting)
    requires ScannedFrom(m, r')
    ensures ScannedFrom(r, r')
  {
    NoDupTail(r.phase.todo);
    hide TierAction, NoDup, Scanned;
  }

  ghost predicate AnsweredFrom(cfg: Config, r: Run, r': Run) {
    && r.phase.Responding? && r'.phase == r.phase && r'.inflight == {} && r'.waiting == r.waiting + r.inflight
    && r'.lists == r.lists && r'.signaledAt == r.signaledAt && r'.comps.Keys == r.comps.Keys
    && (forall y :: y in r.comps ==> r'.comps[y] == if y in r.inflight then Accepted(cfg, r.comps[y]) else r.comps[y])
  }

  lemma {:induction false} RespondRest(cfg: Config, r0: Run, log: seq<Event>, r: Run) returns (log': seq<Event>, r': Run)
    requires After(cfg, r0, log) == Some(r) && r.phase.Responding? && r.phase.k < TIERS
    requires r.inflight <= r.comps.Keys
    ensures After(cfg, r0, log') == Some(r') && AnsweredFrom(cfg, r, r')
    decreases r.inflight
  {
    hide After, TierAction, TierList, FailWithDependents;
    log', r' := log, r;
    SomeName(r.inflight);
    if r.inflight != {} {
      var y :| y in r.inflight;
      AfterSnoc(cfg, r0, log, Respond(y, true));
      var m := Apply(cfg, r, Respond(y, true));
      assert m.comps == r.comps[y := Accepted(cfg, r.comps[y])];
      log', r' := RespondRest(cfg, r0, log + [Respond(y, true)], m);
    }
  }

  ghost predicate PolledFrom(r: Run, r': Run, late: set<Xname>) {
    && r.phase.Polling? && r.phase.k < TIERS && r'.phase == Polling(r.phase.k, {}) && r'.inflight == r.inflight
    && r'.waiting == r.waiting - (r.phase.left - late)
    && r'.lists == r.lists && r'.signaledAt == r.signaledAt && r'.comps.Keys == r.comps.Keys
    && (forall y :: y in r.comps ==>
          r'.comps[y] == if y in r.phase.left && y !in late then Confirm(r.comps[y]) else r.comps[y])
  }

  /** A round in which all components but the late ones are seen in the end state. */
  lemma {:induction false} PollRest(cfg: Config, r0: Run, log: seq<Event>, r: Run, late: set<Xname>)
    returns (log': seq<Event>, r': Run)
    requires After(cfg, r0, log) == Some(r) && r.phase.Polling? && r.phase.k < TIERS
    requires r.phase.left <= r.comps.Keys && r.phase.left <= r.waiting
    ensures After(cfg, r0, log') == Some(r') && PolledFrom(r, r', late)
    decreases r.phase.left
  {
    hide After, TierAction, TierList, FailWithDependents, Confirm;
    log', r' := log, r;
    SomeName(r.phase.left);
    if r.phase.left != {} {
      var y :| y in r.phase.left;
      var e := PollOne(y, PollState(if y in late then PowerUndefined else EndState(TierAction(r.phase.k))));
      AfterSnoc(cfg, r0, log, e);
      var m := Apply(cfg, r, e);
      assert m.comps == if y in late then r.comps else r.comps[y := Confirm(r.comps[y])];
      log', r' := PollRest(cfg, r0, log + [e], m, late);
      PollJoins(r, m, r', late, y);
    }
  }

  lemma PollJoins(r: Run, m: Run, r': Run, late: set<Xname>, y: Xname)
    requires r.phase.Polling? && r.phase.k < TIERS && y in r.phase.left && y in r.comps
    requires r.phase.left <= r.waiting
    requires m == r.(phase := Polling(r.phase.k, r.phase.left - {y}), comps := m.comps,
                     waiting := if y in late then r.waiting else r.waiting - {y})
    requires m.comps == if y in late then r.comps else r.comps[y := Confirm(r.comps[y])]
    requires PolledFrom(m, r', late)
    ensures PolledFrom(r, r', late)
  {
    hide Confirm;
  }

  // ----- A whole tier ------------------------------------------------------------------------------

  /** The run stands at a tier boundary, with nothing under way and no abort signaled. */
  ghost predicate Calm(r: Run, k: nat) {
    k <= TIERS && r.phase == Boundary(k) && r.inflight == {} && r.waiting == {} && r.signaledAt.None?
  }

  /** Sends the commands of a tier. */
  lemma SendTier(cfg: Config, r0: Run, log: seq<Event>, r: Run, k: nat) returns (log': seq<Event>, r': Run)
    requires After(cfg, r0, log) == Some(r) && k < TIERS && Calm(r, k) && TierList(r.lists, k) != []
    requires AllGo(r, TierList(r.lists, k), TierAction(k))
    ensures After(cfg, r0, log') == Some(r')
    ensures ScannedFrom(r.(phase := Scanning(k, TierList(r.lists, k))), r')
  {
    hide After, TierAction, TierList, ScannedFrom, TransitionPayload, NoDup;
    AfterSnoc(cfg, r0, log, PassCheck(false));
    log' := log + [PassCheck(false)];
    AfterSnoc(cfg, r0, log', StartScan);
    log' := log' + [StartScan];
    log', r' := ScanRest(cfg, r0, log', r.(phase := Scanning(k, TierList(r.lists, k))));
  }

  /** Every component of the tier has been commanded or awaited, and all but the late ones
      were confirmed. */
  ghost predicate VisitedFrom(cfg: Config, r: Run, r': Run, k: nat, late: set<Xname>)
    requires k < TIERS
  {
    && r'.signaledAt == r.signaledAt && r'.comps.Keys == r.comps.Keys
    && (forall y :: y in r.comps ==>
          r'.comps[y] == if y in TierList(r.lists, k) then Visited(cfg, r.comps[y], TierAction(k), y !in late) else r.comps[y])
  }

  lemma SomeGo(r: Run, k: nat, r1: Run)
    requires k < TIERS && TierList(r.lists, k) != [] && AllGo(r, TierList(r.lists, k), TierAction(k)) && Calm(r, k)
    requires ScannedFrom(r.(phase := Scanning(k, TierList(r.lists, k))), r1)
    ensures forall y :: y in r1.inflight || y in r1.waiting <==> y in TierList(r.lists, k)
    ensures r1.inflight + r1.waiting != {} && r1.inflight <= r1.comps.Keys && r1.waiting <= r1.comps.Keys
    ensures r1.inflight !! r1.waiting
    ensures r1.phase == Responding(k) && r1.lists == r.lists && r1.signaledAt == r.signaledAt
  {
    hide TierAction, TierList, TransitionPayload, NoDup;
    var y := TierList(r.lists, k)[0];
    assert y in TierList(r.lists, k);
    assert y in r1.inflight + r1.waiting;
  }

  /** The first round of a tier, up to its last poll. */
  lemma PollTier(cfg: Config, r0: Run, log: seq<Event>, r: Run, k: nat, late: set<Xname>) returns (log': seq<Event>, r': Run)
    requires After(cfg, r0, log) == Some(r) && k < TIERS && Calm(r, k) && TierList(r.lists, k) != []
    requires AllGo(r, TierList(r.lists, k), TierAction(k))
    requires forall y :: y in late ==> y in TierList(r.lists, k)
    ensures After(cfg, r0, log') == Some(r')
    ensures r'.phase == Polling(k, {}) && r'.inflight == {} && r'.waiting == late && r'.lists == r.lists
    ensures VisitedFrom(cfg, r, r', k, late)
  {
    hide After, TierAction, TierList, TransitionPayload, NoDup, ScannedFrom, Confirm, Scanned, Accepted, AnsweredFrom, PolledFrom;
    var r1, r2;
    log', r1 := SendTier(cfg, r0, log, r, k);
    SomeGo(r, k, r1);
    log', r2 := RespondRest(cfg, r0, log', r1);
    AnsweredFacts(cfg, r1, r2);
    AfterSnoc(cfg, r0, log', EndResponses);
    log' := log' + [EndResponses];
    AfterSnoc(cfg, r0, log', PassCheck(false));
    log' := log' + [PassCheck(false)];
    var r3 := r2.(phase := Polling(k, r2.waiting));
    log', r' := PollRest(cfg, r0, log', r3, late);
    TierJoins(cfg, r, r1, r2, r3, r', k, late);
  }

  lemma AnsweredFacts(cfg: Config, r: Run, r': Run)
    requires AnsweredFrom(cfg, r, r')
    ensures r'.phase == r.phase && r'.inflight == {} && r'.waiting == r.waiting + r.inflight
    ensures r'.lists == r.lists && r'.signaledAt == r.signaledAt && r'.comps.Keys == r.comps.Keys
  {
  }

  lemma TierJoins(cfg: Config, r: Run, r1: Run, r2: Run, r3: Run, r4: Run, k: nat, late: set<Xname>)
    requires k < TIERS && Calm(r, k) && AllGo(r, TierList(r.lists, k), TierAction(k))
    requires ScannedFrom(r.(phase := Scanning(k, TierList(r.lists, k))), r1)
    requires forall y :: y in r1.inflight || y in r1.waiting <==> y in TierList(r.lists, k)
    requires AnsweredFrom(cfg, r1, r2) && r3 == r2.(phase := Polling(k, r2.waiting)) && PolledFrom(r3, r4, late)
    requires forall y :: y in late ==> y in TierList(r.lists, k)
    ensures r4.phase == Polling(k, {}) && r4.inflight == {} && r4.waiting == late && r4.lists == r.lists
    ensures VisitedFrom(cfg, r, r4, k, late)
  {
    hide TierAction, TierList, TransitionPayload, NoDup, Confirm, Scanned, Accepted;
    forall y | y in r.comps
      ensures r4.comps[y] == if y in TierList(r.lists, k) then Visited(cfg, r.comps[y], TierAction(k), y !in late) else r.comps[y]
    {
      JoinOne(cfg, r, r1, r2, r3, r4, k, late, y);
    }
  }

  lemma JoinOne(cfg: Config, r: Run, r1: Run, r2: Run, r3: Run, r4: Run, k: nat, late: set<Xname>, y: Xname)
    requires k < TIERS && Calm(r, k) && AllGo(r, TierList(r.lists, k), TierAction(k)) && y in r.comps
    requires ScannedFrom(r.(phase := Scanning(k, TierList(r.lists, k))), r1)
    requires AnsweredFrom(cfg, r1, r2) && r3 == r2.(phase := Polling(k, r2.waiting)) && PolledFrom(r3, r4, late)
    ensures y in r4.comps
    ensures r4.comps[y] == if y in TierList(r.lists, k) then Visited(cfg, r.comps[y], TierAction(k), y !in late) else r.comps[y]
  {
    ScannedAt(r.(phase := Scanning(k, TierList(r.lists, k))), r1, y);
    AnsweredAt(cfg, r1, r2, y);
    PolledAt(r3, r4, late, y);
    hide TierAction, TierList, TransitionPayload, NoDup, Confirm, Accepted, Goes, ScannedFrom, AnsweredFrom, PolledFrom;
  }

  lemma ScannedAt(r: Run, r': Run, y: Xname)
    requires ScannedFrom(r, r') && y in r.comps && r.inflight == r.waiting == {}
    ensures y in r'.comps && r'.comps[y] == if y in r.phase.todo then Scanned(r.comps[y], TierAction(r.phase.k)) else r.comps[y]
    ensures y in r'.inflight <==> y in r.phase.todo && !Awaited(r.comps[y], TierAction(r.phase.k))
    ensures y in r'.waiting <==> y in r.phase.todo && Awaited(r.comps[y], TierAction(r.phase.k))
  {
    hide TierAction, Scanned, Awaited;
  }

  lemma AnsweredAt(cfg: Config, r: Run, r': Run, y: Xname)
    requires AnsweredFrom(cfg, r, r') && y in r.comps
    ensures y in r'.comps && r'.comps[y] == if y in r.inflight then Accepted(cfg, r.comps[y]) else r.comps[y]
    ensures y in r'.waiting <==> y in r.waiting || y in r.inflight
  {
    hide Accepted;
  }

  lemma PolledAt(r: Run, r': Run, late: set<Xname>, y: Xname)
    requires PolledFrom(r, r', late) && y in r.comps
    ensures y in r'.comps && r'.comps[y] == if y in r.phase.left && y !in late then Confirm(r.comps[y]) else r.comps[y]
  {
    hide Confirm;
  }

  /** A tier in which everything is accepted and confirmed. */
  lemma ConfirmTier(cfg: Config, r0: Run, log: seq<Event>, r: Run, k: nat) returns (log': seq<Event>, r': Run)
    requires After(cfg, r0, log) == Some(r) && k < TIERS && Calm(r, k)
    requires AllGo(r, TierList(r.lists, k), TierAction(k))
    ensures After(cfg, r0, log') == Some(r') && Calm(r', k + 1) && r'.lists == r.lists && VisitedFrom(cfg, r, r', k, {})
  {
    hide After, TierAction, TierList, TransitionPayload, NoDup, Visited;
    if TierList(r.lists, k) == [] {
      AfterSnoc(cfg, r0, log, SkipTier);
      log', r' := log + [SkipTier], r.(phase := Boundary(k + 1));
    } else {
      log', r' := PollTier(cfg, r0, log, r, k, {});
      AfterSnoc(cfg, r0, log', EndRound(false));
      log', r' := log' + [EndRound(false)], r'.(phase := Boundary(k + 1));
    }
  }

  /** The same, but one component is late and is forced off by the next tier. */
  lemma EscalateTier(cfg: Config, r0: Run, log: seq<Event>, r: Run, k: nat, x: Xname) returns (log': seq<Event>, r': Run)
    requires After(cfg, r0, log) == Some(r) && k < TIERS && Calm(r, k) && cfg.deadline >= 0
    requires AllGo(r, TierList(r.lists, k), TierAction(k)) && x in TierList(r.lists, k)
    requires Escalates(cfg, r.comps[x], TierAction(k))
    ensures After(cfg, r0, log') == Some(r') && Calm(r', k + 1) && r'.lists == Append(r.lists, ForceOff, x)
    ensures VisitedFrom(cfg, r, r', k, {x})
  {
    hide After, TierAction, TierList, TransitionPayload, NoDup, Append;
    var m;
    log', m := PollTier(cfg, r0, log, r, k, {x});
    assert m.comps[x].actions == r.comps[x].actions;
    log', r' := ExpireOnly(cfg, r0, log', m, k, x);
  }

  lemma ExpireOnly(cfg: Config, r0: Run, log: seq<Event>, m: Run, k: nat, x: Xname) returns (log': seq<Event>, r': Run)
    requires After(cfg, r0, log) == Some(m) && k < TIERS && m.phase == Polling(k, {}) && m.inflight == {} && m.waiting == {x}
    requires x in m.comps && Escalates(cfg, m.comps[x], TierAction(k)) && cfg.deadline >= 0
    ensures After(cfg, r0, log') == Some(r')
    ensures r' == m.(phase := Boundary(k + 1), waiting := {}, lists := Append(m.lists, ForceOff, x),
                     escalated := m.escalated + {x})
  {
    hide After, TierAction, TierList, Append, Escalates, FailWithDependents;
    AfterSnoc(cfg, r0, log, EndRound(true));
    log' := log + [EndRound(true)];
    AfterSnoc(cfg, r0, log', ExpireOne(x));
    log' := log' + [ExpireOne(x)];
    AfterSnoc(cfg, r0, log', EndExpiry);
    log' := log' + [EndExpiry];
    r' := m.(phase := Boundary(k + 1), waiting := {}, lists := Append(m.lists, ForceOff, x), escalated := m.escalated + {x});
  }
}
