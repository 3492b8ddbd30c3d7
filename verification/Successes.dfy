/** A run in which the hardware does all that it is told. */
module Successes {
  import opened Xnames
  import opened TransitionModel
  import opened Sequencing
  import opened TierRunner
  import opened TierShape
  import opened TierCounts
  import opened TierTraces
  import opened RunBuilding
  import opened Commands

  /** Every queued action has a tier and a payload, and the counters are right. */
  ghost predicate Feasible(comps: Request, ls: Lists) {
    && (forall x :: x in comps ==> Counted(comps, ls, x) && TierCounts.Served(ls, x))
    && (forall a, t, x :: x in ListOf(ls, a, t) ==> x in comps && TransitionPayload(x, comps[x], a).Some?)
  }

  /** The task at the boundary of tier `k` when all went well so far. */
  ghost predicate OnTrack(c0: Component, c: Component, due: nat, listings: nat) {
    && c.actions == c0.actions && c.rtsOutlet == c0.rtsOutlet
    && due <= listings && (due == listings ==> c == c0)
    && (due < listings ==> c.actionCount == due && c.state == Confirmed)
    && (due < listings ==> if due == 0 then c.status == TaskSucceeded else Unfinished(c.status))
  }

  ghost predicate AllOnTrack(comps: Request, ls: Lists, r: Run, k: nat) {
    && Calm(r, k) && r.lists == ls && r.comps.Keys == comps.Keys
    && forall y :: y in comps ==> OnTrack(comps[y], r.comps[y], ActionsDue(ls, k, y), Listings(ls, y))
  }

  lemma VisitStaysOnTrack(cfg: Config, c0: Component, c: Component, a: PowerAction, due: nat, listings: nat)
    requires cfg.deadline != 0 && OnTrack(c0, c, due, listings) && due > 0
    requires c0.actionCount == listings && Unfinished(c0.status)
    ensures c.status != TaskFailed
    ensures OnTrack(c0, Visited(cfg, c, a, true), due - 1, listings)
  {
  }

  lemma TierGoesWell(comps: Request, ls: Lists, r: Run, k: nat)
    requires Sequenced(comps, ls) && Feasible(comps, ls) && k < TIERS && AllOnTrack(comps, ls, r, k)
    ensures AllGo(r, TierList(ls, k), TierAction(k))
    ensures forall y :: y in TierList(ls, k) ==> y in comps && ActionsDue(ls, k, y) > 0 && Unfinished(comps[y].status)
  {
    TierListHas(comps, ls, k);
    hide TypeOf, ListOf, TierOf, TierAction, TierList, TransitionPayload, NoDup, ActionsDue, Listings, WellListed;
    forall y | y in TierList(ls, k)
      ensures y in r.comps && Goes(y, r.comps[y], TierAction(k)) && ActionsDue(ls, k, y) > 0 && Unfinished(comps[y].status)
    {
      SequencedIsWellFormed(comps, ls);
      ActionsDueStep(comps, ls, k, y);
      PayloadIgnoresTask(y, comps[y], r.comps[y], TierAction(k));
    }
  }

  lemma SequencedIsWellFormed(comps: Request, ls: Lists)
    requires Sequenced(comps, ls)
    ensures WellListed(comps, ls)
  {
  }

  lemma TierStaysOnTrack(cfg: Config, comps: Request, ls: Lists, r: Run, r': Run, k: nat)
    requires cfg.deadline != 0 && Sequenced(comps, ls) && Feasible(comps, ls) && k < TIERS && AllOnTrack(comps, ls, r, k)
    requires forall y :: y in TierList(ls, k) ==> y in comps && ActionsDue(ls, k, y) > 0 && Unfinished(comps[y].status)
    requires VisitedFrom(cfg, r, r', k, {}) && Calm(r', k + 1) && r'.lists == ls
    ensures AllOnTrack(comps, ls, r', k + 1)
  {
    SequencedIsWellFormed(comps, ls);
    hide TypeOf, ListOf, TierOf, TierAction, TierList, TransitionPayload, NoDup, ActionsDue, Listings, WellListed, Visited, OnTrack,
         Sequenced;
    forall y | y in comps ensures OnTrack(comps[y], r'.comps[y], ActionsDue(ls, k + 1, y), Listings(ls, y)) {
      ActionsDueStep(comps, ls, k, y);
      if y in TierList(ls, k) {
        assert Counted(comps, ls, y);
        VisitStaysOnTrack(cfg, comps[y], r.comps[y], TierAction(k), ActionsDue(ls, k, y), Listings(ls, y));
      }
    }
  }

  lemma {:induction false} RunsWell(cfg: Config, comps: Request, ls: Lists, k: nat) returns (log: seq<Event>, r: Run)
    requires cfg.deadline != 0 && Sequenced(comps, ls) && Feasible(comps, ls) && k <= TIERS
    ensures After(cfg, Start(comps, ls, None), log) == Some(r) && AllOnTrack(comps, ls, r, k)
  {
    var r0 := Start(comps, ls, None);
    if k == 0 {
      AfterNothing(cfg, r0);
      log, r := [], r0;
      StartsOnTrack(comps, ls);
    } else {
      hide After, Sequenced, Feasible, TierList, TierAction, TransitionPayload, VisitedFrom, AllGo, ActionsDue, ListOf;
      var m;
      log, m := RunsWell(cfg, comps, ls, k - 1);
      TierGoesWell(comps, ls, m, k - 1);
      log, r := ConfirmTier(cfg, r0, log, m, k - 1);
      TierStaysOnTrack(cfg, comps, ls, m, r, k - 1);
    }
  }

  lemma StartsOnTrack(comps: Request, ls: Lists)
    requires Feasible(comps, ls)
    ensures AllOnTrack(comps, ls, Start(comps, ls, None), 0)
  {
    hide TypeOf, ListOf, TierOf, TransitionPayload;
    forall y | y in comps ensures ActionsDue(ls, 0, y) == Listings(ls, y) {
      assert TierCounts.Served(ls, y);
    }
  }

  /** Every feasible request with a non-zero deadline has a run in which each queued task
      succeeds, having been sent all its commands, and each other task is left as it is. */
  lemma EverythingCanSucceed(cfg: Config, comps: Request, ls: Lists) returns (log: seq<Event>)
    requires cfg.deadline != 0 && Sequenced(comps, ls) && Feasible(comps, ls)
    requires forall x :: x in comps && comps[x].state == Waiting ==> exists a :: comps[x].operation == OpForAction(a)
    ensures After(cfg, Start(comps, ls, None), log).Some?
    ensures var r := After(cfg, Start(comps, ls, None), log).value;
            && r.phase == Finished && r.lists == ls && r.comps.Keys == comps.Keys
            && (forall x :: x in comps ==>
                  if Listings(ls, x) > 0 then r.comps[x].status == TaskSucceeded else r.comps[x] == comps[x])
            && (forall x, a :: x in comps && x in ListOf(ls, a, TypeOf(x)) ==> CommandSent(r, x, a) || SentBefore(comps, x, a))
  {
    var r0, r := Start(comps, ls, None), Start(comps, ls, None);
    log, r := RunsWell(cfg, comps, ls, TIERS);
    AfterSnoc(cfg, r0, log, Finish);
    log := log + [Finish];
    forall x | x in comps
      ensures if Listings(ls, x) > 0 then r.comps[x].status == TaskSucceeded else r.comps[x] == comps[x]
    {
      NothingDueAtTheEnd(ls, x);
      hide ListOf, TypeOf, ActionsDue;
    }
    forall x, a | x in comps && x in ListOf(ls, a, TypeOf(x))
      ensures CommandSent(r, x, a) || SentBefore(comps, x, a)
    {
      hide CommandSent, SentBefore, TypeOf, ListOf, ActionsDue, Sequenced, After;
      EveryCommandIsSent(cfg, comps, ls, None, log, x);
      assert Listings(ls, x) > 0 by { ListedCounts(ls, x, a); }
      assert TierCounts.Served(ls, x);
    }
  }

  lemma ListedCounts(ls: Lists, x: Xname, a: PowerAction)
    requires x in ListOf(ls, a, TypeOf(x))
    ensures Listings(ls, x) > 0
  {
    assert a.GracefulShutdown? || a.ForceOff? || a.GracefulRestart? || a.PowerUp?;
    hide ListOf, TypeOf;
  }
}
