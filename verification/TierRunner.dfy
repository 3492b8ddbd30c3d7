/** The transition runner: the walk over the power sequence as a transition system.

    A `Run` is the state of one runner; an `Event` is one atomic thing that happens
    to it, either its own next statement or an answer from Redfish, the status
    store, the reservation service, the clock or the transition record. */
module TierRunner {
  import opened Xnames
  import opened TransitionModel
  import opened Sequencing

  // ----- Tier lists -----------------------------------------------------------

  /** Components queued for an action, by hardware type. */
  type Lists = map<(PowerAction, HMSType), seq<Xname>>

  function ListOf(ls: Lists, a: PowerAction, t: HMSType): seq<Xname> {
    if (a, t) in ls then ls[(a, t)] else []
  }

  function Append(ls: Lists, a: PowerAction, x: Xname): Lists {
    ls[(a, TypeOf(x)) := ListOf(ls, a, TypeOf(x)) + [x]]
  }

  function Gather(ls: Lists, a: PowerAction, types: seq<HMSType>): seq<Xname> {
    if types == [] then [] else ListOf(ls, a, types[0]) + Gather(ls, a, types[1..])
  }

  function TierList(ls: Lists, k: nat): seq<Xname>
    requires k < TIERS
  {
    Gather(ls, TierAction(k), TierTypes(k))
  }

  // ----- Dependent components ---------------------------------------------------

  function Fail(req: Request, x: Xname): Request {
    if x in req then req[x := req[x].(status := TaskFailed)] else req
  }

  /** Some supply that is on is not part of the request. */
  predicate OutsideSupplyOn(req: Request, supplies: seq<PowerSupply>) {
    exists i :: 0 <= i < |supplies| && supplies[i].state == PowerOn && supplies[i].id !in req
  }

  function LastSupplyOn(supplies: seq<PowerSupply>): Option<Xname> {
    if supplies == [] then None
    else
      var last := supplies[|supplies| - 1];
      if last.state == PowerOn then Some(last.id) else LastSupplyOn(supplies[..|supplies| - 1])
  }

  /** The supply to keep on for `x`: none if an outside supply is on. */
  function SupplyToFail(req: Request, x: Xname): Option<Xname> {
    if x !in req || OutsideSupplyOn(req, req[x].supplies) || LastSupplyOn(req[x].supplies) == Some([]) then None
    else LastSupplyOn(req[x].supplies)
  }

  /** Effect of a failed action on the components that depend on it. */
  function FailDependents(req: Request, a: PowerAction, x: Xname): Request {
    if a == GracefulShutdown && TypeOf(x) == Node then
      var failed := Fail(req, Parent(Parent(x)));
      var supply := SupplyToFail(req, x);
      if supply.Some? then Fail(failed, supply.value) else failed
    else req
  }

  function FailWithDependents(req: Request, a: PowerAction, x: Xname): Request {
    FailDependents(Fail(req, x), a, x)
  }

  /** What an abort does to the tasks. */
  function AbortTasks(req: Request): Request {
    map x | x in req :: if Unfinished(req[x].status) then req[x].(status := TaskFailed) else req[x]
  }

  // ----- The transition system ---------------------------------------------------

  datatype Config = Config(deadline: int, softOff: bool)

  datatype Command = Command(tier: nat, action: PowerAction, x: Xname)

  datatype Visit = Visit(tier: nat, x: Xname)

  datatype Phase =
    | Boundary(k: nat)                       // about to run tier k
    | Reserving(k: nat)                      // abort check passed, checking reservations
    | Scanning(k: nat, todo: seq<Xname>)     // building and sending the requests
    | Responding(k: nat)                     // collecting the answers
    | Checking(k: nat)                       // top of the confirmation loop
    | Polling(k: nat, left: set<Xname>) // one round over the unconfirmed components
    | Expiring(k: nat)                       // the deadline has passed
    | Finished
    | Aborted

  datatype Run = Run(
    comps: Request,
    lists: Lists,
    phase: Phase,
    inflight: set<Xname>,
    waiting: set<Xname>,
    signaledAt: Option<nat>,  // length of the trace when the abort was signaled
    trace: seq<Command>,
    visits: seq<Visit>,
    escalated: set<Xname>)

  datatype Answer = PollError | PollState(power: PowerState)

  datatype Event =
    | SignalAbort
    | SkipTier
    | SeeAbort
    | PassCheck(lost: bool)   // lost: a storage error hid the state of the record
    | LoseReservation(x: Xname, action: PowerAction)  // before the first tier, or when a tier checks
    | StartScan
    | ScanNext
    | EndScan
    | Respond(x: Xname, ok: bool)
    | EndResponses
    | PollOne(x: Xname, answer: Answer)
    | EndRound(expired: bool)
    | ExpireOne(x: Xname)
    | EndExpiry
    | Finish

  predicate InTier(p: Phase) {
    p.Reserving? || p.Scanning? || p.Responding? || p.Checking? || p.Polling? || p.Expiring?
  }

  predicate Placed(p: Phase) {
    (p.Boundary? ==> p.k <= TIERS) && (InTier(p) ==> p.k < TIERS)
  }

  predicate Escalates(cfg: Config, c: Component, a: PowerAction) {
    a == GracefulShutdown && !cfg.softOff && "forceoff" in c.actions
  }

  predicate Enabled(cfg: Config, r: Run, e: Event) {
    Placed(r.phase) &&
    match e
    case SignalAbort => r.signaledAt.None?
    case SkipTier => r.phase.Boundary? && r.phase.k < TIERS && TierList(r.lists, r.phase.k) == []
    case SeeAbort =>
      && r.signaledAt.Some?
      && (r.phase.Checking? || (r.phase.Boundary? && r.phase.k < TIERS && TierList(r.lists, r.phase.k) != []))
    case PassCheck(lost) =>
      && (r.signaledAt.None? || lost)
      && (r.phase.Checking? || (r.phase.Boundary? && r.phase.k < TIERS && TierList(r.lists, r.phase.k) != []))
    case LoseReservation(x, a) =>
      && x in r.comps && Unfinished(r.comps[x].status)
      && (r.phase == Boundary(0) || (r.phase.Reserving? && a == TierAction(r.phase.k)))
    case StartScan => r.phase.Reserving?
    case ScanNext => r.phase.Scanning? && r.phase.todo != [] && r.phase.todo[0] in r.comps
    case EndScan => r.phase.Scanning? && r.phase.todo == []
    case Respond(x, _) => r.phase.Responding? && x in r.inflight && x in r.comps
    case EndResponses => r.phase.Responding? && r.inflight == {}
    case PollOne(x, _) => r.phase.Polling? && x in r.phase.left && x in r.comps
    case EndRound(expired) =>
      && r.phase.Polling? && r.phase.left == {}
      && (expired ==> r.waiting != {} && cfg.deadline >= 0)
      && (!expired ==> r.waiting == {} || cfg.deadline != 0)
    case ExpireOne(x) => r.phase.Expiring? && x in r.waiting && x in r.comps
    case EndExpiry => r.phase.Expiring? && r.waiting == {}
    case Finish => r.phase == Boundary(TIERS)
  }

  function ScanOne(r: Run): Run
    requires r.phase.Scanning? && r.phase.k < TIERS && r.phase.todo != [] && r.phase.todo[0] in r.comps
  {
    var k, x, a := r.phase.k, r.phase.todo[0], TierAction(r.phase.k);
    var c := r.comps[x];
    var r' := r.(phase := Scanning(k, r.phase.todo[1..]), visits := r.visits + [Visit(k, x)]);
    if c.status == TaskFailed then r'
    else if c.state == Waiting && c.operation == OpForAction(a) then r'.(waiting := r.waiting + {x})
    else if TransitionPayload(x, c, a).None? then r'.(comps := FailWithDependents(r.comps, a, x))
    else r'.(comps := r.comps[x := c.(state := Sending, operation := OpForAction(a))],
             inflight := r.inflight + {x},
             trace := r.trace + [Command(k, a, x)])
  }

  function Answered(cfg: Config, r: Run, x: Xname, ok: bool): Run
    requires r.phase.Responding? && r.phase.k < TIERS && x in r.comps
  {
    var c, a := r.comps[x], TierAction(r.phase.k);
    var r' := r.(inflight := r.inflight - {x});
    if !ok then r'.(comps := FailWithDependents(r.comps, a, x))
    else if cfg.deadline == 0 then
      var n := c.actionCount - 1;
      r'.(comps := r.comps[x := c.(actionCount := n, state := Confirmed,
                                   status := if n == 0 then TaskSucceeded else TaskInProgress)],
          waiting := r.waiting + {x})
    else
      r'.(comps := r.comps[x := c.(state := Waiting, status := TaskInProgress)],
          waiting := r.waiting + {x})
  }

  function Confirm(c: Component): Component {
    var n := c.actionCount - 1;
    c.(actionCount := n, state := Confirmed, status := if n == 0 then TaskSucceeded else c.status)
  }

  function Polled(r: Run, x: Xname, answer: Answer): Run
    requires r.phase.Polling? && r.phase.k < TIERS && x in r.comps
  {
    var a := TierAction(r.phase.k);
    var r' := r.(phase := Polling(r.phase.k, r.phase.left - {x}));
    if answer.PollError? then
      r'.(comps := FailWithDependents(r.comps, a, x), waiting := r.waiting - {x})
    else if answer.power == EndState(a) then
      r'.(comps := r.comps[x := Confirm(r.comps[x])], waiting := r.waiting - {x})
    else r'
  }

  function Expired(cfg: Config, r: Run, x: Xname): Run
    requires r.phase.Expiring? && r.phase.k < TIERS && x in r.comps
  {
    var a := TierAction(r.phase.k);
    var r' := r.(waiting := r.waiting - {x});
    if Escalates(cfg, r.comps[x], a) then
      r'.(lists := Append(r.lists, ForceOff, x), escalated := r.escalated + {x})
    else r'.(comps := FailWithDependents(r.comps, a, x))
  }

  function Apply(cfg: Config, r: Run, e: Event): Run
    requires Enabled(cfg, r, e)
  {
    match e
    case SignalAbort => r.(signaledAt := Some(|r.trace|))
    case SkipTier => r.(phase := Boundary(r.phase.k + 1))
    case SeeAbort =>
      r.(phase := Aborted, comps := AbortTasks(r.comps), inflight := {}, waiting := {})
    case PassCheck(_) =>
      r.(phase := if r.phase.Checking? then Polling(r.phase.k, r.waiting) else Reserving(r.phase.k))
    case LoseReservation(x, a) => r.(comps := FailWithDependents(r.comps, a, x))
    case StartScan => r.(phase := Scanning(r.phase.k, TierList(r.lists, r.phase.k)))
    case ScanNext => ScanOne(r)
    case EndScan => r.(phase := Responding(r.phase.k))
    case Respond(x, ok) => Answered(cfg, r, x, ok)
    case EndResponses =>
      r.(phase := if r.waiting == {} && cfg.deadline == 0 then Boundary(r.phase.k + 1)
                  else Checking(r.phase.k))
    case PollOne(x, answer) => Polled(r, x, answer)
    case EndRound(expired) =>
      r.(phase := if expired then Expiring(r.phase.k)
                  else if r.waiting == {} then Boundary(r.phase.k + 1)
                  else Checking(r.phase.k))
    case ExpireOne(x) => Expired(cfg, r, x)
    case EndExpiry => r.(phase := Boundary(r.phase.k + 1))
    case Finish => r.(phase := Finished)
  }

  /** The run after a log of events, `None` if the log is not a possible one. */
  function After(cfg: Config, r: Run, log: seq<Event>): Option<Run> {
    if log == [] then Some(r)
    else
      var mid := After(cfg, r, log[..|log| - 1]);
      if mid.Some? && Enabled(cfg, mid.value, log[|log| - 1]) then
        Some(Apply(cfg, mid.value, log[|log| - 1]))
      else None
  }
}
