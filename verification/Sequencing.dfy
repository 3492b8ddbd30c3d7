/** Which actions a requested component needs, what is sent for each of them, and
    which operations a component advertises. */
module Sequencing {
  import opened Xnames
  import opened TransitionModel

  // ----- Reset types -------------------------------------------------------

  function LowerChar(c: char): char {
    if 'A' <= c <= 'Z' then c - 'A' + 'a' else c
  }

  function Lower(s: string): string {
    seq(|s|, i requires 0 <= i < |s| => LowerChar(s[i]))
  }

  /** Lower-cased reset types with their advertised spelling; a later entry wins. */
  function ActionMap(allowable: seq<string>): map<string, string> {
    if allowable == [] then map[]
    else
      var last := allowable[|allowable| - 1];
      ActionMap(allowable[..|allowable| - 1])[Lower(last) := last]
  }

  predicate CanTurnOff(actions: map<string, string>) {
    "off" in actions || "gracefulshutdown" in actions
  }

  predicate CanRestart(actions: map<string, string>) {
    "gracefulrestart" in actions || "forcerestart" in actions
  }

  predicate Advertises(actions: map<string, string>, op: Operation) {
    match op
    case OpNil => false
    case OpOn => "on" in actions
    case OpOff => CanTurnOff(actions)
    case OpSoftOff => CanTurnOff(actions)
    case OpForceOff => "forceoff" in actions
    case OpInit => "on" in actions && CanTurnOff(actions)
    case OpHardRestart => "on" in actions && CanTurnOff(actions)
    case OpSoftRestart => CanRestart(actions) || ("on" in actions && CanTurnOff(actions))
  }

  ghost predicate NoDup<T>(s: seq<T>) {
    forall i, j :: 0 <= i < j < |s| ==> s[i] != s[j]
  }

  lemma NoDupTail<T>(s: seq<T>)
    requires NoDup(s) && s != []
    ensures NoDup(s[1..]) && s[0] !in s[1..]
    ensures forall x :: x in s <==> x == s[0] || x in s[1..]
  {
    assert s == [s[0]] + s[1..];
  }

  /** The operations collected so far, without those that need both on and off. */
  ghost predicate Tallied(ops: seq<Operation>, seen: set<Operation>, actions: map<string, string>) {
    && NoDup(ops)
    && (forall op :: op in ops <==> op in seen)
    && (OpForceOff in seen <==> "forceoff" in actions)
    && (OpSoftRestart in seen <==> CanRestart(actions))
    && (OpSoftOff in seen <==> CanTurnOff(actions))
    && (OpOff in seen <==> CanTurnOff(actions))
    && (OpOn in seen <==> "on" in actions)
    && OpNil !in seen && OpInit !in seen && OpHardRestart !in seen
  }

  /** Translates the reset types of a component into the operations it supports. */
  method ToPCSPowerActions(rfPowerActions: seq<string>) returns (ops: seq<Operation>)
    ensures NoDup(ops)
    ensures forall op :: op in ops <==> Advertises(ActionMap(rfPowerActions), op)
  {
    ops := [];
    var seen: set<Operation> := {};
    for i := 0 to |rfPowerActions|
      invariant Tallied(ops, seen, ActionMap(rfPowerActions[..i]))
    {
      ops, seen := Tally(ops, seen, rfPowerActions[i], ActionMap(rfPowerActions[..i]));
      assert rfPowerActions[..i + 1][..i] == rfPowerActions[..i];
    }
    assert rfPowerActions[..|rfPowerActions|] == rfPowerActions;
    if OpOn in seen && OpOff in seen {
      ops, seen := AddOnce(ops, seen, OpInit);
      ops, seen := AddOnce(ops, seen, OpHardRestart);
      ops, seen := AddOnce(ops, seen, OpSoftRestart);
    }
  }

  method Tally(ops: seq<Operation>, seen: set<Operation>, rfAction: string, ghost actions: map<string, string>)
    returns (ops': seq<Operation>, seen': set<Operation>)
    requires Tallied(ops, seen, actions)
    ensures Tallied(ops', seen', actions[Lower(rfAction) := rfAction])
  {
    ops', seen' := ops, seen;
    var action := Lower(rfAction);
    if action == "forceoff" {
      ops', seen' := AddOnce(ops, seen, OpForceOff);
    } else if action == "forcerestart" || action == "gracefulrestart" {
      ops', seen' := AddOnce(ops, seen, OpSoftRestart);
    } else if action == "off" || action == "gracefulshutdown" {
      ops', seen' := AddOnce(ops, seen, OpSoftOff);
      ops', seen' := AddOnce(ops', seen', OpOff);
    } else if action == "on" {
      ops', seen' := AddOnce(ops, seen, OpOn);
    }
  }

  method AddOnce(ops: seq<Operation>, seen: set<Operation>, op: Operation)
    returns (ops': seq<Operation>, seen': set<Operation>)
    requires NoDup(ops) && forall o :: o in ops <==> o in seen
    ensures NoDup(ops') && forall o :: o in ops' <==> o in seen'
    ensures seen' == seen + {op}
  {
    ops', seen' := ops, seen;
    if op !in seen {
      ops', seen' := ops + [op], seen + {op};
    }
  }

  // ----- Payloads ----------------------------------------------------------

  datatype Payload =
    | OutletPayload(outlet: nat, status: string)
    | OutletStatePayload(powerState: string)
    | ResetPayload(resetType: string)

  function ResetTypeFor(actions: map<string, string>, a: PowerAction): Option<string> {
    if ActionKey(a) in actions then Some(actions[ActionKey(a)])
    else if a == GracefulShutdown && "off" in actions then Some(actions["off"])
    else if a == GracefulRestart && "forcerestart" in actions then Some(actions["forcerestart"])
    else None
  }

  /** The request body for an action, or `None` when the hardware has no reset type for it. */
  function TransitionPayload(x: Xname, c: Component, a: PowerAction): Option<Payload> {
    var resetType := ResetTypeFor(c.actions, a);
    if resetType.None? then None
    else if TypeOf(x) == CabinetPDUPowerConnector then
      if c.rtsOutlet then Some(OutletStatePayload(resetType.value))
      else Some(OutletPayload(x[|x| - 1].num, Lower(resetType.value)))
    else Some(ResetPayload(resetType.value))
  }

  predicate Offers(allowable: seq<string>, key: string) {
    exists i :: 0 <= i < |allowable| && Lower(allowable[i]) == key
  }

  /** Entry `i` is the last one that is a spelling of `key`. */
  predicate LastSpelling(allowable: seq<string>, key: string, i: nat) {
    i < |allowable| && Lower(allowable[i]) == key && forall j :: i < j < |allowable| ==> Lower(allowable[j]) != key
  }

  lemma {:induction false} ActionMapMeans(allowable: seq<string>, key: string)
    ensures key in ActionMap(allowable) <==> Offers(allowable, key)
    ensures key in ActionMap(allowable) ==>
              exists i :: 0 <= i < |allowable| && ActionMap(allowable)[key] == allowable[i] && LastSpelling(allowable, key, i)
  {
    if allowable != [] {
      var n := |allowable| - 1;
      ActionMapMeans(allowable[..n], key);
      if Offers(allowable[..n], key) {
        var i :| 0 <= i < n && Lower(allowable[..n][i]) == key;
        assert Lower(allowable[i]) == key;
      }
      if Lower(allowable[n]) == key {
        assert key in ActionMap(allowable) && LastSpelling(allowable, key, n);
      } else if key in ActionMap(allowable[..n]) {
        var i :| 0 <= i < n && ActionMap(allowable[..n])[key] == allowable[..n][i] && LastSpelling(allowable[..n], key, i);
        assert forall j :: i < j < n ==> allowable[..n][j] == allowable[j];
        assert LastSpelling(allowable, key, i);
      }
    }
  }

  /** The reset types that carry out an action, the preferred one and the one to fall back on. */
  function Preferred(a: PowerAction): string {
    match a
    case GracefulShutdown => "gracefulshutdown"
    case ForceOff => "forceoff"
    case GracefulRestart => "gracefulrestart"
    case PowerUp => "on"
  }

  function Fallback(a: PowerAction): string {
    match a
    case GracefulShutdown => "off"
    case ForceOff => "forceoff"
    case GracefulRestart => "forcerestart"
    case PowerUp => "on"
  }

  /** What is sent is a reset type that the component offers, in its own spelling, and the
      preferred one if it is offered; there is none exactly when neither is offered. */
  lemma SentResetType(allowable: seq<string>, a: PowerAction)
    ensures var r := ResetTypeFor(ActionMap(allowable), a);
            && (r.None? <==> !Offers(allowable, Preferred(a)) && !Offers(allowable, Fallback(a)))
            && (r.Some? ==> r.value in allowable)
            && (r.Some? ==> Lower(r.value) == if Offers(allowable, Preferred(a)) then Preferred(a) else Fallback(a))
  {
    ActionMapMeans(allowable, Preferred(a));
    ActionMapMeans(allowable, Fallback(a));
    hide ActionMap, Offers, Lower;
  }

  /** The form of the request: an outlet of a power unit is named by its number and switched in
      lower case, or by the reset type if its unit needs that; everything else is reset. */
  lemma PayloadForm(x: Xname, c: Component, a: PowerAction)
    requires TransitionPayload(x, c, a).Some?
    ensures var p, t := TransitionPayload(x, c, a).value, ResetTypeFor(c.actions, a).value;
            if TypeOf(x) != CabinetPDUPowerConnector then p == ResetPayload(t)
            else if c.rtsOutlet then p == OutletStatePayload(t)
            else p == OutletPayload(x[|x| - 1].num, Lower(t))
  {
  }

  // ----- The soft-restart ancestor walk -------------------------------------

  datatype Walk = At(id: Xname, supportsRestart: bool) | Stopped(supportsRestart: bool)

  /** One iteration of the loop that looks for a requested ancestor without a
      restart action.  A requested ancestor does not advance the loop. */
  function WalkStep(req: Request, w: Walk): Walk {
    match w
    case Stopped(_) => w
    case At(id, ok) =>
      if TypeOf(id) == Invalid then Stopped(ok)
      else if id in req then At(id, ok && CanRestart(req[id].actions))
      else At(Parent(id), ok)
  }

  function WalkAfter(req: Request, w: Walk, n: nat): Walk {
    if n == 0 then w else WalkStep(req, WalkAfter(req, w, n - 1))
  }

  ghost predicate Halts(req: Request, w: Walk) {
    exists n: nat :: WalkAfter(req, w, n).Stopped?
  }

  ghost predicate WalkStops(req: Request, x: Xname) {
    Halts(req, At(Parent(x), true))
  }

  ghost predicate AncestorRequested(req: Request, x: Xname) {
    exists a :: a in req && TypeOf(a) != Invalid && Ancestor(a, x)
  }

  lemma {:induction false} WalkAfterShift(req: Request, w: Walk, n: nat)
    ensures WalkAfter(req, w, n + 1) == WalkAfter(req, WalkStep(req, w), n)
  {
    if n > 0 {
      WalkAfterShift(req, w, n - 1);
    }
  }

  /** Once the loop sits on a requested ancestor it stays there. */
  lemma {:induction false} WalkStuck(req: Request, id: Xname, ok: bool, n: nat)
    requires TypeOf(id) != Invalid && id in req
    ensures WalkAfter(req, At(id, ok), n).At? && WalkAfter(req, At(id, ok), n).id == id
  {
    if n > 0 {
      WalkStuck(req, id, ok, n - 1);
    }
  }

  /** Taking one step changes neither whether the loop ends nor what it reports. */
  lemma HaltsShift(req: Request, w: Walk)
    requires w.At?
    ensures Halts(req, w) <==> Halts(req, WalkStep(req, w))
    ensures forall n: nat :: WalkAfter(req, w, n).Stopped? ==>
              n > 0 && WalkAfter(req, w, n) == WalkAfter(req, WalkStep(req, w), n - 1)
  {
    forall n: nat | WalkAfter(req, w, n).Stopped?
      ensures n > 0 && WalkAfter(req, w, n) == WalkAfter(req, WalkStep(req, w), n - 1)
    {
      if n > 0 {
        WalkAfterShift(req, w, n - 1);
      }
    }
    if n: nat :| WalkAfter(req, WalkStep(req, w), n).Stopped? {
      WalkAfterShift(req, w, n);
      assert WalkAfter(req, w, n + 1).Stopped?;
    }
  }

  ghost predicate OnOrAboveRequested(req: Request, id: Xname) {
    (id in req && TypeOf(id) != Invalid) || AncestorRequested(req, id)
  }

  /** From a position `id` the loop stops exactly when neither `id` nor an ancestor
      of it is requested, and what it reports is then what it started with. */
  lemma {:induction false} WalkFrom(req: Request, id: Xname, ok: bool)
    requires TypeOf(id) == Invalid ==> id == []
    ensures Halts(req, At(id, ok)) <==> !OnOrAboveRequested(req, id)
    ensures forall n: nat :: WalkAfter(req, At(id, ok), n).Stopped? ==>
              WalkAfter(req, At(id, ok), n).supportsRestart == ok
    decreases Depth(id)
  {
    var w := At(id, ok);
    HaltsShift(req, w);
    if TypeOf(id) == Invalid {
      assert WalkAfter(req, WalkStep(req, w), 0).Stopped?;
      forall n: nat ensures WalkAfter(req, w, n).supportsRestart == ok {
        WalkStopped(req, w, n);
      }
    } else if id in req {
      forall n: nat ensures !WalkAfter(req, w, n).Stopped? {
        WalkStuck(req, id, ok, n);
      }
    } else {
      RootParent(id);
      ParentIsShallower(id);
      WalkFrom(req, Parent(id), ok);
      AncestorsOneUp(req, id);
    }
  }

  lemma {:induction false} WalkStopped(req: Request, w: Walk, n: nat)
    requires w.At? && TypeOf(w.id) == Invalid
    ensures WalkAfter(req, w, n).supportsRestart == w.supportsRestart
    ensures n > 0 ==> WalkAfter(req, w, n).Stopped?
  {
    if n > 0 {
      WalkStopped(req, w, n - 1);
    }
  }

  lemma RootParent(id: Xname)
    requires TypeOf(id) != Invalid
    ensures TypeOf(Parent(id)) == Invalid ==> Parent(id) == []
  {
    ParentHasParentType(id);
  }

  lemma AncestorsOneUp(req: Request, id: Xname)
    requires id != []
    ensures AncestorRequested(req, id) <==> OnOrAboveRequested(req, Parent(id))
  {
    ParentIsShallower(id);
    if a :| a in req && TypeOf(a) != Invalid && Ancestor(a, id) {
      assert a == Parent(id) || Ancestor(a, Parent(id));
    }
    if Parent(id) in req && TypeOf(Parent(id)) != Invalid {
      assert Ancestor(Parent(id), id);
    }
    if a :| a in req && TypeOf(a) != Invalid && Ancestor(a, Parent(id)) {
      assert Ancestor(a, id);
    }
  }

  /** The walk terminates exactly when no proper ancestor of `x` is part of the
      request; it therefore never reports an ancestor that drops power. */
  lemma WalkTerminatesIff(req: Request, x: Xname)
    requires TypeOf(x) != Invalid
    ensures WalkStops(req, x) <==> !AncestorRequested(req, x)
    ensures forall n: nat :: WalkAfter(req, At(Parent(x), true), n).Stopped? ==>
              WalkAfter(req, At(Parent(x), true), n).supportsRestart
  {
    RootParent(x);
    ParentIsShallower(x);
    WalkFrom(req, Parent(x), true);
    AncestorsOneUp(req, x);
  }

  /** A node whose compute module is requested and can neither restart: the loop
      was meant to report that power drops, and instead never ends. */
  lemma WalkHangsOnRequestedModule(node: Xname, c: Component)
    requires TypeOf(node) == Node && !CanRestart(c.actions)
    ensures !WalkStops(map[Parent(Parent(node)) := c], node)
  {
    ParentHasParentType(node);
    ParentHasParentType(Parent(node));
    ParentIsShallower(node);
    ParentIsShallower(Parent(node));
    var req := map[Parent(Parent(node)) := c];
    assert Ancestor(Parent(Parent(node)), Parent(node));
    assert Ancestor(Parent(Parent(node)), node);
    WalkTerminatesIff(req, node);
  }

  /** The walk as a loop.  `hung` says that the original loop never ends. */
  method WalkAncestors(req: Request, x: Xname) returns (hung: bool, supportsRestart: bool)
    requires TypeOf(x) != Invalid
    ensures hung <==> !WalkStops(req, x)
    ensures !hung ==> supportsRestart
  {
    hung, supportsRestart := false, true;
    var id := Parent(x);
    RootParent(x);
    AncestorsOneUp(req, x);
    while TypeOf(id) != Invalid && !hung
      invariant TypeOf(id) == Invalid ==> id == []
      invariant AncestorRequested(req, x) <==> OnOrAboveRequested(req, id)
      invariant if hung then TypeOf(id) != Invalid && id in req else supportsRestart
      decreases Depth(id), !hung
    {
      RootParent(id);
      ParentIsShallower(id);
      AncestorsOneUp(req, id);
      if id in req {
        // The loop of the source repeats this test with the same `id` from here on.
        supportsRestart := supportsRestart && CanRestart(req[id].actions);
        hung := true;
      } else {
        id := Parent(id);
      }
    }
    WalkTerminatesIff(req, x);
  }

  // ----- Scheduling ---------------------------------------------------------

  /** A component after sequencing and the actions it was queued for. */
  datatype Scheduled = Scheduled(comp: Component, actions: seq<PowerAction>)

  function Queue(c: Component, actions: seq<PowerAction>): Scheduled {
    Scheduled(c.(actionCount := c.actionCount + |actions|), actions)
  }

  function Settle(c: Component, s: TaskStatus): Scheduled {
    Scheduled(c.(status := s), [])
  }

  predicate HasRestart(x: Xname, c: Component) {
    "gracefulrestart" in c.actions || (IsController(TypeOf(x)) && "forcerestart" in c.actions)
  }

  /** Decides, for an unfinished task, what the operation still requires. */
  function Schedule(op: Operation, x: Xname, c: Component, ancestorsRestart: bool): Scheduled
    requires Unfinished(c.status)
  {
    if op !in c.supported then Settle(c, TaskUnsupported)
    else match op
      case OpNil => Scheduled(c, [])
      case OpOn => if c.power == PowerOn then Settle(c, TaskSucceeded) else Queue(c, [PowerUp])
      case OpOff => if c.power == PowerOff then Settle(c, TaskSucceeded) else Queue(c, [GracefulShutdown])
      case OpSoftOff => if c.power == PowerOff then Settle(c, TaskSucceeded) else Queue(c, [GracefulShutdown])
      case OpForceOff => if c.power == PowerOff then Settle(c, TaskSucceeded) else Queue(c, [ForceOff])
      case OpSoftRestart => ScheduleSoftRestart(x, c, ancestorsRestart)
      case OpHardRestart => ScheduleHardRestart(c)
      case OpInit => ScheduleInit(c)
  }

  function ScheduleSoftRestart(x: Xname, c: Component, ancestorsRestart: bool): Scheduled
  {
    if c.power != PowerOn then
      if c.state == GatherData then Settle(c, TaskFailed)
      else if c.operation == OpOn then Queue(c, [PowerUp])
      else if c.operation in {OpOff, OpForceOff} then Queue(c.(state := Confirmed), [PowerUp])
      else Settle(c, TaskFailed)
    else if HasRestart(x, c) && ancestorsRestart then
      if c.state == Waiting then Settle(c, TaskSucceeded) else Queue(c, [GracefulRestart])
    else if IsController(TypeOf(x)) then Settle(c, TaskSucceeded)
    else if c.operation == OpOn then Settle(c, TaskSucceeded)
    else Queue(c, [GracefulShutdown, PowerUp])
  }

  function ScheduleHardRestart(c: Component): Scheduled {
    if c.power != PowerOn then
      if c.state == GatherData then Settle(c, TaskFailed)
      else if c.operation == OpOn then Queue(c, [PowerUp])
      else if c.operation in {OpOff, OpForceOff} then Queue(c.(state := Confirmed), [PowerUp])
      else Scheduled(c, [])
    else if c.operation == OpOn then Settle(c, TaskSucceeded)
    else Queue(c, [GracefulShutdown, PowerUp])
  }

  function ScheduleInit(c: Component): Scheduled {
    if c.power == PowerOn then
      if c.operation == OpOn || (c.operation in {OpOff, OpForceOff} && c.state == Confirmed) then
        Settle(c, TaskSucceeded)
      else if c.operation == OpForceOff then Queue(c, [ForceOff, PowerUp])
      else Queue(c, [GracefulShutdown, PowerUp])
    else
      Queue(if c.operation in {OpOff, OpForceOff} then c.(state := Confirmed) else c, [PowerUp])
  }

  /** The loop of the source never ends on this component. */
  ghost predicate HangsOn(op: Operation, req: Request, x: Xname)
    requires x in req
  {
    && Unfinished(req[x].status) && op in req[x].supported
    && op == OpSoftRestart && req[x].power == PowerOn && HasRestart(x, req[x])
    && !WalkStops(req, x)
  }

  /** The actions that sequencing can queue for an operation. */
  function Queueable(op: Operation): set<PowerAction> {
    match op
    case OpNil => {}
    case OpOn => {PowerUp}
    case OpOff => {GracefulShutdown}
    case OpSoftOff => {GracefulShutdown}
    case OpForceOff => {ForceOff}
    case OpSoftRestart => {GracefulRestart, GracefulShutdown, PowerUp}
    case OpHardRestart => {GracefulShutdown, PowerUp}
    case OpInit => {GracefulShutdown, ForceOff, PowerUp}
  }

  /** The action is one that a run of the operation can carry out; a shutdown may be
      followed by a force-off. */
  predicate Issues(op: Operation, a: PowerAction) {
    a in Queueable(op) || (a == ForceOff && GracefulShutdown in Queueable(op))
  }

  /** A task as a runner may find it: nothing was done yet, or its operation is that of an
      action that a run of the transition has issued. */
  predicate Resumable(op: Operation, c: Component) {
    c.state == GatherData || exists a :: Issues(op, a) && c.operation == OpForAction(a)
  }

  lemma ScheduleKeepsResumable(op: Operation, x: Xname, c: Component, ok: bool)
    requires Unfinished(c.status) && Resumable(op, c)
    ensures var s := Schedule(op, x, c, ok);
            && Resumable(op, s.comp)
            && forall a :: a in s.actions ==> a in Queueable(op)
  {
    var s := Schedule(op, x, c, ok);
    assert s.comp.operation == c.operation;
    if s.comp.state != c.state && op == OpInit && c.operation in {OpOff, OpForceOff} {
      assert Issues(op, GracefulShutdown) && OpForAction(GracefulShutdown) == OpOff;
      assert Issues(op, ForceOff) && OpForAction(ForceOff) == OpForceOff;
    }
  }

  /** A task that sequencing would leave unfinished with nothing queued: only an
      interrupted hard restart with an operation that no hard restart issues. */
  lemma UnfinishedIsQueued(op: Operation, x: Xname, c: Component)
    requires Unfinished(c.status) && op != OpNil
    ensures var s := Schedule(op, x, c, true);
            Unfinished(s.comp.status) && s.actions == [] <==>
            op == OpHardRestart && op in c.supported && c.power != PowerOn &&
            c.state != GatherData && c.operation !in {OpOn, OpOff, OpForceOff}
  {
  }

  /** No task that a runner may find is such. */
  lemma ResumableIsQueued(op: Operation, x: Xname, c: Component)
    requires Unfinished(c.status) && op != OpNil && Resumable(op, c)
    ensures var s := Schedule(op, x, c, true); Unfinished(s.comp.status) ==> s.actions != []
  {
    UnfinishedIsQueued(op, x, c);
  }

  /** The queued actions never repeat, and a restart is queued only alone. */
  lemma QueuedShape(op: Operation, x: Xname, c: Component, ok: bool)
    requires Unfinished(c.status)
    ensures var s := Schedule(op, x, c, ok);
            && NoDup(s.actions)
            && (s.actions != [] ==> s.comp.status == c.status)
            && s.comp.actionCount == c.actionCount + |s.actions|
            && (GracefulShutdown in s.actions ==> ForceOff !in s.actions)
  {
  }

  /** The power state that an operation is for. */
  function GoalOf(op: Operation): PowerState {
    if op in {OpOff, OpSoftOff, OpForceOff} then PowerOff else PowerOn
  }

  /** The queued actions end in the goal of the operation, a task is settled as succeeded
      only in the goal, and a new restart of a running component does restart it, unless
      it is a controller without a restart action. */
  lemma QueueLeadsToGoal(op: Operation, x: Xname, c: Component)
    requires Unfinished(c.status) && op != OpNil
    ensures var s := Schedule(op, x, c, true);
            && (s.actions != [] ==> (GoalOf(op) == PowerOn <==> PowerUp in s.actions || GracefulRestart in s.actions))
            && (s.comp.status == TaskSucceeded ==> c.power == GoalOf(op))
            && (op in {OpSoftRestart, OpHardRestart} && op in c.supported && c.power == PowerOn &&
                c.state == GatherData && c.operation == op ==>
                  || GracefulRestart in s.actions
                  || (GracefulShutdown in s.actions && PowerUp in s.actions)
                  || (IsController(TypeOf(x)) && !HasRestart(x, c)))
  {
  }

  /** The component is running and is to be restarted by way of off, and the off part is
      not behind it yet. */
  predicate GoesOffAndOn(op: Operation, x: Xname, c: Component) {
    && c.power == PowerOn && c.operation != OpOn
    && match op
       case OpSoftRestart => "gracefulrestart" !in c.actions && !IsController(TypeOf(x))
       case OpHardRestart => true
       case OpInit => !(c.operation in {OpOff, OpForceOff} && c.state == Confirmed)
       case _ => false
  }

  /** A restart was interrupted after its off part. */
  predicate ComesBackOn(op: Operation, c: Component) {
    && op in {OpSoftRestart, OpHardRestart} && c.power != PowerOn
    && c.state != GatherData && c.operation in {OpOn, OpOff, OpForceOff}
  }

  /** The operation requires action `a` of the component. */
  predicate Needs(op: Operation, x: Xname, c: Component, a: PowerAction) {
    match a
    case PowerUp => (op in {OpOn, OpInit} && c.power != PowerOn) || GoesOffAndOn(op, x, c) || ComesBackOn(op, c)
    case GracefulShutdown =>
      || (op in {OpOff, OpSoftOff} && c.power != PowerOff)
      || (GoesOffAndOn(op, x, c) && !(op == OpInit && c.operation == OpForceOff))
    case ForceOff =>
      || (op == OpForceOff && c.power != PowerOff)
      || (op == OpInit && GoesOffAndOn(op, x, c) && c.operation == OpForceOff)
    case GracefulRestart =>
      && op == OpSoftRestart && c.power == PowerOn && c.state != Waiting
      && ("gracefulrestart" in c.actions || (IsController(TypeOf(x)) && "forcerestart" in c.actions))
  }

  /** A restart of a component that is not on and was not switched off for it. */
  predicate CannotRestart(op: Operation, c: Component) {
    && op in {OpSoftRestart, OpHardRestart} && c.power != PowerOn
    && (c.state == GatherData || (op == OpSoftRestart && !ComesBackOn(op, c)))
  }

  /** Sequencing made `d` of an unfinished task `c` and queued it for the given actions:
      exactly the work that the operation still requires, and the right status. */
  ghost predicate WorkIsQueued(op: Operation, x: Xname, c: Component, d: Component, queued: set<PowerAction>) {
    var able := op in c.supported;
    var goal := if op in {OpOff, OpSoftOff, OpForceOff} then PowerOff else PowerOn;
    var back := able && op in {OpSoftRestart, OpHardRestart, OpInit} && c.power != PowerOn && PowerUp in queued;
    && (forall a :: a in queued <==> able && Needs(op, x, c, a))
    && (d.status == TaskUnsupported <==> !able)
    && (d.status == TaskFailed <==> able && CannotRestart(op, c))
    && (d.status == TaskSucceeded <==> able && queued == {} && c.power == goal)
    && (Unfinished(d.status) ==> d.status == c.status)
    && d == c.(status := d.status, actionCount := c.actionCount + |queued|,
               state := if back && c.operation in {OpOff, OpForceOff} then Confirmed else c.state)
  }

  function AsSet(actions: seq<PowerAction>): set<PowerAction> {
    set a | a in actions
  }

  lemma QueuedIfNeeded(op: Operation, x: Xname, c: Component, a: PowerAction)
    requires Unfinished(c.status) && op != OpNil
    ensures a in Schedule(op, x, c, true).actions <==> op in c.supported && Needs(op, x, c, a)
  {
    hide IsController;
  }

  lemma SettledRight(op: Operation, x: Xname, c: Component)
    requires Unfinished(c.status) && op != OpNil
    ensures var s := Schedule(op, x, c, true);
            && (s.comp.status == TaskUnsupported <==> op !in c.supported)
            && (s.comp.status == TaskFailed <==> op in c.supported && CannotRestart(op, c))
            && (s.comp.status == TaskSucceeded <==>
                  op in c.supported && s.actions == [] &&
                  c.power == if op in {OpOff, OpSoftOff, OpForceOff} then PowerOff else PowerOn)
            && (Unfinished(s.comp.status) ==> s.comp.status == c.status)
  {
    hide IsController;
  }

  lemma OnlyTaskChanges(op: Operation, x: Xname, c: Component)
    requires Unfinished(c.status) && op != OpNil
    ensures var s := Schedule(op, x, c, true);
            var back := op in c.supported && op in {OpSoftRestart, OpHardRestart, OpInit} && c.power != PowerOn && s.actions != [];
            s.comp == c.(status := s.comp.status, actionCount := c.actionCount + |s.actions|,
                         state := if back && c.operation in {OpOff, OpForceOff} then Confirmed else c.state)
  {
    hide IsController;
  }

  /** What an operation still requires is queued, and nothing else; and a task is settled as
      unsupported, failed or succeeded exactly when it should be. */
  lemma NeededWorkIsQueued(op: Operation, x: Xname, c: Component)
    requires Unfinished(c.status) && op != OpNil
    ensures var s := Schedule(op, x, c, true);
            WorkIsQueued(op, x, c, s.comp, AsSet(s.actions)) && |AsSet(s.actions)| == |s.actions|
  {
    var s := Schedule(op, x, c, true);
    QueuedShape(op, x, c, true);
    assert |s.actions| <= 2;
    ActionSets(s.actions);
    SettledRight(op, x, c);
    OnlyTaskChanges(op, x, c);
    forall a ensures a in AsSet(s.actions) <==> op in c.supported && Needs(op, x, c, a) {
      QueuedIfNeeded(op, x, c, a);
    }
    assert op in {OpSoftRestart, OpHardRestart, OpInit} && c.power != PowerOn && s.actions != [] ==> PowerUp in s.actions;
    hide AsSet, Schedule, Needs, CannotRestart;
  }

  lemma ActionSets(s: seq<PowerAction>)
    requires |s| <= 2 && (|s| == 2 ==> s[0] != s[1])
    ensures |AsSet(s)| == |s| && (s == [] <==> AsSet(s) == {}) && forall a :: a in AsSet(s) <==> a in s
  {
    if |s| == 0 {
      assert AsSet(s) == {};
    } else if |s| == 1 {
      assert AsSet(s) == {s[0]};
    } else {
      assert s == [s[0], s[1]];
      assert AsSet(s) == {s[0], s[1]};
    }
  }

  /** The operation recorded with a command is the one for which sequencing would queue just
      that action again, so that a later runner can tell what was sent. */
  lemma RecordedOperation(a: PowerAction, x: Xname, c: Component)
    requires Unfinished(c.status) && OpForAction(a) in c.supported
    requires a == GracefulRestart ==> c.power == PowerOn && "gracefulrestart" in c.actions && c.state != Waiting
    requires a != GracefulRestart ==> c.power != EndState(a)
    ensures Schedule(OpForAction(a), x, c, true).actions == [a]
  {
  }

  /** A graceful restart is confirmed by a state that already held when it was queued, so its
      success does not show that anything happened. */
  lemma RestartIsConfirmedByItsStart(op: Operation, x: Xname, c: Component)
    requires Unfinished(c.status) && GracefulRestart in Schedule(op, x, c, true).actions
    ensures Schedule(op, x, c, true).actions == [GracefulRestart] && c.power == EndState(GracefulRestart)
  {
  }

  /** The ways in which a new task can carry an operation out. */
  function Ways(op: Operation): seq<seq<PowerAction>> {
    match op
    case OpNil => []
    case OpOn => [[PowerUp]]
    case OpOff => [[GracefulShutdown]]
    case OpSoftOff => [[GracefulShutdown]]
    case OpForceOff => [[ForceOff]]
    case OpInit => [[GracefulShutdown, PowerUp]]
    case OpHardRestart => [[GracefulShutdown, PowerUp]]
    case OpSoftRestart => [[GracefulRestart], [GracefulShutdown, PowerUp]]
  }

  predicate CanDo(actions: map<string, string>, way: seq<PowerAction>) {
    forall a :: a in way ==> ResetTypeFor(actions, a).Some?
  }

  /** A component advertises an operation exactly when it has the reset types for one way of
      carrying it out. */
  lemma AdvertisedIffPossible(actions: map<string, string>, op: Operation)
    ensures Advertises(actions, op) <==> exists i :: 0 <= i < |Ways(op)| && CanDo(actions, Ways(op)[i])
  {
    match op
    case OpNil =>
    case OpOn => assert CanDo(actions, Ways(op)[0]) <==> ResetTypeFor(actions, PowerUp).Some? by { assert PowerUp in Ways(op)[0]; }
    case OpOff => assert GracefulShutdown in Ways(op)[0];
    case OpSoftOff => assert GracefulShutdown in Ways(op)[0];
    case OpForceOff => assert ForceOff in Ways(op)[0];
    case OpInit => assert GracefulShutdown in Ways(op)[0] && PowerUp in Ways(op)[0];
    case OpHardRestart => assert GracefulShutdown in Ways(op)[0] && PowerUp in Ways(op)[0];
    case OpSoftRestart =>
      assert GracefulRestart in Ways(op)[0] && GracefulShutdown in Ways(op)[1] && PowerUp in Ways(op)[1];
      assert CanDo(actions, Ways(op)[0]) <==> ResetTypeFor(actions, GracefulRestart).Some?;
      assert CanDo(actions, Ways(op)[1]) <==> ResetTypeFor(actions, GracefulShutdown).Some? && ResetTypeFor(actions, PowerUp).Some?;
  }

  /** The loop of the source hangs exactly on the soft restart of a running component with a
      restart action of its own and an ancestor in the request. */
  lemma HangsOnIff(op: Operation, req: Request, x: Xname)
    requires x in req && TypeOf(x) != Invalid
    ensures HangsOn(op, req, x) <==>
            && Unfinished(req[x].status) && op == OpSoftRestart && op in req[x].supported && req[x].power == PowerOn
            && ("gracefulrestart" in req[x].actions || (IsController(TypeOf(x)) && "forcerestart" in req[x].actions))
            && exists a :: a in req && TypeOf(a) != Invalid && Ancestor(a, x)
  {
    WalkTerminatesIff(req, x);
  }

  // ----- Advertised implies dispatchable -------------------------------------

  /** A component as a new task for `op` sees it. */
  predicate Fresh(op: Operation, c: Component, allowable: seq<string>) {
    && c.status == TaskNew && c.state == GatherData && c.operation == op
    && c.actions == ActionMap(allowable)
  }

  /** A soft restart that is carried out as off followed by on. */
  predicate Diverted(op: Operation, x: Xname, c: Component) {
    op == OpSoftRestart && c.power == PowerOn && !HasRestart(x, c) && !IsController(TypeOf(x))
  }

  /** Every action queued for an advertised operation has a payload, except when a
      soft restart is diverted on hardware that lacks an off or an on action. */
  lemma AdvertisedIsDispatchable(op: Operation, x: Xname, c: Component, allowable: seq<string>)
    requires Fresh(op, c, allowable) && op in c.supported
    requires Advertises(ActionMap(allowable), op)
    ensures (forall a :: a in Schedule(op, x, c, true).actions ==> TransitionPayload(x, c, a).Some?) <==>
            !(Diverted(op, x, c) && !("on" in c.actions && CanTurnOff(c.actions)))
  {
    var s := Schedule(op, x, c, true);
    if Diverted(op, x, c) {
      assert s.actions == [GracefulShutdown, PowerUp];
      assert GracefulShutdown in s.actions && PowerUp in s.actions;
    }
  }

  /** A node that only advertises ForceRestart offers a soft restart that it then
      cannot carry out. */
  lemma ForceRestartOnlyNode(x: Xname, c: Component)
    requires TypeOf(x) == Node && c.power == PowerOn && OpSoftRestart in c.supported
    requires Fresh(OpSoftRestart, c, ["ForceRestart"])
    ensures Advertises(c.actions, OpSoftRestart)
    ensures TransitionPayload(x, c, GracefulShutdown).None?
    ensures GracefulShutdown in Schedule(OpSoftRestart, x, c, true).actions
  {
    assert Lower("ForceRestart") == "forcerestart";
    assert ["ForceRestart"][..0] == [];
    assert c.actions == map["forcerestart" := "ForceRestart"];
  }
}
