/** The cached hardware states of the power-status master and their copies in the store. */
module StatusCache {
  import opened Xnames
  import opened TransitionModel
  import opened Sequencing

  datatype MgmtState = MgmtAvailable | MgmtUnavailable | MgmtUndefined

  datatype Status = Status(power: PowerState, mgmt: MgmtState, error: string,
                           transitions: set<Operation>, updated: int)

  /** What HSM reports about a component. */
  datatype HsmComponent = HsmComponent(typ: HMSType, isEmpty: bool, allowable: seq<string>)

  /** One component as the master remembers it and as the store has it. */
  datatype Cell = Cell(cached: Option<Status>, stored: Option<Status>)

  datatype State = State(cache: map<Xname, Status>, store: map<Xname, Status>)

  /** A refresh from HSM or a reading of the hardware; writes and deletes for the
      components in `failing` do not reach the store. */
  datatype Event =
    | Refresh(comps: map<Xname, HsmComponent>, now: int, failing: set<Xname>)
    | Reading(x: Xname, power: PowerState, mgmt: MgmtState, error: string, now: int, failing: set<Xname>)

  function Lookup<K, V>(m: map<K, V>, k: K): Option<V> {
    if k in m then Some(m[k]) else None
  }

  function CellOf(s: State, x: Xname): Cell {
    Cell(Lookup(s.cache, x), Lookup(s.store, x))
  }

  predicate Monitored(h: HsmComponent) {
    && !h.isEmpty
    && h.typ in {Chassis, ChassisBMC, ComputeModule, RouterModule, NodeBMC, RouterBMC, Node,
                 MgmtSwitch, MgmtHLSwitch, CDUMgmtSwitch, CabinetPDUPowerConnector}
  }

  ghost function Supported(allowable: seq<string>): set<Operation> {
    set op: Operation | Advertises(ActionMap(allowable), op)
  }

  // ----- Steps of one component ---------------------------------------------------------------

  function Observed(c: Cell, p: PowerState, m: MgmtState, error: string, now: int, ok: bool): Cell {
    if c.cached.None? || (c.cached.value.power == p && c.cached.value.mgmt == m) then c
    else
      var s := c.cached.value.(power := p, mgmt := m, error := error, updated := now);
      Cell(Some(s), if ok then Some(s) else c.stored)
  }

  /** A controller that had no transitions and now has reset types. */
  predicate GainsActions(c: Cell, h: HsmComponent) {
    c.cached.Some? && h.typ == NodeBMC && c.cached.value.transitions == {} && h.allowable != []
  }

  ghost function Refreshed(c: Cell, h: Option<HsmComponent>, now: int, ok: bool): Cell {
    if h.None? then
      if c.cached.None? then c else Cell(None, if ok then None else c.stored)
    else if !Monitored(h.value) then c
    else if c.cached.None? then
      Cell(Some(Status(PowerUndefined, MgmtUnavailable, "", Supported(h.value.allowable), now)), c.stored)
    else if GainsActions(c, h.value) then
      Observed(c.(cached := Some(c.cached.value.(transitions := Supported(h.value.allowable)))),
               PowerUndefined, MgmtUndefined, "", now, ok)
    else c
  }

  /** An empty answer from HSM is an error and changes nothing. */
  ghost function CellStep(c: Cell, e: Event, x: Xname): Cell {
    match e
    case Refresh(comps, now, failing) =>
      if comps == map[] then c else Refreshed(c, Lookup(comps, x), now, x !in failing)
    case Reading(y, p, m, error, now, failing) =>
      if x == y then Observed(c, p, m, error, now, x !in failing) else c
  }

  ghost predicate Step(s: State, e: Event, s': State) {
    forall x :: CellOf(s', x) == CellStep(CellOf(s, x), e, x)
  }

  /** The states a master goes through; `events[i]` leads from `states[i]` to the next. */
  ghost predicate Behaviour(states: seq<State>, events: seq<Event>) {
    && |states| == |events| + 1
    && forall i :: 0 <= i < |events| ==> Step(states[i], events[i], states[i + 1])
  }

  ghost function CellAfter(c: Cell, events: seq<Event>, x: Xname): Cell {
    if events == [] then c
    else CellStep(CellAfter(c, events[..|events| - 1], x), events[|events| - 1], x)
  }

  lemma {:induction false} BehaviourByCells(states: seq<State>, events: seq<Event>, x: Xname)
    requires Behaviour(states, events)
    ensures CellOf(states[|events|], x) == CellAfter(CellOf(states[0], x), events, x)
  {
    if events != [] {
      var n := |events| - 1;
      BehaviourByCells(states[..n + 1], events[..n], x);
      assert Step(states[n], events[n], states[n + 1]);
    }
  }

  // ----- Agreement ---------------------------------------------------------------------------------

  predicate Agrees(c: Cell) {
    && (c.cached.None? ==> c.stored.None?)
    && (c.cached.Some? && c.stored.Some? ==>
          c.cached.value.power == c.stored.value.power && c.cached.value.mgmt == c.stored.value.mgmt)
    && (c.cached.Some? && c.stored.None? ==>
          c.cached.value.power == PowerUndefined && c.cached.value.mgmt == MgmtUnavailable)
  }

  /** The whole records agree, but for transitions gained while both states were undefined. */
  predicate SameRecord(c: Cell) {
    c.cached.Some? && c.stored.Some? ==>
      || c.cached == c.stored
      || (&& c.stored.value.transitions == {}
          && c.stored.value.power == PowerUndefined && c.stored.value.mgmt == MgmtUndefined
          && c.cached.value == c.stored.value.(transitions := c.cached.value.transitions))
  }

  predicate WritesSucceed(events: seq<Event>, x: Xname) {
    forall i :: 0 <= i < |events| ==> x !in events[i].failing
  }

  lemma {:induction false} CellAgreementIsKept(c: Cell, events: seq<Event>, x: Xname)
    requires WritesSucceed(events, x) && Agrees(c) && SameRecord(c)
    ensures Agrees(CellAfter(c, events, x)) && SameRecord(CellAfter(c, events, x))
  {
    if events != [] {
      CellAgreementIsKept(c, events[..|events| - 1], x);
    }
  }

  /** From an empty map and store, for each component whose own writes succeed. */
  lemma AgreementFromEmptyStore(states: seq<State>, events: seq<Event>, x: Xname)
    requires Behaviour(states, events) && WritesSucceed(events, x)
    requires states[0] == State(map[], map[])
    ensures var s := states[|events|];
            && (x !in s.cache ==> x !in s.store)
            && (x in s.cache && x in s.store ==>
                  s.cache[x].power == s.store[x].power && s.cache[x].mgmt == s.store[x].mgmt)
            && (x in s.cache && x !in s.store ==>
                  s.cache[x].power == PowerUndefined && s.cache[x].mgmt == MgmtUnavailable)
            && (x in s.cache && x in s.store && s.cache[x] != s.store[x] ==>
                  && s.store[x].transitions == {}
                  && s.store[x].power == PowerUndefined && s.store[x].mgmt == MgmtUndefined)
  {
    BehaviourByCells(states, events, x);
    CellAgreementIsKept(Cell(None, None), events, x);
  }

  // ----- What is remembered ------------------------------------------------------------------------

  /** The event sets the remembered states of `x` to `p` and `m`: a reading of a component
      in the map, the refresh that adds it, or one that gives a controller its actions. */
  ghost predicate Sets(c: Cell, e: Event, x: Xname, p: PowerState, m: MgmtState) {
    match e
    case Reading(y, power, mgmt, _, _, _) => x == y && c.cached.Some? && p == power && m == mgmt
    case Refresh(comps, _, _) =>
      && x in comps && Monitored(comps[x])
      && (if c.cached.None? then p == PowerUndefined && m == MgmtUnavailable
          else GainsActions(c, comps[x]) && p == PowerUndefined && m == MgmtUndefined)
  }

  /** The refresh no longer lists `x`. */
  predicate Removes(e: Event, x: Xname) {
    e.Refresh? && e.comps != map[] && x !in e.comps
  }

  lemma StepSets(c: Cell, e: Event, x: Xname)
    ensures var d := CellStep(c, e, x);
            && (Removes(e, x) ==> d.cached.None?)
            && (forall p, m :: Sets(c, e, x, p, m) ==> d.cached.Some? && d.cached.value.power == p && d.cached.value.mgmt == m)
            && (!Removes(e, x) && (forall p, m :: !Sets(c, e, x, p, m)) ==> d == c)
  {
    if !Removes(e, x) && forall p, m :: !Sets(c, e, x, p, m) {
      match e
      case Reading(y, power, mgmt, _, _, _) => assert !Sets(c, e, x, power, mgmt);
      case Refresh(comps, _, _) =>
        assert !Sets(c, e, x, PowerUndefined, MgmtUnavailable) && !Sets(c, e, x, PowerUndefined, MgmtUndefined);
    }
  }

  /** The transitions of a component are those its reset types support when it is added, or
      when a controller without any gains them, and nothing else changes them. */
  lemma TransitionsAreSupported(c: Cell, e: Event, x: Xname)
    requires CellStep(c, e, x).cached.Some?
    ensures var t := CellStep(c, e, x).cached.value.transitions;
            if c.cached.None? then
              e.Refresh? && x in e.comps && Monitored(e.comps[x]) && t == Supported(e.comps[x].allowable)
            else if e.Refresh? && x in e.comps && Monitored(e.comps[x]) && e.comps[x].typ == NodeBMC && c.cached.value.transitions == {}
                    && e.comps[x].allowable != [] then
              t == Supported(e.comps[x].allowable)
            else t == c.cached.value.transitions
  {
  }

  /** Event `i` was the last to say anything about `x`. */
  ghost predicate LastWord(c: Cell, events: seq<Event>, x: Xname, i: nat) {
    i < |events| && forall j :: i < j < |events| ==>
      !Removes(events[j], x) && forall p, m :: !Sets(CellAfter(c, events[..j], x), events[j], x, p, m)
  }

  lemma {:induction false} QuietAfterLastWord(c: Cell, events: seq<Event>, x: Xname, i: nat)
    requires LastWord(c, events, x, i)
    ensures CellAfter(c, events, x) == CellAfter(c, events[..i + 1], x)
  {
    var n := |events| - 1;
    if i == n {
      assert events[..i + 1] == events;
    } else {
      assert forall j :: 0 <= j <= n ==> events[..n][..j] == events[..j];
      QuietAfterLastWord(c, events[..n], x, i);
      StepSets(CellAfter(c, events[..n], x), events[n], x);
    }
  }

  /** The remembered states are those of the last reading since the component was added, or the
      initial ones, or those forced when a controller gained its actions after that. */
  lemma RememberedIsLastRead(states: seq<State>, events: seq<Event>, x: Xname, i: nat, p: PowerState, m: MgmtState)
    requires Behaviour(states, events) && LastWord(CellOf(states[0], x), events, x, i)
    requires Sets(CellOf(states[i], x), events[i], x, p, m)
    ensures var s := states[|events|]; x in s.cache && s.cache[x].power == p && s.cache[x].mgmt == m
  {
    BehaviourByCells(states, events, x);
    BehaviourByCells(states[..i + 1], events[..i], x);
    QuietAfterLastWord(CellOf(states[0], x), events, x, i);
    assert events[..i + 1][..i] == events[..i];
    StepSets(CellOf(states[i], x), events[i], x);
  }

  /** And whatever is in the map of a master that started with an empty one has such an event. */
  lemma {:induction false} RememberedHasLastWord(c: Cell, events: seq<Event>, x: Xname)
    requires c.cached.None? && CellAfter(c, events, x).cached.Some?
    ensures exists i: nat, p, m :: LastWord(c, events, x, i) && Sets(CellAfter(c, events[..i], x), events[i], x, p, m)
  {
    var n := |events| - 1;
    var d := CellAfter(c, events[..n], x);
    StepSets(d, events[n], x);
    if exists p, m :: Sets(d, events[n], x, p, m) {
      var p, m :| Sets(d, events[n], x, p, m);
      assert LastWord(c, events, x, n);
    } else {
      RememberedHasLastWord(c, events[..n], x);
      assert forall j :: 0 <= j <= n ==> events[..n][..j] == events[..j];
      var i: nat, p, m :| LastWord(c, events[..n], x, i) && Sets(CellAfter(c, events[..n][..i], x), events[..n][i], x, p, m);
      assert LastWord(c, events, x, i);
    }
  }

  /** What is monitored is what the power sequence serves, unless the slot is empty. */
  lemma MonitoredIffServed(h: HsmComponent)
    ensures Monitored(h) <==> !h.isEmpty && exists k :: 0 <= k < TIERS && h.typ in TierTypes(k)
  {
    if Monitored(h) {
      assert h.typ in TierTypes(8) || h.typ in TierTypes(9);
    } else if !h.isEmpty {
      forall k | 0 <= k < TIERS ensures h.typ !in TierTypes(k) {
        TierOfIsTheOnlyTier(k, h.typ);
      }
    }
  }

  // ----- A new master over an old store ----------------------------------------------------------------

  /** The step writes or deletes the component in the store. */
  ghost predicate Touches(c: Cell, e: Event, x: Xname) {
    && c.cached.Some?
    && match e
       case Refresh(comps, _, _) =>
         && comps != map[]
         && (|| x !in comps
             || (&& Monitored(comps[x]) && GainsActions(c, comps[x])
                 && !(c.cached.value.power == PowerUndefined && c.cached.value.mgmt == MgmtUndefined)))
       case Reading(y, p, m, _, _, _) =>
         x == y && !(c.cached.value.power == p && c.cached.value.mgmt == m)
  }

  ghost predicate Touched(c: Cell, events: seq<Event>, x: Xname) {
    exists i {:trigger events[i]} :: 0 <= i < |events| && Touches(CellAfter(c, events[..i], x), events[i], x)
  }

  predicate Lists(e: Event, x: Xname) {
    e.Refresh? && x in e.comps && Monitored(e.comps[x])
  }

  predicate Listed(events: seq<Event>, x: Xname) {
    exists i :: 0 <= i < |events| && Lists(events[i], x)
  }

  lemma TouchRestoresAgreement(c: Cell, e: Event, x: Xname)
    requires x !in e.failing
    ensures if Touches(c, e, x) then Agrees(CellStep(c, e, x)) && SameRecord(CellStep(c, e, x))
            else CellStep(c, e, x).stored == c.stored
  {
  }

  lemma TouchedOneMore(c: Cell, events: seq<Event>, x: Xname)
    requires events != []
    ensures var n := |events| - 1;
            Touched(c, events, x) <==>
            Touched(c, events[..n], x) || Touches(CellAfter(c, events[..n], x), events[n], x)
  {
    var n := |events| - 1;
    assert forall i :: 0 <= i <= n ==> events[..n][..i] == events[..i];
    if Touched(c, events, x) {
      var i :| 0 <= i < |events| && Touches(CellAfter(c, events[..i], x), events[i], x);
      if i < n {
        assert events[..n][i] == events[i];
      }
    }
    if Touched(c, events[..n], x) {
      var i :| 0 <= i < n && Touches(CellAfter(c, events[..n][..i], x), events[..n][i], x);
      assert events[i] == events[..n][i];
    }
  }

  lemma ListedOneMore(events: seq<Event>, x: Xname)
    requires events != []
    ensures Listed(events, x) <==> Listed(events[..|events| - 1], x) || Lists(events[|events| - 1], x)
  {
    var n := |events| - 1;
    if Listed(events, x) {
      var i :| 0 <= i < |events| && Lists(events[i], x);
      if i < n {
        assert events[..n][i] == events[i];
      }
    }
    if Listed(events[..n], x) {
      var i :| 0 <= i < n && Lists(events[..n][i], x);
      assert events[i] == events[..n][i];
    }
  }

  predicate Initial(c: Option<Status>) {
    c.Some? && c.value.power == PowerUndefined && c.value.mgmt == MgmtUnavailable
  }

  /** Before the first write or delete of a component the old entry stays, and the map has
      at most an initial entry; afterwards map and store agree. */
  lemma {:induction false} OldEntryUntilTouched(old_: Status, events: seq<Event>, x: Xname)
    requires WritesSucceed(events, x)
    ensures var c := Cell(None, Some(old_));
            var d := CellAfter(c, events, x);
            if Touched(c, events, x) then Agrees(d) && SameRecord(d)
            else d.stored == Some(old_) && (if Listed(events, x) then Initial(d.cached) else d.cached.None?)
  {
    var c := Cell(None, Some(old_));
    if events != [] {
      var n := |events| - 1;
      OldEntryUntilTouched(old_, events[..n], x);
      TouchedOneMore(c, events, x);
      ListedOneMore(events, x);
      var d := CellAfter(c, events[..n], x);
      TouchRestoresAgreement(d, events[n], x);
      if Touched(c, events[..n], x) {
        CellAgreementIsKept(d, [events[n]], x);
        assert CellAfter(d, [], x) == d;
        assert [events[n]][..0] == [];
      }
    }
  }

  /** Exactly when a new master that starts with an empty map agrees with an entry that an
      earlier one left in the store. */
  lemma NewMasterAgreesIff(states: seq<State>, events: seq<Event>, x: Xname)
    requires Behaviour(states, events) && WritesSucceed(events, x)
    requires states[0].cache == map[] && x in states[0].store
    ensures Agrees(CellOf(states[|events|], x)) <==>
            || Touched(CellOf(states[0], x), events, x)
            || (Listed(events, x) && Initial(Lookup(states[0].store, x)))
  {
    BehaviourByCells(states, events, x);
    OldEntryUntilTouched(states[0].store[x], events, x);
  }

  /** A component that HSM no longer reports keeps its old entry for as long as the new
      master runs, whatever is read from the hardware. */
  lemma {:induction false} ForgottenComponentStaysStored(states: seq<State>, events: seq<Event>, x: Xname)
    requires Behaviour(states, events)
    requires x !in states[0].cache && x in states[0].store
    requires !Listed(events, x)
    ensures var s := states[|events|]; x !in s.cache && x in s.store && s.store[x] == states[0].store[x]
  {
    if events != [] {
      var n := |events| - 1;
      ListedOneMore(events, x);
      ForgottenComponentStaysStored(states[..n + 1], events[..n], x);
      assert Step(states[n], events[n], states[n + 1]);
      assert CellOf(states[n + 1], x) == CellOf(states[n], x);
    }
  }

  lemma NewMasterOverOldStore(x: Xname)
    ensures var old_ := Status(PowerOn, MgmtAvailable, "", {OpOn}, 1);
            var node := HsmComponent(Node, false, ["On"]);
            var c := Cell(None, Some(old_));
            var d := CellStep(c, Refresh(map[x := node], 2, {}), x);
            && !Agrees(c) && !Agrees(d)
            && d.cached.Some? && d.cached.value.power == PowerUndefined && d.stored == Some(old_)
  {
    assert x in map[x := HsmComponent(Node, false, ["On"])];
  }

  // ----- Lost writes --------------------------------------------------------------------------------------

  /** The event reports the component in the state it is remembered in, or is about
      something else. */
  predicate NoNews(e: Event, x: Xname, s: Status) {
    match e
    case Refresh(comps, _, _) => comps == map[] || (x in comps && comps[x].typ != NodeBMC)
    case Reading(y, p, m, _, _, _) => x != y || (p == s.power && m == s.mgmt)
  }

  /** A failed write is not made up for until the component changes again. */
  lemma {:induction false} LostWriteIsNotRepeated(c: Cell, e: Event, later: seq<Event>, x: Xname)
    requires Agrees(c) && c.cached.Some? && e.Reading? && e.x == x && x in e.failing
    requires Touches(c, e, x)
    requires forall i :: 0 <= i < |later| ==> NoNews(later[i], x, CellStep(c, e, x).cached.value)
    ensures var d := CellAfter(CellStep(c, e, x), later, x);
            d == CellStep(c, e, x) && d.stored == c.stored && (c.stored.Some? ==> !Agrees(d))
  {
    if later != [] {
      LostWriteIsNotRepeated(c, e, later[..|later| - 1], x);
      assert NoNews(later[|later| - 1], x, CellStep(c, e, x).cached.value);
    }
  }

  // ----- Transitions that a controller gains ------------------------------------------------------------------

  /** A refresh that finds reset types for a controller leaves the store without them exactly
      when both states of the controller were already undefined. */
  lemma GainedActionsMissedIff(c: Cell, h: HsmComponent, now: int)
    requires Agrees(c) && c.cached == c.stored && c.stored.Some?
    ensures var d := Refreshed(c, Some(h), now, true);
            d.cached != d.stored <==>
            && Monitored(h) && GainsActions(c, h) && Supported(h.allowable) != {}
            && c.stored.value.power == PowerUndefined && c.stored.value.mgmt == MgmtUndefined
  {
  }

  // ----- The master ----------------------------------------------------------------------------------------------

  class Master {
    var hwStateMap: map<Xname, Status>
    var store: map<Xname, Status>

    ghost function Now(): State
      reads this
    {
      State(hwStateMap, store)
    }

    constructor (oldStore: map<Xname, Status>)
      ensures Now() == State(map[], oldStore)
    {
      hwStateMap := map[];
      store := oldStore;
    }

    method StorePowerStatus(x: Xname, s: Status, failing: set<Xname>)
      modifies this`store
      ensures store == if x in failing then old(store) else old(store)[x := s]
    {
      if x !in failing {
        store := store[x := s];
      }
    }

    method DeletePowerStatus(x: Xname, failing: set<Xname>)
      modifies this`store
      ensures store == if x in failing then old(store) else old(store) - {x}
    {
      if x !in failing {
        store := store - {x};
      }
    }

    method UpdateHWState(x: Xname, power: PowerState, mgmt: MgmtState, error: string, now: int, failing: set<Xname>)
      modifies this
      ensures Step(old(Now()), Reading(x, power, mgmt, error, now, failing), Now())
      ensures x in old(hwStateMap) <==> x in hwStateMap
      ensures x in hwStateMap ==> hwStateMap[x].power == power && hwStateMap[x].mgmt == mgmt
      ensures x in hwStateMap && !(old(hwStateMap)[x].power == power && old(hwStateMap)[x].mgmt == mgmt) ==>
                && hwStateMap == old(hwStateMap)[x := Status(power, mgmt, error, old(hwStateMap)[x].transitions, now)]
                && store == if x in failing then old(store) else old(store)[x := hwStateMap[x]]
      ensures x !in hwStateMap || (old(hwStateMap)[x].power == power && old(hwStateMap)[x].mgmt == mgmt) ==>
                hwStateMap == old(hwStateMap) && store == old(store)
    {
      if x !in hwStateMap {
        return;
      }
      var comp := hwStateMap[x];
      if comp.power == power && comp.mgmt == mgmt {
        return;
      }
      var psc := Status(power, mgmt, error, comp.transitions, now);
      hwStateMap := hwStateMap[x := psc];
      StorePowerStatus(x, psc, failing);
    }

    method RemoveUnreported(comps: map<Xname, HsmComponent>, failing: set<Xname>)
      modifies this
      ensures forall x :: x in comps ==> CellOf(Now(), x) == old(CellOf(Now(), x))
      ensures forall x :: x !in comps ==> CellOf(Now(), x) == Refreshed(old(CellOf(Now(), x)), None, 0, x !in failing)
    {
      var todo := hwStateMap.Keys;
      while todo != {}
        invariant todo <= hwStateMap.Keys
        invariant forall x :: x in comps || x in todo ==> CellOf(Now(), x) == old(CellOf(Now(), x))
        invariant forall x :: x !in comps && x !in todo ==>
                    CellOf(Now(), x) == Refreshed(old(CellOf(Now(), x)), None, 0, x !in failing)
        decreases todo
      {
        SomeName(todo);
        var k :| k in todo;
        todo := todo - {k};
        if k !in comps {
          hwStateMap := hwStateMap - {k};
          DeletePowerStatus(k, failing);
        }
      }
    }

    method RefreshOne(x: Xname, h: HsmComponent, now: int, failing: set<Xname>)
      modifies this
      ensures CellOf(Now(), x) == Refreshed(old(CellOf(Now(), x)), Some(h), now, x !in failing)
      ensures forall y :: y != x ==> CellOf(Now(), y) == old(CellOf(Now(), y))
    {
      if !Monitored(h) {
        return;
      }
      if x !in hwStateMap {
        var actions := ToPCSPowerActions(h.allowable);
        assert (set op | op in actions) == Supported(h.allowable);
        hwStateMap := hwStateMap[x := Status(PowerUndefined, MgmtUnavailable, "", (set op | op in actions), now)];
      } else if h.typ == NodeBMC && hwStateMap[x].transitions == {} && |h.allowable| > 0 {
        var actions := ToPCSPowerActions(h.allowable);
        assert (set op | op in actions) == Supported(h.allowable);
        hwStateMap := hwStateMap[x := hwStateMap[x].(transitions := (set op | op in actions))];
        ghost var middle := CellOf(Now(), x);
        UpdateHWState(x, PowerUndefined, MgmtUndefined, "", now, failing);
        assert CellOf(Now(), x) == Observed(middle, PowerUndefined, MgmtUndefined, "", now, x !in failing);
      }
    }

    /** Brings the map in line with HSM; an empty answer is refused. */
    method UpdateComponentMap(comps: map<Xname, HsmComponent>, now: int, failing: set<Xname>) returns (ok: bool)
      modifies this
      ensures ok <==> comps != map[]
      ensures Step(old(Now()), Refresh(comps, now, failing), Now())
    {
      if comps == map[] {
        return false;
      }
      RemoveUnreported(comps, failing);
      var todo := comps.Keys;
      while todo != {}
        invariant todo <= comps.Keys
        invariant forall x :: x in todo ==> CellOf(Now(), x) == old(CellOf(Now(), x))
        invariant forall x :: x !in todo ==>
                    CellOf(Now(), x) == Refreshed(old(CellOf(Now(), x)), Lookup(comps, x), now, x !in failing)
        decreases todo
      {
        SomeName(todo);
        var x :| x in todo;
        RefreshOne(x, comps[x], now, failing);
        todo := todo - {x};
      }
      ok := true;
    }
  }
}
