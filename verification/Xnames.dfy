/** Component names and their hardware types.

    An xname such as `x0c0s1b0n0` is a path of letter/number segments.  `TypeOf`
    follows the recognition table of the xname library for every name that
    power control can act on and for every ancestor of such a name; all other
    names, which power control never schedules, are `Invalid` here. */
module Xnames {

  datatype Segment = Segment(letter: char, num: nat)

  type Xname = seq<Segment>

  datatype HMSType =
    | Invalid
    | System
    | CDU
    | CDUMgmtSwitch
    | Cabinet
    | CabinetPDUController
    | CabinetPDU
    | CabinetPDUPowerConnector
    | Chassis
    | ChassisBMC
    | ComputeModule
    | NodeBMC
    | Node
    | RouterModule
    | RouterBMC
    | MgmtSwitch
    | MgmtHLSwitchEnclosure
    | MgmtHLSwitch

  lemma SomeName(s: set<Xname>)
    ensures s == {} || exists x :: x in s
  {
    if forall x :: x !in s {
      assert s == {};
    }
  }

  const SystemName: Xname := [Segment('s', 0)]

  /** Types whose name is a single segment. */
  function RootType(seg: Segment): HMSType {
    if seg.letter == 's' && seg.num == 0 then System
    else if seg.letter == 'd' then CDU
    else if seg.letter == 'x' && seg.num < 10000 then Cabinet
    else Invalid
  }

  /** The type of a name obtained by appending `seg` to a name of type `t`. */
  function ChildType(t: HMSType, seg: Segment): HMSType {
    match t
    case CDU => if seg.letter == 'w' then CDUMgmtSwitch else Invalid
    case Cabinet =>
      if seg.letter == 'c' && seg.num <= 7 then Chassis
      else if seg.letter == 'm' && seg.num <= 3 then CabinetPDUController
      else Invalid
    case CabinetPDUController => if seg.letter == 'p' && seg.num <= 7 then CabinetPDU else Invalid
    case CabinetPDU => if seg.letter == 'v' && seg.num >= 1 then CabinetPDUPowerConnector else Invalid
    case Chassis =>
      if seg.letter == 'b' && seg.num == 0 then ChassisBMC
      else if seg.letter == 's' then ComputeModule
      else if seg.letter == 'r' then RouterModule
      else if seg.letter == 'w' && seg.num >= 1 then MgmtSwitch
      else if seg.letter == 'h' && seg.num >= 1 then MgmtHLSwitchEnclosure
      else Invalid
    case ComputeModule => if seg.letter == 'b' then NodeBMC else Invalid
    case NodeBMC => if seg.letter == 'n' then Node else Invalid
    case RouterModule => if seg.letter == 'b' then RouterBMC else Invalid
    case MgmtHLSwitchEnclosure => if seg.letter == 's' && 1 <= seg.num <= 9 then MgmtHLSwitch else Invalid
    case _ => Invalid
  }

  function TypeOf(x: Xname): HMSType {
    if x == [] then Invalid
    else if |x| == 1 then RootType(x[0])
    else ChildType(TypeOf(x[..|x| - 1]), x[|x| - 1])
  }

  /** The names of all components that power control acts on. */
  lemma NamesOfTypes(cab: nat, ch: nat, slot: nat, bmc: nat, n: nat)
    requires cab < 10000 && ch <= 7
    ensures var chassis := [Segment('x', cab), Segment('c', ch)];
            && TypeOf(chassis) == Chassis && TypeOf(chassis + [Segment('b', 0)]) == ChassisBMC
            && TypeOf(chassis + [Segment('s', slot)]) == ComputeModule
            && TypeOf(chassis + [Segment('s', slot), Segment('b', bmc)]) == NodeBMC
            && TypeOf(chassis + [Segment('s', slot), Segment('b', bmc), Segment('n', n)]) == Node
            && TypeOf(chassis + [Segment('r', slot)]) == RouterModule
            && TypeOf(chassis + [Segment('r', slot), Segment('b', bmc)]) == RouterBMC
            && (n >= 1 ==> TypeOf(chassis + [Segment('w', n)]) == MgmtSwitch)
            && (slot >= 1 && 1 <= n <= 9 ==> TypeOf(chassis + [Segment('h', slot), Segment('s', n)]) == MgmtHLSwitch)
    ensures TypeOf([Segment('d', cab), Segment('w', n)]) == CDUMgmtSwitch
    ensures ch <= 3 && bmc <= 7 && n >= 1 ==>
              TypeOf([Segment('x', cab), Segment('m', ch), Segment('p', bmc), Segment('v', n)]) == CabinetPDUPowerConnector
  {
    var chassis := [Segment('x', cab), Segment('c', ch)];
    assert chassis[..1] == [Segment('x', cab)];
    NextType(chassis, Segment('b', 0));
    NextType(chassis, Segment('s', slot));
    NextType(chassis + [Segment('s', slot)], Segment('b', bmc));
    NextType(chassis + [Segment('s', slot), Segment('b', bmc)], Segment('n', n));
    NextType(chassis, Segment('r', slot));
    NextType(chassis + [Segment('r', slot)], Segment('b', bmc));
    NextType(chassis, Segment('w', n));
    NextType(chassis, Segment('h', slot));
    NextType(chassis + [Segment('h', slot)], Segment('s', n));
    assert chassis + [Segment('s', slot)] + [Segment('b', bmc)] == chassis + [Segment('s', slot), Segment('b', bmc)];
    assert chassis + [Segment('s', slot), Segment('b', bmc)] + [Segment('n', n)] ==
           chassis + [Segment('s', slot), Segment('b', bmc), Segment('n', n)];
    assert chassis + [Segment('r', slot)] + [Segment('b', bmc)] == chassis + [Segment('r', slot), Segment('b', bmc)];
    assert chassis + [Segment('h', slot)] + [Segment('s', n)] == chassis + [Segment('h', slot), Segment('s', n)];
    NextType([Segment('d', cab)], Segment('w', n));
    assert [Segment('d', cab)] + [Segment('w', n)] == [Segment('d', cab), Segment('w', n)];
    var unit := [Segment('x', cab), Segment('m', ch)];
    assert unit[..1] == [Segment('x', cab)];
    NextType(unit, Segment('p', bmc));
    NextType(unit + [Segment('p', bmc)], Segment('v', n));
    assert unit + [Segment('p', bmc)] + [Segment('v', n)] ==
           [Segment('x', cab), Segment('m', ch), Segment('p', bmc), Segment('v', n)];
  }

  lemma NextType(x: Xname, seg: Segment)
    requires x != []
    ensures TypeOf(x + [seg]) == ChildType(TypeOf(x), seg)
  {
    assert (x + [seg])[..|x|] == x;
  }

  /** Cabinets and CDUs hang off the system; any other name loses its last segment. */
  function Parent(x: Xname): Xname {
    if TypeOf(x) in {CDU, Cabinet} then SystemName
    else if x == [] then []
    else x[..|x| - 1]
  }

  /** Number of steps from a name up to the empty name. */
  function Depth(x: Xname): nat {
    if x == [] then 0 else if x == SystemName then 1 else |x| + 1
  }

  lemma ParentIsShallower(x: Xname)
    requires x != []
    ensures Depth(Parent(x)) < Depth(x)
  {
    if |x| == 1 {
      assert x == [x[0]];
    }
  }

  /** `a` is met on the way up from `x`, `x` itself excluded. */
  ghost predicate Ancestor(a: Xname, x: Xname)
    decreases Depth(x)
  {
    x != [] &&
    (ParentIsShallower(x); a == Parent(x) || Ancestor(a, Parent(x)))
  }

  function ParentType(t: HMSType): HMSType {
    match t
    case Invalid => Invalid
    case System => Invalid
    case CDU => System
    case CDUMgmtSwitch => CDU
    case Cabinet => System
    case CabinetPDUController => Cabinet
    case CabinetPDU => CabinetPDUController
    case CabinetPDUPowerConnector => CabinetPDU
    case Chassis => Cabinet
    case ChassisBMC => Chassis
    case ComputeModule => Chassis
    case NodeBMC => ComputeModule
    case Node => NodeBMC
    case RouterModule => Chassis
    case RouterBMC => RouterModule
    case MgmtSwitch => Chassis
    case MgmtHLSwitchEnclosure => Chassis
    case MgmtHLSwitch => MgmtHLSwitchEnclosure
  }

  /** The parent of a recognised name has the type the recognition table gives it. */
  lemma ParentHasParentType(x: Xname)
    requires TypeOf(x) != Invalid
    ensures TypeOf(Parent(x)) == ParentType(TypeOf(x))
  {
    if |x| > 1 {
      assert Parent(x) == x[..|x| - 1];
    }
  }

  /** How far from the leaves a type is powered: components of a lower level are
      switched off earlier and switched on later than those of a higher level. */
  function PowerLevel(t: HMSType): nat {
    match t
    case Node => 1
    case NodeBMC => 2
    case ComputeModule => 3
    case RouterModule => 3
    case Chassis => 4
    case Cabinet => 5
    case System => 6
    case CabinetPDUPowerConnector => 5
    case CabinetPDU => 6
    case CabinetPDUController => 7
    case _ => 0
  }

  predicate OnOffType(t: HMSType) {
    t in {Node, ComputeModule, RouterModule, Chassis, CabinetPDUPowerConnector}
  }

  /** Among the types that can be switched on and off, an ancestor always has a
      strictly higher power level than its descendants. */
  lemma {:induction false} AncestorIsHigher(a: Xname, x: Xname)
    requires Ancestor(a, x)
    requires OnOffType(TypeOf(a)) && OnOffType(TypeOf(x))
    ensures PowerLevel(TypeOf(x)) < PowerLevel(TypeOf(a))
  {
    AncestorTypes(a, x);
  }

  lemma {:induction false} AncestorTypes(a: Xname, x: Xname)
    requires Ancestor(a, x) && TypeOf(x) != Invalid && TypeOf(a) != Invalid
    ensures TypeOf(x) in {Node, NodeBMC, ComputeModule, RouterModule, Chassis, Cabinet} ==>
              PowerLevel(TypeOf(x)) < PowerLevel(TypeOf(a))
    ensures TypeOf(x) in {System, Cabinet} ==> TypeOf(a) == System
    ensures TypeOf(x) == CabinetPDUController ==> TypeOf(a) in {Cabinet, System}
    ensures TypeOf(x) == CabinetPDU ==> TypeOf(a) in {CabinetPDUController, Cabinet, System}
    ensures TypeOf(x) == CabinetPDUPowerConnector ==> !OnOffType(TypeOf(a))
    decreases Depth(x)
  {
    ParentHasParentType(x);
    ParentIsShallower(x);
    if a != Parent(x) && TypeOf(Parent(x)) != Invalid {
      AncestorTypes(a, Parent(x));
    }
  }
}
