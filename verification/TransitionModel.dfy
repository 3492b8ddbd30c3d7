/** Transition records, tasks and the power sequence. */
module TransitionModel {
  import opened Xnames

  datatype Option<+T> = None | Some(value: T)

  lemma EmptyOrMember<T>(s: seq<T>)
    ensures s == [] || exists y :: y in s
  {
    if s != [] {
      assert s[0] in s;
    }
  }

  /** What the caller sees of a write: its result, an error although it was carried
      out, or an error because it was not. */
  datatype Report = Reported | HiddenWrite | Lost

  datatype Operation = OpNil | OpOn | OpOff | OpSoftRestart | OpHardRestart | OpInit | OpForceOff | OpSoftOff

  datatype TaskState = GatherData | Sending | Waiting | Confirmed

  datatype TaskStatus = TaskNew | TaskInProgress | TaskFailed | TaskSucceeded | TaskUnsupported

  predicate Unfinished(s: TaskStatus) {
    s == TaskNew || s == TaskInProgress
  }

  datatype PowerState = PowerOn | PowerOff | PowerUndefined | PowerNil

  datatype PowerSupply = PowerSupply(id: Xname, state: PowerState)

  /** A requested component together with its task. `actions` maps a lower-cased
      reset type to the spelling the hardware advertises. */
  datatype Component = Component(
    status: TaskStatus,
    state: TaskState,
    operation: Operation,
    actionCount: int,
    power: PowerState,
    supported: set<Operation>,
    actions: map<string, string>,
    supplies: seq<PowerSupply>,
    rtsOutlet: bool,
    reservationKey: string)

  type Request = map<Xname, Component>

  /** The four actions of the power sequence. */
  datatype PowerAction = GracefulShutdown | ForceOff | GracefulRestart | PowerUp

  function ActionKey(a: PowerAction): string {
    match a
    case GracefulShutdown => "gracefulshutdown"
    case ForceOff => "forceoff"
    case GracefulRestart => "gracefulrestart"
    case PowerUp => "on"
  }

  /** The operation stored in a task while the action is under way. */
  function OpForAction(a: PowerAction): Operation {
    match a
    case GracefulShutdown => OpOff
    case ForceOff => OpForceOff
    case GracefulRestart => OpSoftRestart
    case PowerUp => OpOn
  }

  /** The power state that confirms the action. */
  function EndState(a: PowerAction): PowerState {
    match a
    case GracefulShutdown => PowerOff
    case ForceOff => PowerOff
    case GracefulRestart => PowerOn
    case PowerUp => PowerOn
  }

  predicate IsOffAction(a: PowerAction) {
    a == GracefulShutdown || a == ForceOff
  }

  datatype PowerSeqElem = PowerSeqElem(action: PowerAction, types: seq<HMSType>)

  const TIERS: nat := 14

  /** The power sequence, tier by tier. */
  function PowerSequenceFull(k: nat): PowerSeqElem
    requires k < TIERS
  {
    match k
    case 0 => PowerSeqElem(GracefulShutdown, [Node])
    case 1 => PowerSeqElem(ForceOff, [Node])
    case 2 => PowerSeqElem(GracefulShutdown, [RouterModule, ComputeModule])
    case 3 => PowerSeqElem(ForceOff, [RouterModule, ComputeModule])
    case 4 => PowerSeqElem(GracefulShutdown, [Chassis])
    case 5 => PowerSeqElem(ForceOff, [Chassis])
    case 6 => PowerSeqElem(GracefulShutdown, [CabinetPDUPowerConnector])
    case 7 => PowerSeqElem(ForceOff, [CabinetPDUPowerConnector])
    case 8 => PowerSeqElem(GracefulRestart, [Node, RouterModule, ComputeModule, Chassis, CabinetPDUPowerConnector,
                                             MgmtSwitch, MgmtHLSwitch, CDUMgmtSwitch])
    case 9 => PowerSeqElem(GracefulRestart, [ChassisBMC, NodeBMC, RouterBMC])
    case 10 => PowerSeqElem(PowerUp, [CabinetPDUPowerConnector])
    case 11 => PowerSeqElem(PowerUp, [Chassis])
    case 12 => PowerSeqElem(PowerUp, [RouterModule, ComputeModule])
    case 13 => PowerSeqElem(PowerUp, [Node])
  }

  function TierAction(k: nat): PowerAction
    requires k < TIERS
  {
    PowerSequenceFull(k).action
  }

  function TierTypes(k: nat): seq<HMSType>
    requires k < TIERS
  {
    PowerSequenceFull(k).types
  }

  /** The tier that serves an action on a type, `TIERS` when the table has none. */
  function TierOf(a: PowerAction, t: HMSType): nat {
    match a
    case GracefulShutdown =>
      if t == Node then 0 else if t in {RouterModule, ComputeModule} then 2
      else if t == Chassis then 4 else if t == CabinetPDUPowerConnector then 6 else TIERS
    case ForceOff =>
      if t == Node then 1 else if t in {RouterModule, ComputeModule} then 3
      else if t == Chassis then 5 else if t == CabinetPDUPowerConnector then 7 else TIERS
    case GracefulRestart =>
      if OnOffType(t) || t in {MgmtSwitch, MgmtHLSwitch, CDUMgmtSwitch} then 8
      else if t in {ChassisBMC, NodeBMC, RouterBMC} then 9 else TIERS
    case PowerUp =>
      if t == CabinetPDUPowerConnector then 10 else if t == Chassis then 11
      else if t in {RouterModule, ComputeModule} then 12 else if t == Node then 13 else TIERS
  }

  lemma OffTiers(k: nat, t: HMSType)
    requires k < 8
    ensures t in TierTypes(k) <==> TierOf(TierAction(k), t) == k
  {
    hide OnOffType;
  }

  lemma RestartTiers(k: nat, t: HMSType)
    requires 8 <= k < 10
    ensures t in TierTypes(k) <==> TierOf(TierAction(k), t) == k
  {
  }

  lemma OnTiers(k: nat, t: HMSType)
    requires 10 <= k < TIERS
    ensures t in TierTypes(k) <==> TierOf(TierAction(k), t) == k
  {
    hide OnOffType;
  }

  /** The table lists each served action/type pair in exactly one tier. */
  lemma TierOfIsTheOnlyTier(k: nat, t: HMSType)
    requires k < TIERS
    ensures t in TierTypes(k) <==> TierOf(TierAction(k), t) == k
  {
    hide TierTypes, TierOf, TierAction;
    if k < 8 {
      OffTiers(k, t);
    } else if k < 10 {
      RestartTiers(k, t);
    } else {
      OnTiers(k, t);
    }
  }

  predicate IsController(t: HMSType) {
    t in {ChassisBMC, RouterBMC, NodeBMC, CabinetPDUController}
  }
}
