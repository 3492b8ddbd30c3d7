/** Setting power limits: from what HSM knows about the controls of a node to the values
    in the request sent to its controller. */
module PowerCap {
  import opened Xnames
  import opened TransitionModel
  import opened Sequencing

  // ----- What HSM reports ---------------------------------------------------------------------

  datatype Range = Range(min: int, max: int)
  datatype HpeInfo = HpeInfo(range: Range, target: string)
  datatype Oem = Oem(cray: Option<Range>, hpe: Option<HpeInfo>)
  datatype PowerCtl = PowerCtl(name: string, oid: string, oem: Option<Oem>)
  datatype Control = Control(name: string, url: string, range: Range)

  datatype SystemInfo = SystemInfo(powerURL: string, controls: seq<Control>, powerCtl: seq<PowerCtl>)

  /** -1 stands for an unknown minimum or maximum. */
  datatype Cap = Cap(name: string, path: string, range: Range, index: nat)

  datatype HsmData = HsmData(
    fqdn: string, typ: HMSType, management: bool, capURI: string, targetURI: string,
    controlsCount: nat, ctlInfoCount: nat, caps: map<string, Cap>)

  const NODE_LIMIT: string := "Node Power Limit"

  predicate Contains(s: string, part: string) {
    |part| <= |s| && (s[..|part|] == part || (s != [] && Contains(s[1..], part)))
  }

  predicate IsApollo(uri: string) {
    Contains(uri, "AccPowerService/PowerLimit")
  }

  predicate IsHpeServer(uri: string) {
    Contains(uri, "Chassis/1/Power")
  }

  function BeforeFragment(s: string): string {
    if s == [] || s[0] == '#' then [] else [s[0]] + BeforeFragment(s[1..])
  }

  function RangeOf(ctl: PowerCtl): Range {
    if ctl.oem.None? then Range(-1, -1)
    else if ctl.oem.value.cray.Some? then ctl.oem.value.cray.value
    else if ctl.oem.value.hpe.Some? then ctl.oem.value.hpe.value.range
    else Range(-1, -1)
  }

  /** The control in slot `i` of the newer schema, and of the older one. */
  function ControlCap(sys: SystemInfo, i: nat): Cap
    requires i < |sys.controls|
  {
    Cap(sys.controls[i].name, sys.controls[i].url, sys.controls[i].range, i)
  }

  function PowerCtlCap(sys: SystemInfo, i: nat): Cap
    requires i < |sys.powerCtl|
  {
    var ctl := sys.powerCtl[i];
    var name := if IsApollo(sys.powerURL) || IsHpeServer(sys.powerURL) then NODE_LIMIT else ctl.name;
    var path := BeforeFragment(ctl.oid);
    Cap(name, if path == "" then sys.powerURL else path, RangeOf(ctl), i)
  }

  function SlotCount(sys: SystemInfo): nat {
    if |sys.controls| > 0 then |sys.controls| else |sys.powerCtl|
  }

  function CapAt(sys: SystemInfo, i: nat): Cap
    requires i < SlotCount(sys)
  {
    if |sys.controls| > 0 then ControlCap(sys, i) else PowerCtlCap(sys, i)
  }

  /** Each name has the control of the last slot that carries it. */
  ghost predicate Tabulates(caps: map<string, Cap>, sys: SystemInfo, k: nat)
    requires k <= SlotCount(sys)
  {
    && (forall n :: n in caps ==> caps[n].index < k && caps[n] == CapAt(sys, caps[n].index) && caps[n].name == n)
    && (forall i: nat :: i < k ==> CapAt(sys, i).name in caps && i <= caps[CapAt(sys, i).name].index)
  }

  lemma {:induction false} ContainsIff(s: string, part: string)
    ensures Contains(s, part) <==> exists k: nat :: k + |part| <= |s| && Occurs(s, part, k)
  {
    if |part| <= |s| {
      if Occurs(s, part, 0) {
        assert s[..|part|] == part;
      } else if s != [] {
        ContainsIff(s[1..], part);
        if k: nat :| k + |part| <= |s| - 1 && Occurs(s[1..], part, k) {
          assert s[1..][k..k + |part|] == s[k + 1..k + 1 + |part|];
          assert Occurs(s, part, k + 1);
        }
        if k: nat :| k + |part| <= |s| && Occurs(s, part, k) {
          assert k > 0 && s[1..][k - 1..k - 1 + |part|] == s[k..k + |part|];
          assert Occurs(s[1..], part, k - 1);
        }
      }
    }
  }

  predicate Occurs(s: string, part: string, k: nat) {
    k + |part| <= |s| && s[k..k + |part|] == part
  }

  /** The path is the part before the first `#`. */
  lemma {:induction false} BeforeFragmentMeans(s: string)
    ensures var p := BeforeFragment(s);
            && p <= s && '#' !in p && (p == s || s[|p|] == '#')
  {
    if s != [] && s[0] != '#' {
      BeforeFragmentMeans(s[1..]);
      assert s == [s[0]] + s[1..];
    }
  }

  /** What is known of the control in slot `i`: with the newer schema as it is reported; with
      the older one by its name, or the common name on HPE systems, with the Cray range
      before the HPE one, and -1 for bounds that are not reported. */
  lemma CapAtMeans(sys: SystemInfo, i: nat)
    requires i < SlotCount(sys)
    ensures var c := CapAt(sys, i);
            && c.index == i
            && if sys.controls != [] then
                 c == Cap(sys.controls[i].name, sys.controls[i].url, sys.controls[i].range, i)
               else
                 var ctl := sys.powerCtl[i];
                 var path := BeforeFragment(ctl.oid);
                 && c.name == (if Contains(sys.powerURL, "AccPowerService/PowerLimit") || Contains(sys.powerURL, "Chassis/1/Power")
                               then "Node Power Limit" else ctl.name)
                 && (path != "" ==> c.path == path) && (path == "" ==> c.path == sys.powerURL)
                 && (ctl.oem.Some? && ctl.oem.value.cray.Some? ==> c.range == ctl.oem.value.cray.value)
                 && (ctl.oem.Some? && ctl.oem.value.cray.None? && ctl.oem.value.hpe.Some? ==> c.range == ctl.oem.value.hpe.value.range)
                 && (ctl.oem.None? || (ctl.oem.value.cray.None? && ctl.oem.value.hpe.None?) ==> c.range == Range(-1, -1))
  {
  }

  /** The target is that of the first power control if it has one, and the earlier one otherwise. */
  lemma TargetMeans(sys: SystemInfo, before: string)
    ensures var t := TargetOf(sys, before);
            if sys.controls == [] && sys.powerCtl != [] && sys.powerCtl[0].oem.Some? && sys.powerCtl[0].oem.value.hpe.Some?
               && sys.powerCtl[0].oem.value.hpe.value.target != ""
            then t == sys.powerCtl[0].oem.value.hpe.value.target
            else t == before
  {
  }

  function TargetOf(sys: SystemInfo, before: string): string {
    if |sys.controls| > 0 || |sys.powerCtl| == 0 then before
    else
      var oem := sys.powerCtl[0].oem;
      if oem.Some? && oem.value.hpe.Some? && oem.value.hpe.value.target != "" then oem.value.hpe.value.target
      else before
  }

  /** The record as HSM's report leaves it. */
  ghost predicate Extracted(data: HsmData, before: HsmData, sys: SystemInfo) {
    && data == before.(capURI := sys.powerURL, controlsCount := |sys.controls|, ctlInfoCount := |sys.powerCtl|,
                       targetURI := TargetOf(sys, before.targetURI), caps := data.caps)
    && if SlotCount(sys) == 0 then data.caps == before.caps else Tabulates(data.caps, sys, SlotCount(sys))
  }

  class Node {
    var data: HsmData

    constructor (d: HsmData)
      ensures data == d
    {
      data := d;
    }

    /** Takes over what HSM reports about the node; without a report nothing changes. */
    method ExtractPowerCapInfo(info: Option<SystemInfo>)
      modifies this
      ensures if info.None? then data == old(data) else Extracted(data, old(data), info.value)
    {
      if info.None? {
        return;
      }
      var sys := info.value;
      data := data.(capURI := sys.powerURL, controlsCount := |sys.controls|, ctlInfoCount := |sys.powerCtl|);
      if data.controlsCount == 0 && data.ctlInfoCount > 0 {
        data := data.(targetURI := TargetOf(sys, data.targetURI));
      }
      if data.controlsCount > 0 || data.ctlInfoCount > 0 {
        var caps := map[];
        for i := 0 to SlotCount(sys)
          invariant Tabulates(caps, sys, i)
          invariant data == old(data).(capURI := sys.powerURL, controlsCount := |sys.controls|,
                                       ctlInfoCount := |sys.powerCtl|, targetURI := TargetOf(sys, old(data).targetURI))
        {
          var cap := CapAt(sys, i);
          TabulateNext(caps, sys, i);
          caps := caps[cap.name := cap];
        }
        data := data.(caps := caps);
      }
    }
  }

  lemma TabulateNext(caps: map<string, Cap>, sys: SystemInfo, i: nat)
    requires i < SlotCount(sys) && Tabulates(caps, sys, i)
    ensures Tabulates(caps[CapAt(sys, i).name := CapAt(sys, i)], sys, i + 1)
  {
    assert CapAt(sys, i).index == i;
    hide CapAt;
  }

  function Slots(data: HsmData): nat {
    if data.controlsCount > 0 then data.controlsCount else data.ctlInfoCount
  }

  /** Every control has a slot of its own, and an Apollo node has one control only. */
  ghost predicate WellFormed(data: HsmData) {
    && (forall n :: n in data.caps ==> data.caps[n].index < Slots(data))
    && (forall m, n :: m in data.caps && n in data.caps && m != n ==> data.caps[m].index != data.caps[n].index)
    && (data.controlsCount == 0 && IsApollo(data.capURI) ==> forall n :: n in data.caps ==> n == NODE_LIMIT)
  }

  /** A report without any slot keeps the controls of an earlier report, whose slots are
      then gone. */
  lemma ExtractedIsWellFormedIff(data: HsmData, before: HsmData, sys: SystemInfo)
    requires Extracted(data, before, sys)
    ensures WellFormed(data) <==> SlotCount(sys) > 0 || before.caps == map[]
  {
    if SlotCount(sys) > 0 {
      forall m, n | m in data.caps && n in data.caps && m != n ensures data.caps[m].index != data.caps[n].index {
        assert data.caps[m].name == m && data.caps[n].name == n;
      }
      if data.controlsCount == 0 && IsApollo(data.capURI) {
        forall n | n in data.caps ensures n == NODE_LIMIT {
          assert data.caps[n] == PowerCtlCap(sys, data.caps[n].index);
        }
      }
    } else if before.caps != map[] {
      SomeKey(before.caps);
      var n :| n in before.caps;
      assert data.caps[n].index >= Slots(data);
    }
  }

  lemma SomeKey(m: map<string, Cap>)
    ensures m == map[] || exists n :: n in m
  {
    if forall n :: n !in m {
      assert m == map[];
    }
  }

  // ----- Operations ------------------------------------------------------------------------------

  datatype OpStatus = OpNew | OpInProgress | OpFailed | OpSucceeded | OpUnsupported

  datatype Limit = Limit(name: string, value: int, min: Option<int>, max: Option<int>)

  datatype CapOperation = CapOperation(
    status: OpStatus, uri: string, caps: map<string, Cap>, limits: seq<Limit>, complaints: seq<string>,
    fqdn: string, targetURI: string, controlsCount: nat, ctlInfoCount: nat)

  predicate InRange(r: Range, value: int) {
    && (r.min == -1 || value == 0 || r.min <= value)
    && (r.max == -1 || value <= r.max)
  }

  /** The control is known and requested with a value in its range. */
  predicate Sendable(caps: map<string, Cap>, req: map<string, int>, n: string) {
    n in caps && n in req && InRange(caps[n].range, req[n])
  }

  /** A control is sent exactly when it is known and requested, with zero or a value that is
      not below the known minimum, and not above the known maximum. */
  lemma SendableIff(caps: map<string, Cap>, req: map<string, int>, n: string)
    ensures Sendable(caps, req, n) <==> n in caps && n in req && Within(caps[n].range, req[n])
  {
  }

  function Known(bound: int): Option<int> {
    if bound != -1 then Some(bound) else None
  }

  function LimitFor(caps: map<string, Cap>, req: map<string, int>, n: string): Limit
    requires n in caps && n in req
  {
    Limit(n, req[n], Known(caps[n].range.min), Known(caps[n].range.max))
  }

  function NamesOf(limits: seq<Limit>): seq<string> {
    seq(|limits|, i requires 0 <= i < |limits| => limits[i].name)
  }

  /** The limits are those of the sendable controls among `names`, each once. */
  ghost predicate Chosen(limits: seq<Limit>, caps: map<string, Cap>, req: map<string, int>, names: set<string>) {
    && NoDup(NamesOf(limits))
    && (forall n :: n in NamesOf(limits) <==> n in names && Sendable(caps, req, n))
    && (forall l :: l in limits ==> l.name in caps && l.name in req && l == LimitFor(caps, req, l.name))
  }

  /** A limit has the requested value, and the bounds that are known. */
  lemma LimitMeans(caps: map<string, Cap>, req: map<string, int>, n: string)
    requires n in caps && n in req
    ensures var l, r := LimitFor(caps, req, n), caps[n].range;
            && l.name == n && l.value == req[n]
            && (r.min == -1 <==> l.min.None?) && (l.min.Some? ==> l.min.value == r.min)
            && (r.max == -1 <==> l.max.None?) && (l.max.Some? ==> l.max.value == r.max)
  {
  }

  lemma ChooseOneMore(limits: seq<Limit>, caps: map<string, Cap>, req: map<string, int>, names: set<string>, n: string)
    requires Chosen(limits, caps, req, names) && n !in names
    ensures Sendable(caps, req, n) ==> Chosen(limits + [LimitFor(caps, req, n)], caps, req, names + {n})
    ensures !Sendable(caps, req, n) ==> Chosen(limits, caps, req, names + {n})
  {
    if Sendable(caps, req, n) {
      assert NamesOf(limits + [LimitFor(caps, req, n)]) == NamesOf(limits) + [n];
    }
  }

  /** Checks of the node itself; what the source calls an error or unsupported. */
  function Rejection(data: HsmData, uri: string): Option<OpStatus> {
    if data.fqdn == "" then Some(OpFailed)
    else if data.typ != HMSType.Node then Some(OpUnsupported)
    else if uri == "" then Some(OpFailed)
    else if data.management then Some(OpUnsupported)
    else if IsApollo(uri) && data.targetURI == "" then Some(OpFailed)
    else None
  }

  /** Only nodes with an address are capped, never management ones, and an Apollo node needs a
      target; the others are unsupported or failed. */
  lemma RejectionMeans(data: HsmData, uri: string)
    ensures Rejection(data, uri).None? <==>
            && data.fqdn != "" && data.typ == HMSType.Node && uri != "" && !data.management
            && (IsApollo(uri) ==> data.targetURI != "")
    ensures Rejection(data, uri) == Some(OpUnsupported) <==>
            data.fqdn != "" && (data.typ != HMSType.Node || (uri != "" && data.management))
    ensures Rejection(data, uri).Some? ==> Rejection(data, uri).value in {OpUnsupported, OpFailed}
  {
  }

  lemma SomeString(s: set<string>)
    ensures s == {} || exists n :: n in s
  {
    if forall n :: n !in s {
      assert s == {};
    }
  }

  /** The range check of each requested control; `complaints` names those out of range. */
  method CheckRanges(caps: map<string, Cap>, req: map<string, int>) returns (limits: seq<Limit>, complaints: seq<string>)
    ensures Chosen(limits, caps, req, caps.Keys)
    ensures forall n :: n in complaints <==> n in caps && n in req && !InRange(caps[n].range, req[n])
  {
    limits, complaints := [], [];
    var todo := caps.Keys;
    while todo != {}
      invariant todo <= caps.Keys
      invariant Chosen(limits, caps, req, caps.Keys - todo)
      invariant forall n :: n in complaints <==> n in caps.Keys - todo && n in req && !InRange(caps[n].range, req[n])
      decreases todo
    {
      SomeString(todo);
      var n :| n in todo;
      ChooseOneMore(limits, caps, req, caps.Keys - todo, n);
      assert caps.Keys - (todo - {n}) == caps.Keys - todo + {n};
      todo := todo - {n};
      if n in req {
        var val, range := req[n], caps[n].range;
        if range.min != -1 && val != 0 && val < range.min {
          complaints := complaints + [n];
        } else if range.max != -1 && val > range.max {
          complaints := complaints + [n];
        } else {
          limits := limits + [LimitFor(caps, req, n)];
        }
      }
    }
    assert caps.Keys - todo == caps.Keys;
  }

  /** The directory of a clean path. */
  function Dir(path: string): string {
    if path == [] then "."
    else if path[|path| - 1] != '/' then Dir(path[..|path| - 1])
    else if |path| == 1 then "/" else path[..|path| - 1]
  }

  lemma {:induction false} DirOfChild(parent: string, name: string)
    requires '/' !in name && parent != ""
    ensures Dir(parent + "/" + name) == parent
  {
    var p := parent + "/" + name;
    if name == "" {
      assert p == parent + "/";
      assert p[..|p| - 1] == parent;
    } else {
      var shorter := name[..|name| - 1];
      assert p[..|p| - 1] == parent + "/" + shorter;
      assert p[|p| - 1] == name[|name| - 1];
      DirOfChild(parent, shorter);
    }
  }

  /** The request for a control goes to the deep resource beside the controls. */
  lemma DeepBesideControls(node: string, name: string)
    requires '/' !in name && node != ""
    ensures DeepURI(node + "/Controls/" + name) == node + "/Controls.Deep"
  {
    assert node + "/Controls/" + name == (node + "/Controls") + "/" + name;
    DirOfChild(node + "/Controls", name);
    assert node + "/Controls" == node + "/" + "Controls";
    DirOfChild(node, "Controls");
  }

  function DeepURI(path: string): string {
    Dir(Dir(path)) + "/Controls.Deep"
  }

  /** Where the request goes: for the newer schema, next to one of the requested controls. */
  ghost predicate Addressed(uri: string, data: HsmData, req: map<string, int>) {
    if data.controlsCount > 0 then exists n :: n in data.caps && n in req && uri == DeepURI(data.caps[n].path)
    else uri == data.capURI
  }

  /** The operation for one node of a patch; requested controls that HSM does not know
      are `skipped`, each with a failed operation of its own. */
  method PatchOperation(data: HsmData, req: map<string, int>) returns (skipped: set<string>, op: Option<CapOperation>)
    ensures skipped == req.Keys - data.caps.Keys
    ensures op.Some? <==> req.Keys * data.caps.Keys != {}
    ensures op.Some? ==>
              && Addressed(op.value.uri, data, req)
              && op.value.caps == data.caps
              && op.value.controlsCount == data.controlsCount && op.value.ctlInfoCount == data.ctlInfoCount
              && (op.value.status == OpInProgress <==>
                    Rejection(data, op.value.uri).None? && exists n :: Sendable(data.caps, req, n))
              && (Rejection(data, op.value.uri).None? ==>
                    && Chosen(op.value.limits, data.caps, req, data.caps.Keys)
                    && op.value.status in {OpInProgress, OpFailed}
                    && forall n :: n in op.value.complaints <==>
                         n in data.caps && n in req && !InRange(data.caps[n].range, req[n]))
              && (Rejection(data, op.value.uri).Some? ==>
                    op.value.status == Rejection(data, op.value.uri).value && op.value.limits == [])
  {
    skipped := req.Keys - data.caps.Keys;
    var found := req.Keys * data.caps.Keys;
    if found == {} {
      return skipped, None;
    }
    var uri := data.capURI;
    if data.controlsCount > 0 {
      SomeString(found);
      var name :| name in found;
      uri := DeepURI(data.caps[name].path);
    }
    var new_ := CapOperation(OpNew, uri, data.caps, [], [], data.fqdn, data.targetURI, data.controlsCount, data.ctlInfoCount);
    var rejection := Rejection(data, uri);
    if rejection.Some? {
      return skipped, Some(new_.(status := rejection.value));
    }
    var limits, complaints := CheckRanges(data.caps, req);
    ChosenSome(limits, data.caps, req);
    SomethingHappens(limits, complaints, data.caps, req);
    op := Some(new_.(limits := limits, complaints := complaints,
                     status := if |limits| > 0 then OpInProgress else if |complaints| > 0 then OpFailed else OpNew));
  }

  lemma ChosenSome(limits: seq<Limit>, caps: map<string, Cap>, req: map<string, int>)
    requires Chosen(limits, caps, req, caps.Keys)
    ensures |limits| > 0 <==> exists n :: Sendable(caps, req, n)
  {
    if |limits| > 0 {
      assert NamesOf(limits)[0] in NamesOf(limits);
    }
    forall n | Sendable(caps, req, n) ensures |limits| > 0 {
      assert n in NamesOf(limits);
    }
  }

  lemma SomethingHappens(limits: seq<Limit>, complaints: seq<string>, caps: map<string, Cap>, req: map<string, int>)
    requires Chosen(limits, caps, req, caps.Keys) && req.Keys * caps.Keys != {}
    requires forall n :: n in complaints <==> n in caps && n in req && !InRange(caps[n].range, req[n])
    ensures |limits| > 0 || |complaints| > 0
  {
    SomeString(req.Keys * caps.Keys);
    var n :| n in req.Keys * caps.Keys;
    assert n in complaints || n in NamesOf(limits);
  }

  // ----- Payloads -------------------------------------------------------------------------------------

  datatype Member = Member(oid: string, setPoint: Option<int>, mode: string)

  datatype CapPayload =
    | DeepPayload(members: seq<Member>)
    | ApolloPayload(watts: int, zone: nat)
    | PowerPayload(slots: seq<Option<int>>)

  function MemberFor(cap: Cap, value: int): Member {
    if value > 0 then Member(cap.path, Some(value), "Automatic") else Member(cap.path, None, "Disabled")
  }

  /** The last limit whose control has slot `j`. */
  function LastFor(limits: seq<Limit>, caps: map<string, Cap>, j: nat): Option<int>
    requires forall l :: l in limits ==> l.name in caps
  {
    if limits == [] then None
    else
      var l := limits[|limits| - 1];
      if caps[l.name].index == j then Some(l.value) else LastFor(limits[..|limits| - 1], caps, j)
  }

  /** What the payload generator relies on. */
  ghost predicate Payable(op: CapOperation) {
    && (forall l :: l in op.limits ==> l.name in op.caps)
    && (op.controlsCount == 0 && IsApollo(op.uri) ==> |op.limits| > 0)
    && (op.controlsCount == 0 && !IsApollo(op.uri) ==>
          forall l :: l in op.limits ==> op.caps[l.name].index < op.ctlInfoCount)
  }

  method GeneratePowerCapPayload(op: CapOperation) returns (p: CapPayload)
    requires Payable(op)
    ensures p.DeepPayload? <==> op.controlsCount > 0
    ensures p.ApolloPayload? <==> op.controlsCount == 0 && IsApollo(op.uri)
    ensures p.DeepPayload? ==>
              && |p.members| == |op.limits|
              && forall i :: 0 <= i < |op.limits| ==> p.members[i] == MemberFor(op.caps[op.limits[i].name], op.limits[i].value)
    ensures p.ApolloPayload? ==> p.watts == op.limits[0].value && p.zone == 0
    ensures p.PowerPayload? ==>
              && |p.slots| == op.ctlInfoCount
              && forall j :: 0 <= j < |p.slots| ==> p.slots[j] == LastFor(op.limits, op.caps, j)
  {
    if op.controlsCount > 0 {
      var members := [];
      for i := 0 to |op.limits|
        invariant |members| == i
        invariant forall k :: 0 <= k < i ==> members[k] == MemberFor(op.caps[op.limits[k].name], op.limits[k].value)
      {
        var limit := op.limits[i];
        var path := op.caps[limit.name].path;
        if limit.value > 0 {
          members := members + [Member(path, Some(limit.value), "Automatic")];
        } else {
          members := members + [Member(path, None, "Disabled")];
        }
      }
      p := DeepPayload(members);
    } else if IsApollo(op.uri) {
      p := ApolloPayload(op.limits[0].value, 0);
    } else {
      p := FillSlots(op);
    }
  }

  method FillSlots(op: CapOperation) returns (p: CapPayload)
    requires forall l :: l in op.limits ==> l.name in op.caps && op.caps[l.name].index < op.ctlInfoCount
    ensures p.PowerPayload? && |p.slots| == op.ctlInfoCount
    ensures forall j :: 0 <= j < |p.slots| ==> p.slots[j] == LastFor(op.limits, op.caps, j)
  {
    var slots := new Option<int>[op.ctlInfoCount](_ => None);
    for i := 0 to |op.limits|
      invariant forall j :: 0 <= j < slots.Length ==> slots[j] == LastFor(op.limits[..i], op.caps, j)
    {
      assert op.limits[..i + 1][..i] == op.limits[..i];
      var limit := op.limits[i];
      slots[op.caps[limit.name].index] := Some(limit.value);
    }
    assert op.limits[..|op.limits|] == op.limits;
    p := PowerPayload(slots[..]);
  }

  lemma {:induction false} LastForMeans(limits: seq<Limit>, caps: map<string, Cap>, j: nat)
    requires forall l :: l in limits ==> l.name in caps
    ensures var r := LastFor(limits, caps, j);
            if r.None? then forall l :: l in limits ==> caps[l.name].index != j
            else exists l :: l in limits && caps[l.name].index == j && r.value == l.value
  {
    if limits != [] {
      var n := |limits| - 1;
      assert limits[n] in limits;
      assert limits == limits[..n] + [limits[n]];
      LastForMeans(limits[..n], caps, j);
    }
  }

  /** The members are the sendable controls, in some order and each once. */
  ghost predicate Arranged(members: seq<Member>, order: seq<string>, caps: map<string, Cap>, req: map<string, int>) {
    && |members| == |order| && NoDup(order)
    && (forall n :: n in order <==> Sendable(caps, req, n))
    && (forall i :: 0 <= i < |order| ==> Sendable(caps, req, order[i]) && members[i] == MemberFor(caps[order[i]], req[order[i]]))
  }

  /** The payload says what was requested of the sendable controls, and nothing else. */
  ghost predicate Conveys(p: CapPayload, data: HsmData, req: map<string, int>) {
    match p
    case DeepPayload(members) =>
      data.controlsCount > 0 && exists order :: Arranged(members, order, data.caps, req)
    case ApolloPayload(watts, zone) =>
      data.controlsCount == 0 && Sendable(data.caps, req, NODE_LIMIT) && watts == req[NODE_LIMIT] && zone == 0
    case PowerPayload(slots) =>
      && data.controlsCount == 0 && |slots| == data.ctlInfoCount
      && (forall n :: Sendable(data.caps, req, n) ==>
            data.caps[n].index < |slots| && slots[data.caps[n].index] == Some(req[n]))
      && (forall j :: 0 <= j < |slots| && slots[j].Some? ==> exists n :: Sendable(data.caps, req, n) && data.caps[n].index == j)
  }

  /** What comes back from the controller. */
  datatype Answer = Answer(err: bool, statusCode: int, hasBody: bool)

  /** The test of the status code is as in the source. */
  predicate Fails(a: Answer) {
    a.err || (a.statusCode < 200 && a.statusCode >= 300) || !a.hasBody
  }

  /** A patch of one node from HSM's report to the request body: something is sent exactly
      when the node is accepted and some requested control is known and in range, and then
      each of those controls and no other has its requested value in its own place. */
  method PatchNode(node: Node, info: Option<SystemInfo>, req: map<string, int>, answer: Answer)
    returns (op: Option<CapOperation>, payload: Option<CapPayload>)
    requires node.data.caps == map[]
    modifies node
    ensures info.Some? ==> Extracted(node.data, old(node.data), info.value)
    ensures op.Some? ==> Addressed(op.value.uri, node.data, req)
    ensures payload.Some? <==>
            op.Some? && Rejection(node.data, op.value.uri).None? && exists n :: Sendable(node.data.caps, req, n)
    ensures payload.Some? ==> Conveys(payload.value, node.data, req)
    ensures op.Some? ==> (op.value.status == OpSucceeded <==> payload.Some? && !answer.err && answer.hasBody)
    ensures payload.Some? ==> forall n :: n in op.value.complaints <==>
              n in node.data.caps && n in req && !InRange(node.data.caps[n].range, req[n])
  {
    payload := None;
    node.ExtractPowerCapInfo(info);
    if info.Some? {
      ExtractedIsWellFormed(node.data, old(node.data), info.value);
    }
    var skipped;
    skipped, op := PatchOperation(node.data, req);
    if op.Some? && op.value.status == OpInProgress {
      GoodIsPayable(op.value, node.data, req);
      var p := GeneratePowerCapPayload(op.value);
      PayloadConveys(p, op.value, node.data, req);
      payload := Some(p);
      op := Some(op.value.(status := if Fails(answer) then OpFailed else OpSucceeded));
    }
  }

  lemma ExtractedIsWellFormed(data: HsmData, before: HsmData, sys: SystemInfo)
    requires Extracted(data, before, sys) && before.caps == map[]
    ensures WellFormed(data)
  {
    ExtractedIsWellFormedIff(data, before, sys);
  }

  /** An operation under way, as made for the node. */
  ghost predicate Good(op: CapOperation, data: HsmData, req: map<string, int>) {
    && WellFormed(data) && Addressed(op.uri, data, req)
    && op.caps == data.caps && op.controlsCount == data.controlsCount && op.ctlInfoCount == data.ctlInfoCount
    && Chosen(op.limits, data.caps, req, data.caps.Keys)
    && exists n :: Sendable(data.caps, req, n)
  }

  lemma GoodIsPayable(op: CapOperation, data: HsmData, req: map<string, int>)
    requires Good(op, data, req)
    ensures Payable(op)
  {
    ChosenSome(op.limits, op.caps, req);
  }

  lemma PayloadConveys(p: CapPayload, op: CapOperation, data: HsmData, req: map<string, int>)
    requires Good(op, data, req) && Payable(op)
    requires p.DeepPayload? <==> op.controlsCount > 0
    requires p.ApolloPayload? <==> op.controlsCount == 0 && IsApollo(op.uri)
    requires p.DeepPayload? ==>
               && |p.members| == |op.limits|
               && forall i :: 0 <= i < |op.limits| ==> p.members[i] == MemberFor(op.caps[op.limits[i].name], op.limits[i].value)
    requires p.ApolloPayload? ==> p.watts == op.limits[0].value && p.zone == 0
    requires p.PowerPayload? ==>
               && |p.slots| == op.ctlInfoCount
               && forall j :: 0 <= j < |p.slots| ==> p.slots[j] == LastFor(op.limits, op.caps, j)
    ensures Conveys(p, data, req)
  {
    match p
    case DeepPayload(members) =>
      var order := NamesOf(op.limits);
      assert forall i :: 0 <= i < |order| ==> op.limits[i] in op.limits && order[i] in order;
      assert Arranged(members, order, data.caps, req);
    case ApolloPayload(watts, zone) =>
      assert op.limits[0] in op.limits;
      assert NamesOf(op.limits)[0] in NamesOf(op.limits);
    case PowerPayload(slots) =>
      SlotsConvey(slots, op, data, req);
  }

  lemma SlotsConvey(slots: seq<Option<int>>, op: CapOperation, data: HsmData, req: map<string, int>)
    requires Good(op, data, req) && Payable(op) && op.controlsCount == 0
    requires |slots| == op.ctlInfoCount && forall j :: 0 <= j < |slots| ==> slots[j] == LastFor(op.limits, op.caps, j)
    ensures Conveys(PowerPayload(slots), data, req)
  {
    hide LastFor, IsApollo;
    forall n | Sendable(data.caps, req, n)
      ensures data.caps[n].index < |slots| && slots[data.caps[n].index] == Some(req[n])
    {
      assert n in NamesOf(op.limits);
      var i :| 0 <= i < |op.limits| && NamesOf(op.limits)[i] == n;
      assert op.limits[i] in op.limits;
      LastForMeans(op.limits, op.caps, data.caps[n].index);
    }
    forall j | 0 <= j < |slots| && slots[j].Some? ensures exists n :: Sendable(data.caps, req, n) && data.caps[n].index == j {
      LastForMeans(op.limits, op.caps, j);
      var l :| l in op.limits && op.caps[l.name].index == j;
      var i :| 0 <= i < |op.limits| && op.limits[i] == l;
      assert NamesOf(op.limits)[i] == l.name;
    }
  }

  /** The member switches the control to the value, or off if it is not positive. */
  predicate SaysOf(m: Member, cap: Cap, value: int) {
    && m.oid == cap.path
    && (value > 0 ==> m.setPoint == Some(value) && m.mode == "Automatic")
    && (value <= 0 ==> m.setPoint == None && m.mode == "Disabled")
  }

  /** Zero, or at least the known minimum; and at most the known maximum. */
  predicate Within(r: Range, value: int) {
    && (value == 0 || r.min == -1 || value >= r.min)
    && (r.max == -1 || value <= r.max)
  }

  /** Nothing out of range is ever part of a payload. */
  lemma SentValuesAreInRange(p: CapPayload, data: HsmData, req: map<string, int>)
    requires Conveys(p, data, req)
    ensures p.PowerPayload? ==> forall j :: 0 <= j < |p.slots| && p.slots[j].Some? ==>
              exists n :: n in req && n in data.caps && data.caps[n].index == j && p.slots[j].value == req[n]
                          && Within(data.caps[n].range, req[n])
    ensures p.ApolloPayload? ==> NODE_LIMIT in data.caps && Within(data.caps[NODE_LIMIT].range, p.watts)
    ensures p.DeepPayload? ==> forall m :: m in p.members ==>
              exists n :: n in req && n in data.caps && SaysOf(m, data.caps[n], req[n]) && Within(data.caps[n].range, req[n])
  {
    if p.PowerPayload? {
      forall j | 0 <= j < |p.slots| && p.slots[j].Some?
        ensures exists n :: n in req && n in data.caps && data.caps[n].index == j && p.slots[j].value == req[n]
                            && Within(data.caps[n].range, req[n])
      {
        var n :| Sendable(data.caps, req, n) && data.caps[n].index == j;
      }
    }
    if p.DeepPayload? {
      var order :| Arranged(p.members, order, data.caps, req);
      forall m | m in p.members
        ensures exists n :: n in req && n in data.caps && SaysOf(m, data.caps[n], req[n]) && Within(data.caps[n].range, req[n])
      {
        var i :| 0 <= i < |order| && p.members[i] == m;
        assert Sendable(data.caps, req, order[i]);
        assert SaysOf(m, data.caps[order[i]], req[order[i]]);
      }
    }
  }

  /** A control out of range does not keep the others from being sent, and the operation
      can end succeeded without it. */
  lemma PartOfARequestCanBeSent()
    ensures var a, b := Cap("Accelerator0", "/a", Range(100, 200), 0), Cap("Node", "/b", Range(500, 900), 1);
            var data := HsmData("bmc", HMSType.Node, false, "/power", "", 0, 2, map["Accelerator0" := a, "Node" := b]);
            var req := map["Accelerator0" := 150, "Node" := 100];
            && WellFormed(data) && Rejection(data, data.capURI).None?
            && Conveys(PowerPayload([Some(150), None]), data, req)
            && !InRange(b.range, req["Node"])
  {
    var a, b := Cap("Accelerator0", "/a", Range(100, 200), 0), Cap("Node", "/b", Range(500, 900), 1);
    var data := HsmData("bmc", HMSType.Node, false, "/power", "", 0, 2, map["Accelerator0" := a, "Node" := b]);
    var req := map["Accelerator0" := 150, "Node" := 100];
    assert Sendable(data.caps, req, "Accelerator0");
    assert !Sendable(data.caps, req, "Node");
  }
}
