/** PCI topology of the guest: host-tools/scripts/chutes/guest/qemu.py and `_build_pci_topology` of
    host-tools/scripts/chutes/guest/passthrough.py. Arguments are records instead of strings; the names
    inside them are rendered by `PortName` and `BusName`. */
module PciTopology {
  import opened Text

  // ---------------------------------------------------------------------------
  // Arguments
  // ---------------------------------------------------------------------------

  /** A root port by device class and position in its class, counted from zero. */
  datatype PortId = GpuPort(index: nat) | SwitchPort(index: nat) | IbPort(index: nat)

  datatype Bus = PcieRoot | PxbBus(node: nat)

  /** Each argument stands for two words of the command line. */
  datatype Arg =
    | RootPort(port: nat, chassis: nat, id: PortId, bus: Bus, slot: nat, func: nat, multifunction: bool)
    | Vfio(host: string, on: PortId)
    | FwCfg(index: nat, sizeMb: nat)
    | Pxb(busNr: nat, node: nat, slot: nat)

  datatype Device = Device(bdf: string, id: PortId, chassis: nat, bar: Option<(nat, nat)>)

  function PortName(id: PortId): string {
    match id
    case GpuPort(i) => "rp" + Decimal(i + 1)
    case SwitchPort(i) => "rp_nvsw" + Decimal(i + 1)
    case IbPort(i) => "rp_ib" + Decimal(i + 1)
  }

  function BusName(bus: Bus): string {
    match bus
    case PcieRoot => "pcie.0"
    case PxbBus(node) => "pxb_numa" + Decimal(node)
  }

  lemma DropPrefix(p: string, a: string, b: string)
    requires p + a == p + b
    ensures a == b
  {
    assert a == (p + a)[|p|..] && b == (p + b)[|p|..];
  }

  lemma DecimalStart(n: nat)
    ensures Decimal(n)[0] in DIGITS && Decimal(n)[0] != '_'
  {
    assert Decimal(n)[0] in Decimal(n);
    assert '_' !in DIGITS;
  }

  function PortPrefix(id: PortId): string {
    if id.GpuPort? then "rp" else if id.SwitchPort? then "rp_nvsw" else "rp_ib"
  }

  lemma PortNameParts(id: PortId)
    ensures PortName(id) == PortPrefix(id) + Decimal(id.index + 1)
    ensures |PortName(id)| > 2 && (id.GpuPort? <==> PortName(id)[2] != '_')
    ensures !id.GpuPort? ==> |PortName(id)| > 3 && PortName(id)[3] == if id.SwitchPort? then 'n' else 'i'
  {
    DecimalStart(id.index + 1);
    if id.GpuPort? {
      assert PortName(id)[2] == Decimal(id.index + 1)[0];
    }
  }

  /** Root port names are as distinct as the ports. */
  lemma PortNameInjective(a: PortId, b: PortId)
    requires PortName(a) == PortName(b)
    ensures a == b
  {
    PortNameParts(a);
    PortNameParts(b);
    DropPrefix(PortPrefix(a), Decimal(a.index + 1), Decimal(b.index + 1));
    DecimalInjective(a.index + 1, b.index + 1);
  }

  lemma BusNameInjective(a: Bus, b: Bus)
    requires BusName(a) == BusName(b)
    ensures a == b
  {
    assert "pcie.0"[1] == 'c';
    assert a.PxbBus? ==> BusName(a)[1] == 'x';
    assert b.PxbBus? ==> BusName(b)[1] == 'x';
    if a.PxbBus? {
      DropPrefix("pxb_numa", Decimal(a.node), Decimal(b.node));
      DecimalInjective(a.node, b.node);
    }
  }

  // ---------------------------------------------------------------------------
  // Where each device goes
  // ---------------------------------------------------------------------------

  const START_PORT := 16
  const START_SLOT := 8
  const PXB_SLOT := 24
  const PXB_BUS := 128
  const PXB_BUS_STEP := 32
  const UNKNOWN := -1

  /** The nodes of a group of devices, with how many devices each has. */
  type Nodes = multiset<int>

  /** The NUMA nodes that have devices. */
  function Opened(m: Nodes): set<int> {
    set n | n in m && n >= 0
  }

  /** Devices with a known NUMA node. */
  function Known(m: Nodes): nat {
    |m[UNKNOWN := 0]|
  }

  function Hint(d: Device): seq<Arg> {
    if d.bar.Some? then [FwCfg(d.bar.value.0, d.bar.value.1)] else []
  }

  /** The `k`-th device on the root bus. */
  function FlatPort(d: Device, k: nat): seq<Arg> {
    [RootPort(START_PORT + k, d.chassis, d.id, PcieRoot, START_SLOT + k / 8, k % 8, k % 8 == 0), Vfio(d.bdf, d.id)]
    + Hint(d)
  }

  /** The bridge of a node, when the node has no device yet. */
  function Opening(before: Nodes, n: nat): seq<Arg> {
    if n in before then [] else [Pxb(PXB_BUS + PXB_BUS_STEP * |Opened(before)|, n, PXB_SLOT + n)]
  }

  function BridgedPort(d: Device, port: nat, bus: Bus, slot: nat): seq<Arg> {
    [RootPort(port, d.chassis, d.id, bus, slot, 0, false), Vfio(d.bdf, d.id)] + Hint(d)
  }

  /** The arguments of one device on node `n`, after devices on the nodes `before`. */
  function DeviceArgs(before: Nodes, n: int, d: Device): seq<Arg> {
    if n < 0 then FlatPort(d, before[UNKNOWN])
    else Opening(before, n) + BridgedPort(d, START_PORT + Known(before), PxbBus(n), before[n] + 1)
  }

  /** The arguments of the first `n` devices. */
  function ArgsUpTo(nodes: seq<int>, devs: seq<Device>, n: nat): seq<Arg>
    requires n <= |devs| == |nodes|
  {
    if n == 0 then []
    else ArgsUpTo(nodes, devs, n - 1) + DeviceArgs(multiset(nodes[..n - 1]), nodes[n - 1], devs[n - 1])
  }

  function TopologyArgs(nodes: seq<int>, devs: seq<Device>): seq<Arg>
    requires |devs| == |nodes|
  {
    ArgsUpTo(nodes, devs, |devs|)
  }

  function AllUnknown(n: nat): (r: seq<int>)
    ensures |r| == n && forall i :: 0 <= i < n ==> r[i] == UNKNOWN
  {
    seq(n, _ => UNKNOWN)
  }

  // ---------------------------------------------------------------------------
  // The allocators
  // ---------------------------------------------------------------------------

  class PciTopologyState {
    var port: nat
    var slot: nat
    var func: nat

    /** The state after `k` devices. */
    ghost predicate After(k: nat)
      reads this
    {
      port == START_PORT + k && slot == START_SLOT + k / 8 && func == k % 8
    }

    constructor ()
      ensures After(0)
    {
      port, slot, func := START_PORT, START_SLOT, 0;
    }

    method AddDevice(d: Device, ghost k: nat) returns (args: seq<Arg>)
      requires After(k)
      modifies this
      ensures After(k + 1) && args == FlatPort(d, k)
    {
      if func == 0 {
        args := [RootPort(port, d.chassis, d.id, PcieRoot, slot, 0, true)];
      } else {
        args := [RootPort(port, d.chassis, d.id, PcieRoot, slot, func, false)];
      }
      args := args + [Vfio(d.bdf, d.id)];
      if d.bar.Some? {
        args := args + [FwCfg(d.bar.value.0, d.bar.value.1)];
      }
      port := port + 1;
      func := (func + 1) % 8;
      if func == 0 {
        slot := slot + 1;
      }
    }
  }

  lemma NodesNext(nodes: seq<int>, i: nat)
    requires i < |nodes|
    ensures multiset(nodes[..i + 1]) == multiset(nodes[..i]) + multiset{nodes[i]}
  {
    assert nodes[..i + 1] == nodes[..i] + [nodes[i]];
  }

  /** One more device on node `n`. */
  function Plus(m: Nodes, n: int): Nodes {
    m + multiset{n}
  }

  lemma OpenedNext(m: Nodes, n: int)
    ensures n < 0 || n in m ==> Opened(Plus(m, n)) == Opened(m)
    ensures n >= 0 && n !in m ==> Opened(Plus(m, n)) == Opened(m) + {n} && |Opened(Plus(m, n))| == |Opened(m)| + 1
  {
    assert forall x :: x in Plus(m, n) <==> x in m || x == n;
  }

  lemma KnownNext(m: Nodes, n: int)
    requires n >= -1
    ensures Known(Plus(m, n)) == Known(m) + if n >= 0 then 1 else 0
  {
    if n >= 0 {
      assert Plus(m, n)[UNKNOWN := 0] == m[UNKNOWN := 0] + multiset{n};
    } else {
      assert Plus(m, n)[UNKNOWN := 0] == m[UNKNOWN := 0];
    }
  }

  /** The counters of the bridged topology after devices on the nodes `m`. */
  ghost predicate Tracks(port: nat, created: map<int, Bus>, portIdx: map<int, nat>, busNr: nat, m: Nodes) {
    && port == START_PORT + Known(m)
    && busNr == PXB_BUS + PXB_BUS_STEP * |Opened(m)|
    && created.Keys == portIdx.Keys == Opened(m)
    && (forall n :: n in created ==> n >= 0 && created[n] == PxbBus(n) && portIdx[n] == m[n])
  }

  /** The same when the bridge of `node` is there but its next device is not. */
  ghost predicate Ready(port: nat, created: map<int, Bus>, portIdx: map<int, nat>, busNr: nat, m: Nodes, node: nat) {
    && port == START_PORT + Known(m)
    && busNr == PXB_BUS + PXB_BUS_STEP * |Opened(Plus(m, node))|
    && created.Keys == portIdx.Keys == Opened(Plus(m, node))
    && (forall n :: n in created ==> n >= 0 && created[n] == PxbBus(n) && portIdx[n] == m[n])
  }

  lemma ReadyBridge(port: nat, created: map<int, Bus>, portIdx: map<int, nat>, busNr: nat, m: Nodes, node: nat)
    requires Tracks(port, created, portIdx, busNr, m)
    ensures node in created <==> node in m
    ensures node in created ==> Ready(port, created, portIdx, busNr, m, node)
    ensures node !in created ==>
              Ready(port, created[node := PxbBus(node)], portIdx[node := 0], busNr + PXB_BUS_STEP, m, node)
  {
    OpenedNext(m, node);
  }

  lemma TracksPort(port: nat, created: map<int, Bus>, portIdx: map<int, nat>, busNr: nat, m: Nodes, node: nat)
    requires Ready(port, created, portIdx, busNr, m, node)
    ensures node in created && portIdx[node] == m[node]
    ensures Tracks(port + 1, created, portIdx[node := portIdx[node] + 1], busNr, Plus(m, node))
  {
    KnownNext(m, node);
    assert node in Plus(m, node);
  }

  class NumaPciTopologyState {
    var port: nat
    var pxbCreated: map<int, Bus>
    var pxbPortIdx: map<int, nat>
    var pxbBusnr: nat
    const flat: PciTopologyState

    /** The state after devices on the nodes `m`. */
    ghost predicate After(m: Nodes)
      reads this, flat
    {
      Tracks(port, pxbCreated, pxbPortIdx, pxbBusnr, m) && flat.After(m[UNKNOWN])
    }

    constructor ()
      ensures After(multiset{}) && fresh(flat)
    {
      port, pxbCreated, pxbPortIdx, pxbBusnr := START_PORT, map[], map[], PXB_BUS;
      flat := new PciTopologyState();
      new;
      assert multiset{}[UNKNOWN := 0] == multiset{};
      assert Opened(multiset{}) == {};
    }

    method EnsurePxb(node: nat, ghost m: Nodes) returns (args: seq<Arg>)
      requires Tracks(port, pxbCreated, pxbPortIdx, pxbBusnr, m)
      modifies this`pxbCreated, this`pxbPortIdx, this`pxbBusnr
      ensures Ready(port, pxbCreated, pxbPortIdx, pxbBusnr, m, node)
      ensures args == Opening(m, node)
    {
      args := [];
      ReadyBridge(port, pxbCreated, pxbPortIdx, pxbBusnr, m, node);
      if node !in pxbCreated {
        args := [Pxb(pxbBusnr, node, PXB_SLOT + node)];
        pxbCreated := pxbCreated[node := PxbBus(node)];
        pxbPortIdx := pxbPortIdx[node := 0];
        pxbBusnr := pxbBusnr + PXB_BUS_STEP;
      }
    }

    method AddPort(d: Device, node: nat, ghost m: Nodes) returns (args: seq<Arg>)
      requires Ready(port, pxbCreated, pxbPortIdx, pxbBusnr, m, node)
      modifies this`port, this`pxbPortIdx
      ensures Tracks(port, pxbCreated, pxbPortIdx, pxbBusnr, Plus(m, node))
      ensures args == BridgedPort(d, START_PORT + Known(m), PxbBus(node), m[node] + 1)
    {
      TracksPort(port, pxbCreated, pxbPortIdx, pxbBusnr, m, node);
      var bus, portIdx := pxbCreated[node], pxbPortIdx[node];
      pxbPortIdx := pxbPortIdx[node := portIdx + 1];
      args := [RootPort(port, d.chassis, d.id, bus, portIdx + 1, 0, false), Vfio(d.bdf, d.id)];
      if d.bar.Some? {
        args := args + [FwCfg(d.bar.value.0, d.bar.value.1)];
      }
      port := port + 1;
    }

    /** `numaNode` is what `read_pci_numa_node` reads for the device. */
    method AddDevice(d: Device, numaNode: int, ghost m: Nodes) returns (args: seq<Arg>)
      requires After(m) && numaNode >= -1
      modifies this, flat
      ensures After(Plus(m, numaNode)) && args == DeviceArgs(m, numaNode, d)
    {
      if numaNode < 0 {
        KnownNext(m, numaNode);
        OpenedNext(m, numaNode);
        args := flat.AddDevice(d, m[UNKNOWN]);
      } else {
        var opening := EnsurePxb(numaNode, m);
        args := AddPort(d, numaNode, m);
        args := opening + args;
      }
    }
  }

  // ---------------------------------------------------------------------------
  // The whole device list
  // ---------------------------------------------------------------------------

  /** What a profile fixes: guest NUMA, and the BAR size when it is hinted to the firmware. */
  datatype Profile = Profile(enableNuma: bool, barHint: Option<nat>)

  /** GPUs, then NVSwitches, then InfiniBand devices; chassis numbers run through all of them. */
  function Devices(p: Profile, gpus: seq<string>, switches: seq<string>, ibs: seq<string>): (r: seq<Device>)
    ensures |r| == |gpus| + |switches| + |ibs|
  {
    seq(|gpus|, i requires 0 <= i < |gpus| =>
      Device(gpus[i], GpuPort(i), i + 1, if p.barHint.Some? then Some((i + 1, p.barHint.value)) else None))
    + seq(|switches|, j requires 0 <= j < |switches| =>
        Device(switches[j], SwitchPort(j), |gpus| + j + 1, None))
    + seq(|ibs|, k requires 0 <= k < |ibs| =>
        Device(ibs[k], IbPort(k), |gpus| + |switches| + k + 1, None))
  }

  /** Root port ids and chassis numbers are unique. */
  lemma IdsUnique(p: Profile, gpus: seq<string>, switches: seq<string>, ibs: seq<string>, i: nat, j: nat)
    requires i < j < |Devices(p, gpus, switches, ibs)|
    ensures var ds := Devices(p, gpus, switches, ibs);
            ds[i].id != ds[j].id && ds[i].chassis == i + 1 && ds[j].chassis == j + 1
  {
  }

  /** `read_pci_numa_node` on each device, or nothing known when the guest is flat. */
  function NodesUsed(numa: bool, readNode: string -> int, devs: seq<Device>): (r: seq<int>)
    ensures |r| == |devs|
  {
    if numa then seq(|devs|, i requires 0 <= i < |devs| => ReadNode(readNode, devs[i].bdf)) else AllUnknown(|devs|)
  }

  function ReadNode(readNode: string -> int, bdf: string): (n: int)
    ensures n >= -1
  {
    if readNode(bdf) >= 0 then readNode(bdf) else -1
  }

  lemma {:induction false} CountUnknown(n: nat)
    ensures multiset(AllUnknown(n))[UNKNOWN] == n
  {
    if n > 0 {
      CountUnknown(n - 1);
      assert AllUnknown(n) == AllUnknown(n - 1) + [UNKNOWN];
    }
  }

  method AddAllNuma(readNode: string -> int, devs: seq<Device>) returns (args: seq<Arg>)
    ensures args == TopologyArgs(NodesUsed(true, readNode, devs), devs)
  {
    args := [];
    var i := 0;
    var topo := new NumaPciTopologyState();
    ghost var nodes := NodesUsed(true, readNode, devs);
    while i < |devs|
      invariant 0 <= i <= |devs| && topo.After(multiset(nodes[..i])) && args == ArgsUpTo(nodes, devs, i)
      invariant fresh(topo) && fresh(topo.flat)
    {
      var node := ReadNode(readNode, devs[i].bdf);
      assert node == nodes[i];
      NodesNext(nodes, i);
      var more := topo.AddDevice(devs[i], node, multiset(nodes[..i]));
      args := args + more;
      i := i + 1;
    }
  }

  lemma UnknownNext(devs: seq<Device>, i: nat)
    requires i < |devs|
    ensures var nodes := AllUnknown(|devs|);
            ArgsUpTo(nodes, devs, i + 1) == ArgsUpTo(nodes, devs, i) + FlatPort(devs[i], i)
  {
    assert AllUnknown(|devs|)[..i] == AllUnknown(i);
    CountUnknown(i);
  }

  method AddAllFlat(devs: seq<Device>) returns (args: seq<Arg>)
    ensures args == TopologyArgs(AllUnknown(|devs|), devs)
  {
    args := [];
    var i := 0;
    var topo := new PciTopologyState();
    ghost var nodes := AllUnknown(|devs|);
    while i < |devs|
      invariant 0 <= i <= |devs| && topo.After(i) && args == ArgsUpTo(nodes, devs, i)
      invariant fresh(topo)
    {
      var more := topo.AddDevice(devs[i], i);
      UnknownNext(devs, i);
      args := args + more;
      i := i + 1;
    }
  }

  method BuildPciTopology(p: Profile, numaNodes: nat, readNode: string -> int,
                          gpus: seq<string>, switches: seq<string>, ibs: seq<string>)
    returns (args: seq<Arg>)
    ensures var devs := Devices(p, gpus, switches, ibs);
            args == TopologyArgs(NodesUsed(p.enableNuma && numaNodes == 2, readNode, devs), devs)
  {
    var devs := Devices(p, gpus, switches, ibs);
    if p.enableNuma && numaNodes == 2 {
      args := AddAllNuma(readNode, devs);
    } else {
      args := AddAllFlat(devs);
    }
  }

  // ---------------------------------------------------------------------------
  // No two devices in one place
  // ---------------------------------------------------------------------------

  /** A place on a bus. */
  datatype Place = Place(bus: Bus, slot: nat, func: nat)

  function Occupies(a: Arg): Option<Place> {
    match a
    case RootPort(_, _, _, bus, slot, func, _) => Some(Place(bus, slot, func))
    case Pxb(_, _, slot) => Some(Place(PcieRoot, slot, 0))
    case _ => None
  }

  /** The places that devices on the nodes `m` take up. */
  ghost predicate Taken(m: Nodes, p: Place) {
    match p.bus
    case PcieRoot =>
      || (START_SLOT <= p.slot && p.func < 8 && 8 * (p.slot - START_SLOT) + p.func < m[UNKNOWN])
      || (p.slot >= PXB_SLOT && p.slot - PXB_SLOT in m && p.func == 0)
    case PxbBus(n) => 1 <= p.slot <= m[n] && p.func == 0
  }

  /** At most 128 devices on the root bus, at most 31 behind each bridge, node ids up to 7. */
  ghost predicate WithinLimits(nodes: seq<int>) {
    && multiset(nodes)[UNKNOWN] <= 128
    && (forall i :: 0 <= i < |nodes| ==> -1 <= nodes[i] <= 7)
    && (forall n :: n >= 0 ==> multiset(nodes)[n] <= 31)
  }

  /** The flat devices end before the slot of each bridge that is opened. */
  ghost predicate FlatsFit(m: Nodes) {
    forall n: nat :: n in m ==> m[UNKNOWN] <= 8 * (PXB_SLOT - START_SLOT + n)
  }

  lemma FlatPlace(d: Device, k: nat)
    ensures var p := Occupies(FlatPort(d, k)[0]);
            p.Some? && p.value.bus == PcieRoot && p.value.func < 8
            && p.value.slot >= START_SLOT && 8 * (p.value.slot - START_SLOT) + p.value.func == k
    ensures forall i :: 1 <= i < |FlatPort(d, k)| ==> Occupies(FlatPort(d, k)[i]).None?
  {
  }

  ghost predicate NoCollision(args: seq<Arg>) {
    forall i, j :: 0 <= i < j < |args| && Occupies(args[i]).Some? ==> Occupies(args[i]) != Occupies(args[j])
  }

  ghost predicate AllTaken(m: Nodes, args: seq<Arg>) {
    forall i :: 0 <= i < |args| && Occupies(args[i]).Some? ==> Taken(m, Occupies(args[i]).value)
  }

  ghost predicate AllFree(m: Nodes, args: seq<Arg>) {
    forall i :: 0 <= i < |args| && Occupies(args[i]).Some? ==> !Taken(m, Occupies(args[i]).value)
  }

  /** A device on the root bus takes a free place. */
  lemma FlatDevicePlaces(m: Nodes, d: Device)
    requires FlatsFit(Plus(m, UNKNOWN))
    ensures var b := DeviceArgs(m, UNKNOWN, d);
            NoCollision(b) && AllFree(m, b) && AllTaken(Plus(m, UNKNOWN), b)
  {
    FlatPlace(d, m[UNKNOWN]);
    assert forall n: nat :: n in m ==> n in Plus(m, UNKNOWN);
  }

  lemma PortPlaces(m: Nodes, n: nat, d: Device)
    ensures var b := BridgedPort(d, START_PORT + Known(m), PxbBus(n), m[n] + 1);
            && NoCollision(b) && AllFree(m, b) && AllTaken(Plus(m, n), b)
            && forall i :: 0 <= i < |b| ==> Occupies(b[i]) != Some(Place(PcieRoot, PXB_SLOT + n, 0))
  {
  }

  /** A device behind a bridge takes a free place there, and its bridge one on the root bus. */
  lemma BridgedDevicePlaces(m: Nodes, n: nat, d: Device)
    requires FlatsFit(Plus(m, n))
    ensures var b := DeviceArgs(m, n, d);
            NoCollision(b) && AllFree(m, b) && AllTaken(Plus(m, n), b)
  {
    PortPlaces(m, n, d);
    assert n in Plus(m, n);
  }

  lemma NoCollisionAppend(m: Nodes, a: seq<Arg>, b: seq<Arg>)
    requires NoCollision(a) && NoCollision(b) && AllTaken(m, a) && AllFree(m, b)
    ensures NoCollision(a + b)
  {
    forall i, j | 0 <= i < j < |a + b| && Occupies((a + b)[i]).Some?
      ensures Occupies((a + b)[i]) != Occupies((a + b)[j])
    {
      if j >= |a| {
        assert (a + b)[j] == b[j - |a|];
        if i >= |a| {
          assert (a + b)[i] == b[i - |a|];
        }
      }
    }
  }

  lemma AllTakenAppend(m: Nodes, n: int, a: seq<Arg>, b: seq<Arg>)
    requires AllTaken(m, a) && AllTaken(Plus(m, n), b)
    ensures AllTaken(Plus(m, n), a + b)
  {
    assert forall x :: x in m ==> x in Plus(m, n);
  }

  lemma FitPrefix(nodes: seq<int>, i: nat)
    requires i <= |nodes| && FlatsFit(multiset(nodes))
    ensures FlatsFit(multiset(nodes[..i]))
  {
    assert nodes == nodes[..i] + nodes[i..];
    var m, rest := multiset(nodes[..i]), multiset(nodes[i..]);
    assert multiset(nodes) == m + rest;
    assert forall n: nat :: n in m ==> n in m + rest;
  }

  lemma {:induction false} ArgsPlaces(nodes: seq<int>, devs: seq<Device>, n: nat)
    requires n <= |devs| == |nodes| && FlatsFit(multiset(nodes))
    requires forall i :: 0 <= i < |nodes| ==> nodes[i] >= UNKNOWN
    ensures Placed(multiset(nodes[..n]), ArgsUpTo(nodes, devs, n))
  {
    if n > 0 {
      ArgsPlaces(nodes, devs, n - 1);
      PlacesNext(nodes, devs[n - 1], n - 1, ArgsUpTo(nodes, devs, n - 1));
    }
  }

  ghost predicate Placed(m: Nodes, args: seq<Arg>) {
    NoCollision(args) && AllTaken(m, args)
  }

  lemma PlacesNext(nodes: seq<int>, d: Device, i: nat, a: seq<Arg>)
    requires i < |nodes| && nodes[i] >= UNKNOWN && FlatsFit(multiset(nodes)) && Placed(multiset(nodes[..i]), a)
    ensures Placed(multiset(nodes[..i + 1]), a + DeviceArgs(multiset(nodes[..i]), nodes[i], d))
  {
    NodesNext(nodes, i);
    FitPrefix(nodes, i + 1);
    OneMoreDevice(multiset(nodes[..i]), nodes[i], d, a);
  }

  lemma OneMoreDevice(m: Nodes, x: int, d: Device, a: seq<Arg>)
    requires NoCollision(a) && AllTaken(m, a)
    requires x >= UNKNOWN && FlatsFit(Plus(m, x))
    ensures NoCollision(a + DeviceArgs(m, x, d)) && AllTaken(Plus(m, x), a + DeviceArgs(m, x, d))
  {
    var b := DeviceArgs(m, x, d);
    if x >= 0 {
      BridgedDevicePlaces(m, x, d);
    } else {
      FlatDevicePlaces(m, d);
    }
    NoCollisionAppend(m, a, b);
    AllTakenAppend(m, x, a, b);
  }

  /** Emulated devices use slots 2 to 7 of the root bus, flat ports 8 to 23 and bridges 24 to 31. */
  ghost predicate PlaceInRange(p: Place) {
    match p.bus
    case PcieRoot => (8 <= p.slot < 24 && p.func < 8) || (24 <= p.slot < 32 && p.func == 0)
    case PxbBus(_) => 1 <= p.slot < 32 && p.func == 0
  }

  /** Within the limits no two devices share a slot and function on any bus, and all places are valid
      ones outside the slots of the emulated devices. */
  lemma NoTwoDevicesShareAPlace(nodes: seq<int>, devs: seq<Device>)
    requires |devs| == |nodes| && WithinLimits(nodes)
    ensures NoCollision(TopologyArgs(nodes, devs))
    ensures forall i :: 0 <= i < |TopologyArgs(nodes, devs)| && Occupies(TopologyArgs(nodes, devs)[i]).Some? ==>
              PlaceInRange(Occupies(TopologyArgs(nodes, devs)[i]).value)
  {
    var args := TopologyArgs(nodes, devs);
    ArgsPlaces(nodes, devs, |devs|);
    assert nodes[..|nodes|] == nodes;
    forall i | 0 <= i < |args| && Occupies(args[i]).Some? ensures PlaceInRange(Occupies(args[i]).value) {
      TakenInRange(nodes, Occupies(args[i]).value);
    }
  }

  lemma TakenInRange(nodes: seq<int>, p: Place)
    requires WithinLimits(nodes) && Taken(multiset(nodes), p)
    ensures PlaceInRange(p)
  {
    if p.bus.PxbBus? {
      assert multiset(nodes)[p.bus.node] <= 31;
    }
  }

  /** Some argument takes up this place. */
  ghost predicate Holds(args: seq<Arg>, i: nat, p: Place) {
    i < |args| && Occupies(args[i]) == Some(p)
  }

  /** Argument `i` is the port of the `k`-th flat device, at its place. */
  ghost predicate HoldsFlat(args: seq<Arg>, i: nat, k: nat) {
    Holds(args, i, Place(PcieRoot, START_SLOT + k / 8, k % 8)) && args[i].RootPort?
  }

  lemma {:induction false} FlatHeld(nodes: seq<int>, devs: seq<Device>, n: nat, k: nat) returns (i: nat)
    requires n <= |devs| == |nodes| && k < multiset(nodes[..n])[UNKNOWN]
    ensures HoldsFlat(ArgsUpTo(nodes, devs, n), i, k)
  {
    LastOrEarlier(nodes, n, k);
    var m := multiset(nodes[..n - 1]);
    var a := ArgsUpTo(nodes, devs, n - 1);
    if k < m[UNKNOWN] {
      i := FlatHeld(nodes, devs, n - 1, k);
      StillHeld(a, DeviceArgs(m, nodes[n - 1], devs[n - 1]), i, k);
    } else {
      i := |a|;
      NextFlat(a, m, devs[n - 1]);
    }
  }

  lemma LastOrEarlier(nodes: seq<int>, n: nat, k: nat)
    requires n <= |nodes| && k < multiset(nodes[..n])[UNKNOWN]
    ensures n > 0
    ensures var before := multiset(nodes[..n - 1])[UNKNOWN];
            k < before || (k == before && nodes[n - 1] == UNKNOWN)
  {
    NodesNext(nodes, n - 1);
  }

  lemma NextFlat(a: seq<Arg>, m: Nodes, d: Device)
    ensures HoldsFlat(a + DeviceArgs(m, UNKNOWN, d), |a|, m[UNKNOWN])
  {
    assert (a + DeviceArgs(m, UNKNOWN, d))[|a|] == FlatPort(d, m[UNKNOWN])[0];
  }

  lemma StillHeld(a: seq<Arg>, b: seq<Arg>, i: nat, k: nat)
    requires HoldsFlat(a, i, k)
    ensures HoldsFlat(a + b, i, k)
  {
    HoldsGrows(a, b, i);
  }

  lemma HoldsGrows(a: seq<Arg>, b: seq<Arg>, i: nat)
    requires i < |a|
    ensures (a + b)[i] == a[i]
  {
  }

  lemma OpeningAt(a: seq<Arg>, m: Nodes, n: nat, d: Device)
    requires n !in m
    ensures var c := a + DeviceArgs(m, n, d);
            |a| < |c| && c[|a|].Pxb? && Occupies(c[|a|]) == Some(Place(PcieRoot, PXB_SLOT + n, 0))
  {
    assert DeviceArgs(m, n, d)[0] == Opening(m, n)[0];
  }

  /** The bridge of a node with a device is in the arguments. */
  lemma {:induction false} BridgeHeld(nodes: seq<int>, devs: seq<Device>, n: nat, node: nat) returns (i: nat)
    requires n <= |devs| == |nodes| && node in multiset(nodes[..n])
    ensures var args := ArgsUpTo(nodes, devs, n);
            Holds(args, i, Place(PcieRoot, PXB_SLOT + node, 0)) && args[i].Pxb?
  {
    InLastOrEarlier(nodes, n, node);
    var m := multiset(nodes[..n - 1]);
    var a := ArgsUpTo(nodes, devs, n - 1);
    if node in m {
      i := BridgeHeld(nodes, devs, n - 1, node);
      HoldsGrows(a, DeviceArgs(m, nodes[n - 1], devs[n - 1]), i);
    } else {
      i := |a|;
      OpeningAt(a, m, node, devs[n - 1]);
    }
  }

  lemma InLastOrEarlier(nodes: seq<int>, n: nat, node: nat)
    requires n <= |nodes| && node in multiset(nodes[..n])
    ensures n > 0 && (node in multiset(nodes[..n - 1]) || nodes[n - 1] == node)
  {
    NodesNext(nodes, n - 1);
  }

  /** Exactly when no two devices share a place: the flat devices end before the slot of each bridge. */
  lemma NoCollisionIff(nodes: seq<int>, devs: seq<Device>)
    requires |devs| == |nodes| && forall i :: 0 <= i < |nodes| ==> nodes[i] >= UNKNOWN
    ensures NoCollision(TopologyArgs(nodes, devs)) <==> FlatsFit(multiset(nodes))
  {
    assert nodes[..|nodes|] == nodes;
    if FlatsFit(multiset(nodes)) {
      ArgsPlaces(nodes, devs, |devs|);
    } else {
      var n: nat :| n in multiset(nodes) && multiset(nodes)[UNKNOWN] > 8 * (PXB_SLOT - START_SLOT + n);
      var k := 8 * (PXB_SLOT - START_SLOT + n);
      assert k / 8 == PXB_SLOT - START_SLOT + n && k % 8 == 0;
      BridgeSlotTaken(nodes, devs, k, n);
    }
  }

  lemma BridgeSlotTaken(nodes: seq<int>, devs: seq<Device>, k: nat, n: nat)
    requires |devs| == |nodes| && forall i :: 0 <= i < |nodes| ==> nodes[i] >= UNKNOWN
    requires n in multiset(nodes[..|nodes|]) && k < multiset(nodes[..|nodes|])[UNKNOWN]
    requires START_SLOT + k / 8 == PXB_SLOT + n && k % 8 == 0
    ensures !NoCollision(TopologyArgs(nodes, devs))
  {
    var i := FlatHeld(nodes, devs, |devs|, k);
    var j := BridgeHeld(nodes, devs, |devs|, n);
    Collide(TopologyArgs(nodes, devs), i, j, Place(PcieRoot, PXB_SLOT + n, 0));
  }

  lemma Collide(args: seq<Arg>, i: nat, j: nat, p: Place)
    requires Holds(args, i, p) && Holds(args, j, p) && i != j
    ensures !NoCollision(args)
  {
    assert i < j || j < i;
  }

  /** So the limit of 128 flat devices is tight: 129 of them and one device on node 0 collide. */
  lemma RootBusLimitIsTight(devs: seq<Device>)
    requires |devs| == 130
    ensures !NoCollision(TopologyArgs(AllUnknown(129) + [0], devs))
  {
    var nodes := AllUnknown(129) + [0];
    CountUnknown(129);
    assert multiset(nodes) == multiset(AllUnknown(129)) + multiset{0};
    assert multiset(nodes)[UNKNOWN] == 129 && 0 in multiset(nodes);
    NoCollisionIff(nodes, devs);
  }

  // ---------------------------------------------------------------------------
  // Emulated devices and memory
  // ---------------------------------------------------------------------------

  const EMULATED_SLOTS: seq<nat> := [2, 3, 4, 5, 6, 7]

  /** What `device_suffix` yields: nothing, a fixed slot, or the RuntimeError. */
  datatype Suffix = NoSuffix | FixedSlot(slot: nat) | Exhausted

  class PcieRootPinning {
    const enabled: bool
    var index: nat

    constructor (enabled: bool)
      ensures this.enabled == enabled && index == 0
    {
      this.enabled := enabled;
      index := 0;
    }

    method DeviceSuffix() returns (s: Suffix)
      modifies this
      ensures !enabled ==> s == NoSuffix && index == old(index)
      ensures enabled && old(index) < 6 ==> s == FixedSlot(old(index) + 2) && index == old(index) + 1
      ensures enabled && old(index) >= 6 ==> s == Exhausted && index == old(index)
    {
      if !enabled {
        return NoSuffix;
      }
      if index >= |EMULATED_SLOTS| {
        return Exhausted;
      }
      s := FixedSlot(EMULATED_SLOTS[index]);
      index := index + 1;
    }
  }

  /** The emulated devices of one launch: boot disk, network, up to three volumes, vsock. The slots are
      never exhausted, and with pinning enabled they are distinct slots below those of the ports. */
  method PinEmulatedDevices(enabled: bool, config: bool, cache: bool, storage: bool) returns (suffixes: seq<Suffix>)
    ensures |suffixes| == 3 + (if config then 1 else 0) + (if cache then 1 else 0) + (if storage then 1 else 0)
    ensures forall i :: 0 <= i < |suffixes| ==>
              suffixes[i] == (if enabled then FixedSlot(i + 2) else NoSuffix) && i + 2 < START_SLOT
  {
    var pinning := new PcieRootPinning(enabled);
    var volumes := (if config then 1 else 0) + (if cache then 1 else 0) + (if storage then 1 else 0);
    suffixes := [];
    var n := 0;
    while n < 3 + volumes
      invariant 0 <= n <= 3 + volumes && |suffixes| == n
      invariant fresh(pinning) && pinning.enabled == enabled && (enabled ==> pinning.index == n)
      invariant forall i :: 0 <= i < n ==> suffixes[i] == if enabled then FixedSlot(i + 2) else NoSuffix
    {
      var s := pinning.DeviceSuffix();
      suffixes := suffixes + [s];
      n := n + 1;
    }
  }

  function Sum(s: seq<nat>): nat {
    if s == [] then 0 else Sum(s[..|s| - 1]) + s[|s| - 1]
  }

  /** The guest memory is divided over the nodes without loss. */
  method NodeMemory(memMib: nat, numNodes: nat) returns (sizes: seq<nat>)
    requires numNodes > 0
    ensures |sizes| == numNodes && Sum(sizes) == memMib
    ensures forall i :: 0 <= i < numNodes - 1 ==> sizes[i] == memMib / numNodes
  {
    var perNode := memMib / numNodes;
    sizes := [];
    var i := 0;
    while i < numNodes
      invariant 0 <= i <= numNodes && |sizes| == i
      invariant forall j :: 0 <= j < i && j < numNodes - 1 ==> sizes[j] == perNode
      invariant Sum(sizes) == if i == numNodes then memMib else perNode * i
    {
      var size := if i == numNodes - 1 then memMib - perNode * (numNodes - 1) else perNode;
      PerNodeFits(memMib, numNodes);
      assert (sizes + [size])[..|sizes|] == sizes;
      sizes := sizes + [size];
      i := i + 1;
    }
  }

  lemma PerNodeFits(m: nat, n: nat)
    requires n > 0
    ensures (m / n) * (n - 1) <= m
  {
    assert (m / n) * n <= m;
  }
}
