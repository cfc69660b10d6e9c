/** The topology fingerprint of a host against the PCI arguments its launch emits:
    host-tools/scripts/chutes/guest/detection.py and host-tools/scripts/chutes/guest/gpu/topology.py. */
module Fingerprint {
  import opened Text
  import opened PciTopology
  import opened PciPassthrough

  /** `rawNode` is the content of a device's numa_node file, when it can be read. Detection lists devices
      in sorted order, so a host only has to say which ones it has. */
  datatype Host = Host(numaNodes: nat, rawNode: string -> Option<int>, gpus: set<string>, switches: set<string>)

  /** A profile without InfiniBand passthrough. */
  datatype LaunchProfile = LaunchProfile(base: Profile, passesSwitches: nat -> bool)

  datatype TopologyFingerprint =
    | NumaTopology(gpuNodes: seq<int>, switchNodes: seq<int>, ibNodes: seq<int>)
    | FlatTopology(gpuCount: nat, switchCount: nat, ibCount: nat)

  function RawNode(host: Host, bdf: string): int {
    if host.rawNode(bdf).Some? then host.rawNode(bdf).value else -1
  }

  predicate UsesNuma(p: LaunchProfile, host: Host) {
    p.base.enableNuma && host.numaNodes == 2
  }

  function PassedSwitches(p: LaunchProfile, host: Host): set<string> {
    if p.passesSwitches(|host.gpus|) then host.switches else {}
  }

  function Layout(host: Host, bdfs: seq<string>): (r: seq<int>)
    ensures |r| == |bdfs| && forall i :: 0 <= i < |r| ==> r[i] == RawNode(host, bdfs[i])
  {
    seq(|bdfs|, i requires 0 <= i < |bdfs| => RawNode(host, bdfs[i]))
  }

  ghost function FingerprintOf(p: LaunchProfile, host: Host): TopologyFingerprint {
    var gpus, switches := SortedKeys(host.gpus), SortedKeys(PassedSwitches(p, host));
    if UsesNuma(p, host) then NumaTopology(Layout(host, gpus), Layout(host, switches), [])
    else FlatTopology(|gpus|, |switches|, 0)
  }

  method DeviceNumaLayout(host: Host, bdfs: set<string>) returns (layout: seq<int>)
    ensures layout == Layout(host, SortedKeys(bdfs))
  {
    var sorted := SortNames(bdfs);
    layout := [];
    var i := 0;
    while i < |sorted|
      invariant 0 <= i <= |sorted| && layout == Layout(host, sorted)[..i]
    {
      if host.rawNode(sorted[i]).Some? {
        layout := layout + [host.rawNode(sorted[i]).value];
      } else {
        layout := layout + [-1];
      }
      i := i + 1;
    }
  }

  method HostTopologyFingerprint(p: LaunchProfile, host: Host) returns (fp: TopologyFingerprint)
    ensures fp == FingerprintOf(p, host)
  {
    var switches := PassedSwitches(p, host);
    if p.base.enableNuma && host.numaNodes == 2 {
      var gpuNodes := DeviceNumaLayout(host, host.gpus);
      var switchNodes := DeviceNumaLayout(host, switches);
      fp := NumaTopology(gpuNodes, switchNodes, []);
    } else {
      SortedLength(host.gpus);
      SortedLength(switches);
      fp := FlatTopology(|host.gpus|, |switches|, 0);
    }
  }

  // ---------------------------------------------------------------------------
  // The arguments of a launch
  // ---------------------------------------------------------------------------

  ghost function LaunchArgs(p: LaunchProfile, host: Host): seq<Arg> {
    var devs := Devices(p.base, SortedKeys(host.gpus), SortedKeys(PassedSwitches(p, host)), []);
    TopologyArgs(NodesUsed(UsesNuma(p, host), bdf => RawNode(host, bdf), devs), devs)
  }

  method Launch(p: LaunchProfile, host: Host) returns (args: seq<Arg>)
    ensures args == LaunchArgs(p, host)
  {
    var gpus := SortNames(host.gpus);
    var switches := SortNames(PassedSwitches(p, host));
    args := BuildPciTopology(p.base, host.numaNodes, bdf => RawNode(host, bdf), gpus, switches, []);
  }

  /** The host addresses are the only part of the arguments the guest does not see. */
  function EraseArg(a: Arg): Arg {
    if a.Vfio? then a.(host := "") else a
  }

  function Erase(args: seq<Arg>): (r: seq<Arg>)
    ensures |r| == |args| && forall i :: 0 <= i < |r| ==> r[i] == EraseArg(args[i])
  {
    seq(|args|, i requires 0 <= i < |args| => EraseArg(args[i]))
  }

  /** The switches that a launch passes on: all of them or none, by the number of GPUs. */
  ghost predicate Passes(p: LaunchProfile, host: Host, switches: set<string>) {
    switches == if p.passesSwitches(|host.gpus|) then host.switches else {}
  }

  /** The node that a device is placed by: the one its file names, if the profile asks for guest NUMA, the host
      has exactly two nodes, and the file can be read and names one. */
  ghost function PlacedBy(p: LaunchProfile, host: Host, bdf: string): int {
    if p.base.enableNuma && host.numaNodes == 2 && host.rawNode(bdf).Some? && host.rawNode(bdf).value >= 0
    then host.rawNode(bdf).value else -1
  }

  /** A launch passes on each GPU and each switch in sorted order, on the bridge of its node or on the root bus. */
  lemma LaunchSeats(p: LaunchProfile, host: Host, switches: set<string>)
    requires Passes(p, host, switches)
    ensures var gpus, bdfs := SortedKeys(host.gpus), SortedKeys(host.gpus) + SortedKeys(switches);
            && |Only(IsVfio, LaunchArgs(p, host))| == |Only(IsPort, LaunchArgs(p, host))| == |bdfs|
            && forall k :: 0 <= k < |bdfs| ==>
                 Seat(LaunchArgs(p, host), k, bdfs[k], PortOf(|gpus|, |SortedKeys(switches)|, k),
                      PlacedBy(p, host, bdfs[k]))
  {
    var gpus, sorted := SortedKeys(host.gpus), SortedKeys(switches);
    var devs := Devices(p.base, gpus, sorted, []);
    var nodes := NodesUsed(UsesNuma(p, host), bdf => RawNode(host, bdf), devs);
    assert gpus + sorted + [] == gpus + sorted;
    EachDeviceOnItsPort(p.base, nodes, gpus, sorted, []);
    forall k | 0 <= k < |nodes| ensures nodes[k] == PlacedBy(p, host, (gpus + sorted)[k]) {
      NodeOf(p, host, gpus, sorted, k);
    }
  }

  lemma NodeOf(p: LaunchProfile, host: Host, gpus: seq<string>, switches: seq<string>, k: nat)
    requires k < |gpus| + |switches|
    ensures var devs := Devices(p.base, gpus, switches, []);
            NodesUsed(UsesNuma(p, host), bdf => RawNode(host, bdf), devs)[k] == PlacedBy(p, host, (gpus + switches)[k])
  {
    DeviceAt(p.base, gpus, switches, [], k);
    assert gpus + switches + [] == gpus + switches;
  }

  /** What the fingerprint tells: the nodes as their files name them, with -1 for one that cannot be read, if the
      profile asks for guest NUMA and the host has exactly two nodes, and else only how many devices there are. */
  lemma FingerprintTells(p: LaunchProfile, host: Host, switches: set<string>)
    requires Passes(p, host, switches)
    ensures var gpus, fp := SortedKeys(host.gpus), FingerprintOf(p, host);
            if p.base.enableNuma && host.numaNodes == 2 then
              && fp.NumaTopology? && |fp.gpuNodes| == |host.gpus| && |fp.switchNodes| == |switches| && fp.ibNodes == []
              && |gpus| == |host.gpus|
              && (forall k :: 0 <= k < |gpus| ==>
                    fp.gpuNodes[k] == match host.rawNode(gpus[k]) case Some(n) => n case None => -1)
            else fp == FlatTopology(|host.gpus|, |switches|, 0)
  {
    SortedLength(host.gpus);
    SortedLength(switches);
  }

  // ---------------------------------------------------------------------------
  // What the arguments depend on
  // ---------------------------------------------------------------------------

  /** The node each device is placed by, with -1 for the root bus. */
  datatype Shape = Shape(gpus: seq<int>, switches: seq<int>)

  function Normal(n: int): int {
    if n >= 0 then n else UNKNOWN
  }

  function Normals(nodes: seq<int>): (r: seq<int>)
    ensures |r| == |nodes| && forall i :: 0 <= i < |r| ==> r[i] == Normal(nodes[i])
  {
    seq(|nodes|, i requires 0 <= i < |nodes| => Normal(nodes[i]))
  }

  /** What a fingerprint says about the placement of devices. */
  function ShapeOf(fp: TopologyFingerprint): Shape {
    match fp
    case NumaTopology(gpus, switches, _) => Shape(Normals(gpus), Normals(switches))
    case FlatTopology(gpus, switches, _) => Shape(AllUnknown(gpus), AllUnknown(switches))
  }

  function Blanks(n: nat): (r: seq<string>)
    ensures |r| == n && forall i :: 0 <= i < n ==> r[i] == ""
  {
    seq(n, _ => "")
  }

  function ShapeDevices(p: Profile, s: Shape): (devs: seq<Device>)
    ensures |devs| == |s.gpus| + |s.switches|
  {
    Devices(p, Blanks(|s.gpus|), Blanks(|s.switches|), [])
  }

  /** The erased arguments for a placement. */
  function ShapeArgs(p: Profile, s: Shape): seq<Arg> {
    TopologyArgs(s.gpus + s.switches, ShapeDevices(p, s))
  }

  function EraseDevices(devs: seq<Device>): (r: seq<Device>)
    ensures |r| == |devs| && forall i :: 0 <= i < |r| ==> r[i] == devs[i].(bdf := "")
  {
    seq(|devs|, i requires 0 <= i < |devs| => devs[i].(bdf := ""))
  }

  lemma EraseAppend(a: seq<Arg>, b: seq<Arg>)
    ensures Erase(a + b) == Erase(a) + Erase(b)
  {
  }

  lemma EraseDevice(m: Nodes, n: int, d: Device)
    ensures Erase(DeviceArgs(m, n, d)) == DeviceArgs(m, n, d.(bdf := ""))
  {
  }

  lemma EraseStep(a: seq<Arg>, m: Nodes, n: int, d: Device)
    ensures Erase(a + DeviceArgs(m, n, d)) == Erase(a) + DeviceArgs(m, n, d.(bdf := ""))
  {
    EraseDevice(m, n, d);
    EraseAppend(a, DeviceArgs(m, n, d));
  }

  lemma {:induction false} EraseArgs(nodes: seq<int>, devs: seq<Device>, n: nat)
    requires n <= |devs| == |nodes|
    ensures ErasedAlike(nodes, devs, EraseDevices(devs), n)
  {
    if n == 0 {
      EraseNone(nodes, devs, EraseDevices(devs));
    } else {
      EraseArgs(nodes, devs, n - 1);
      EraseNext(nodes, devs, n - 1);
    }
  }

  lemma EraseNone(nodes: seq<int>, devs: seq<Device>, erased: seq<Device>)
    requires |devs| == |nodes| == |erased|
    ensures ErasedAlike(nodes, devs, erased, 0)
  {
  }

  ghost predicate ErasedAlike(nodes: seq<int>, devs: seq<Device>, erased: seq<Device>, n: nat)
    requires n <= |devs| == |nodes| == |erased|
  {
    Erase(ArgsUpTo(nodes, devs, n)) == ArgsUpTo(nodes, erased, n)
  }

  lemma EraseNext(nodes: seq<int>, devs: seq<Device>, i: nat)
    requires i < |devs| == |nodes|
    requires ErasedAlike(nodes, devs, EraseDevices(devs), i)
    ensures ErasedAlike(nodes, devs, EraseDevices(devs), i + 1)
  {
    EraseStep(ArgsUpTo(nodes, devs, i), multiset(nodes[..i]), nodes[i], devs[i]);
  }

  lemma ErasedDevices(p: Profile, gpus: seq<string>, switches: seq<string>)
    ensures EraseDevices(Devices(p, gpus, switches, [])) == Devices(p, Blanks(|gpus|), Blanks(|switches|), [])
  {
  }

  lemma NodesWhenNuma(p: Profile, host: Host, gpus: seq<string>, switches: seq<string>)
    ensures NodesUsed(true, bdf => RawNode(host, bdf), Devices(p, gpus, switches, []))
            == Normals(Layout(host, gpus)) + Normals(Layout(host, switches))
  {
    var devs := Devices(p, gpus, switches, []);
    var nodes := NodesUsed(true, bdf => RawNode(host, bdf), devs);
    DeviceBdfs(p, gpus, switches);
    ByParts(nodes, Normals(Layout(host, gpus)), Normals(Layout(host, switches)));
  }

  lemma DeviceBdfs(p: Profile, gpus: seq<string>, switches: seq<string>)
    ensures var devs := Devices(p, gpus, switches, []);
            && |devs| == |gpus| + |switches|
            && (forall i :: 0 <= i < |gpus| ==> devs[i].bdf == gpus[i])
            && (forall j :: 0 <= j < |switches| ==> devs[|gpus| + j].bdf == switches[j])
  {
  }

  lemma ByParts(s: seq<int>, a: seq<int>, b: seq<int>)
    requires |s| == |a| + |b|
    requires forall i :: 0 <= i < |a| ==> s[i] == a[i]
    requires forall j :: 0 <= j < |b| ==> s[|a| + j] == b[j]
    ensures s == a + b
  {
    assert s[..|a|] == a && s[|a|..] == b;
  }

  lemma UnknownAppend(a: nat, b: nat)
    ensures AllUnknown(a + b) == AllUnknown(a) + AllUnknown(b)
  {
  }

  lemma NodesOfHost(p: LaunchProfile, host: Host)
    ensures var devs := Devices(p.base, SortedKeys(host.gpus), SortedKeys(PassedSwitches(p, host)), []);
            var s := ShapeOf(FingerprintOf(p, host));
            NodesUsed(UsesNuma(p, host), bdf => RawNode(host, bdf), devs) == s.gpus + s.switches
            && |s.gpus| == |SortedKeys(host.gpus)| && |s.switches| == |SortedKeys(PassedSwitches(p, host))|
  {
    var gpus, switches := SortedKeys(host.gpus), SortedKeys(PassedSwitches(p, host));
    if UsesNuma(p, host) {
      NodesWhenNuma(p.base, host, gpus, switches);
    } else {
      UnknownAppend(|gpus|, |switches|);
    }
  }

  /** The erased arguments of a launch are determined by the shape of its fingerprint. */
  lemma ErasedLaunch(p: LaunchProfile, host: Host)
    ensures Erase(LaunchArgs(p, host)) == ShapeArgs(p.base, ShapeOf(FingerprintOf(p, host)))
  {
    var gpus, switches := SortedKeys(host.gpus), SortedKeys(PassedSwitches(p, host));
    var devs := Devices(p.base, gpus, switches, []);
    var s := ShapeOf(FingerprintOf(p, host));
    NodesOfHost(p, host);
    ErasedDevices(p.base, gpus, switches);
    EraseArgs(s.gpus + s.switches, devs, |devs|);
  }

  // ---------------------------------------------------------------------------
  // What the arguments reveal
  // ---------------------------------------------------------------------------

  function BusOf(n: int): Bus {
    if n >= 0 then PxbBus(n) else PcieRoot
  }

  /** The root ports in order, with their buses. */
  function Ports(args: seq<Arg>): seq<(PortId, Bus)> {
    if args == [] then []
    else
      var a := args[|args| - 1];
      Ports(args[..|args| - 1]) + (if a.RootPort? then [(a.id, a.bus)] else [])
  }

  lemma {:induction false} PortsAppend(a: seq<Arg>, b: seq<Arg>)
    ensures Ports(a + b) == Ports(a) + Ports(b)
    decreases |b|
  {
    if b == [] {
      assert a + b == a;
    } else {
      PortsAppend(a, b[..|b| - 1]);
      assert (a + b)[..|a + b| - 1] == a + b[..|b| - 1];
    }
  }

  lemma NoPorts(args: seq<Arg>)
    requires |args| <= 1 && forall i :: 0 <= i < |args| ==> !args[i].RootPort?
    ensures Ports(args) == []
  {
  }

  lemma OnePort(a: Arg, b: Arg, rest: seq<Arg>)
    requires a.RootPort? && !b.RootPort? && |rest| <= 1 && forall i :: 0 <= i < |rest| ==> !rest[i].RootPort?
    ensures Ports([a, b] + rest) == [(a.id, a.bus)]
  {
    PortsAppend([a, b], rest);
    NoPorts(rest);
    PortsAppend([a], [b]);
    NoPorts([b]);
    assert [a, b] == [a] + [b];
    assert [a][..0] == [];
  }

  lemma DevicePorts(m: Nodes, n: int, d: Device)
    ensures Ports(DeviceArgs(m, n, d)) == [(d.id, BusOf(n))]
  {
    if n < 0 {
      var k := m[UNKNOWN];
      OnePort(RootPort(START_PORT + k, d.chassis, d.id, PcieRoot, START_SLOT + k / 8, k % 8, k % 8 == 0),
              Vfio(d.bdf, d.id), Hint(d));
    } else {
      PortsAppend(Opening(m, n), BridgedPort(d, START_PORT + Known(m), PxbBus(n), m[n] + 1));
      NoPorts(Opening(m, n));
      OnePort(RootPort(START_PORT + Known(m), d.chassis, d.id, PxbBus(n), m[n] + 1, 0, false),
              Vfio(d.bdf, d.id), Hint(d));
    }
  }

  lemma PortsStep(a: seq<Arg>, m: Nodes, n: int, d: Device)
    ensures Ports(a + DeviceArgs(m, n, d)) == Ports(a) + [(d.id, BusOf(n))]
  {
    DevicePorts(m, n, d);
    PortsAppend(a, DeviceArgs(m, n, d));
  }

  /** The first `n` devices sit on ports of their own names, on the buses of their nodes. */
  ghost predicate PortsAre(ports: seq<(PortId, Bus)>, nodes: seq<int>, devs: seq<Device>, n: nat)
    requires n <= |devs| == |nodes|
  {
    |ports| == n && forall i :: 0 <= i < n ==> ports[i] == (devs[i].id, BusOf(nodes[i]))
  }

  lemma PortsAreNext(args: seq<Arg>, m: Nodes, nodes: seq<int>, devs: seq<Device>, n: nat)
    requires n < |devs| == |nodes| && PortsAre(Ports(args), nodes, devs, n)
    ensures PortsAre(Ports(args + DeviceArgs(m, nodes[n], devs[n])), nodes, devs, n + 1)
  {
    PortsStep(args, m, nodes[n], devs[n]);
  }

  lemma {:induction false} ArgsPorts(nodes: seq<int>, devs: seq<Device>, n: nat)
    requires n <= |devs| == |nodes|
    ensures PortsAre(Ports(ArgsUpTo(nodes, devs, n)), nodes, devs, n)
  {
    if n > 0 {
      ArgsPorts(nodes, devs, n - 1);
      PortsAreNext(ArgsUpTo(nodes, devs, n - 1), multiset(nodes[..n - 1]), nodes, devs, n - 1);
    }
  }

  ghost predicate IsNormal(s: Shape) {
    && (forall i :: 0 <= i < |s.gpus| ==> s.gpus[i] >= -1)
    && (forall i :: 0 <= i < |s.switches| ==> s.switches[i] >= -1)
  }

  lemma ShapePorts(p: Profile, s: Shape)
    ensures PortsShow(Ports(ShapeArgs(p, s)), s)
  {
    var devs, nodes := ShapeDevices(p, s), s.gpus + s.switches;
    ArgsPorts(nodes, devs, |devs|);
    ShapeIds(p, s);
  }

  lemma ShapeIds(p: Profile, s: Shape)
    ensures var devs, nodes := ShapeDevices(p, s), s.gpus + s.switches;
            && (forall i :: 0 <= i < |s.gpus| ==> devs[i].id == GpuPort(i) && nodes[i] == s.gpus[i])
            && (forall j :: 0 <= j < |s.switches| ==>
                  devs[|s.gpus| + j].id == SwitchPort(j) && nodes[|s.gpus| + j] == s.switches[j])
  {
  }

  /** Different placements give different arguments. */
  lemma ShapeArgsInjective(p: Profile, s: Shape, t: Shape)
    requires IsNormal(s) && IsNormal(t) && ShapeArgs(p, s) == ShapeArgs(p, t)
    ensures s == t
  {
    ShapePorts(p, s);
    ShapePorts(p, t);
    SamePortsSameShape(Ports(ShapeArgs(p, s)), s, t);
  }

  ghost predicate PortsShow(ports: seq<(PortId, Bus)>, s: Shape) {
    && |ports| == |s.gpus| + |s.switches|
    && (forall i :: 0 <= i < |s.gpus| ==> ports[i] == (GpuPort(i), BusOf(s.gpus[i])))
    && (forall j :: 0 <= j < |s.switches| ==> ports[|s.gpus| + j] == (SwitchPort(j), BusOf(s.switches[j])))
  }

  lemma SamePortsSameShape(ports: seq<(PortId, Bus)>, s: Shape, t: Shape)
    requires IsNormal(s) && IsNormal(t) && PortsShow(ports, s) && PortsShow(ports, t)
    ensures s == t
  {
    SameGpuCount(ports, s, t);
    forall i | 0 <= i < |s.gpus| ensures s.gpus[i] == t.gpus[i] {
      assert ports[i] == (GpuPort(i), BusOf(s.gpus[i])) == (GpuPort(i), BusOf(t.gpus[i]));
    }
    forall j | 0 <= j < |s.switches| ensures s.switches[j] == t.switches[j] {
      assert ports[|s.gpus| + j] == (SwitchPort(j), BusOf(s.switches[j])) == (SwitchPort(j), BusOf(t.switches[j]));
    }
  }

  lemma SameGpuCount(ports: seq<(PortId, Bus)>, s: Shape, t: Shape)
    requires PortsShow(ports, s) && PortsShow(ports, t)
    ensures |s.gpus| == |t.gpus|
  {
    var a, b := |s.gpus|, |t.gpus|;
    assert a < |ports| ==> ports[a + 0].0 == SwitchPort(0);
    assert b < |ports| ==> ports[b + 0].0 == SwitchPort(0);
  }

  // ---------------------------------------------------------------------------
  // Fingerprints and arguments
  // ---------------------------------------------------------------------------

  /** For one profile, two hosts get the same arguments, host addresses erased, if and only if their
      fingerprints agree on where devices are placed. */
  lemma SameArgsIff(p: LaunchProfile, h1: Host, h2: Host)
    ensures Erase(LaunchArgs(p, h1)) == Erase(LaunchArgs(p, h2))
            <==> ShapeOf(FingerprintOf(p, h1)) == ShapeOf(FingerprintOf(p, h2))
  {
    ErasedLaunch(p, h1);
    ErasedLaunch(p, h2);
    NormalShape(FingerprintOf(p, h1));
    NormalShape(FingerprintOf(p, h2));
    EqualIffSameShape(p.base, Erase(LaunchArgs(p, h1)), Erase(LaunchArgs(p, h2)),
                      ShapeOf(FingerprintOf(p, h1)), ShapeOf(FingerprintOf(p, h2)));
  }

  lemma NormalShape(fp: TopologyFingerprint)
    ensures IsNormal(ShapeOf(fp))
  {
  }

  lemma EqualIffSameShape(p: Profile, a: seq<Arg>, b: seq<Arg>, s: Shape, t: Shape)
    requires a == ShapeArgs(p, s) && b == ShapeArgs(p, t) && IsNormal(s) && IsNormal(t)
    ensures a == b <==> s == t
  {
    if a == b {
      ShapeArgsInjective(p, s, t);
    }
  }

  /** Equal fingerprints give equal arguments. */
  lemma SameFingerprintSameArgs(p: LaunchProfile, h1: Host, h2: Host)
    requires FingerprintOf(p, h1) == FingerprintOf(p, h2)
    ensures Erase(LaunchArgs(p, h1)) == Erase(LaunchArgs(p, h2))
  {
    SameArgsIff(p, h1, h2);
  }

  ghost predicate AllKnown(fp: TopologyFingerprint) {
    fp.NumaTopology? ==>
      && (forall i :: 0 <= i < |fp.gpuNodes| ==> fp.gpuNodes[i] >= 0)
      && (forall i :: 0 <= i < |fp.switchNodes| ==> fp.switchNodes[i] >= 0)
  }

  lemma KnownShapeInjective(f: TopologyFingerprint, g: TopologyFingerprint)
    requires AllKnown(f) && AllKnown(g) && ShapeOf(f) == ShapeOf(g)
    requires ShapeOf(f).gpus != []
    requires (f.NumaTopology? ==> f.ibNodes == []) && (f.FlatTopology? ==> f.ibCount == 0)
    requires (g.NumaTopology? ==> g.ibNodes == []) && (g.FlatTopology? ==> g.ibCount == 0)
    ensures f == g
  {
    assert ShapeOf(f).gpus[0] == ShapeOf(g).gpus[0];
    if f.NumaTopology? && g.NumaTopology? {
      KnownNormals(f.gpuNodes, g.gpuNodes);
      KnownNormals(f.switchNodes, g.switchNodes);
    }
  }

  lemma KnownNormals(a: seq<int>, b: seq<int>)
    requires forall i :: 0 <= i < |a| ==> a[i] >= 0
    requires forall i :: 0 <= i < |b| ==> b[i] >= 0
    requires Normals(a) == Normals(b)
    ensures a == b
  {
    assert forall i :: 0 <= i < |a| ==> a[i] == Normals(a)[i];
    assert forall i :: 0 <= i < |b| ==> b[i] == Normals(b)[i];
  }

  /** When every device that is placed by node has a known one, the fingerprint captures exactly what
      distinguishes the arguments of two hosts. */
  lemma FingerprintIsExact(p: LaunchProfile, h1: Host, h2: Host)
    requires h1.gpus != {} && h2.gpus != {}
    requires AllKnown(FingerprintOf(p, h1)) && AllKnown(FingerprintOf(p, h2))
    ensures FingerprintOf(p, h1) == FingerprintOf(p, h2) <==> Erase(LaunchArgs(p, h1)) == Erase(LaunchArgs(p, h2))
  {
    SameArgsIff(p, h1, h2);
    SortedLength(h1.gpus);
    if ShapeOf(FingerprintOf(p, h1)) == ShapeOf(FingerprintOf(p, h2)) {
      KnownShapeInjective(FingerprintOf(p, h1), FingerprintOf(p, h2));
    }
  }

  /** With unknown nodes the fingerprint is finer than the arguments: a two-node host whose devices all
      lack a node launches like a flat host with as many devices, under another fingerprint. */
  lemma UnknownNodesLaunchFlat(p: LaunchProfile, h1: Host, h2: Host)
    requires UsesNuma(p, h1) && !UsesNuma(p, h2)
    requires forall bdf :: bdf in h1.gpus + PassedSwitches(p, h1) ==> RawNode(h1, bdf) < 0
    requires |h1.gpus| == |h2.gpus| && |PassedSwitches(p, h1)| == |PassedSwitches(p, h2)|
    ensures FingerprintOf(p, h1) != FingerprintOf(p, h2)
    ensures Erase(LaunchArgs(p, h1)) == Erase(LaunchArgs(p, h2))
  {
    SortedLength(h1.gpus);
    SortedLength(h2.gpus);
    SortedLength(PassedSwitches(p, h1));
    SortedLength(PassedSwitches(p, h2));
    NoneKnown(h1, h1.gpus);
    NoneKnown(h1, PassedSwitches(p, h1));
    SameArgsIff(p, h1, h2);
  }

  lemma NoneKnown(host: Host, bdfs: set<string>)
    requires forall bdf :: bdf in bdfs ==> RawNode(host, bdf) < 0
    ensures Normals(Layout(host, SortedKeys(bdfs))) == AllUnknown(|SortedKeys(bdfs)|)
  {
    var sorted := SortedKeys(bdfs);
    assert forall i :: 0 <= i < |sorted| ==> sorted[i] in Elements(sorted);
  }
}
