/** Which host device sits on which root port: `_build_pci_topology` of
    host-tools/scripts/chutes/guest/passthrough.py with the allocators of host-tools/scripts/chutes/guest/qemu.py. */
module PciPassthrough {
  import opened Text
  import opened PciTopology

  predicate IsPort(a: Arg) {
    a.RootPort?
  }

  predicate IsVfio(a: Arg) {
    a.Vfio?
  }

  predicate IsHint(a: Arg) {
    a.FwCfg?
  }

  /** The arguments of one kind, in order. */
  function Only(kind: Arg -> bool, args: seq<Arg>): seq<Arg> {
    if args == [] then []
    else Only(kind, args[..|args| - 1]) + if kind(args[|args| - 1]) then [args[|args| - 1]] else []
  }

  lemma {:induction false} OnlyAppend(kind: Arg -> bool, a: seq<Arg>, b: seq<Arg>)
    ensures Only(kind, a + b) == Only(kind, a) + Only(kind, b)
    decreases |b|
  {
    if b == [] {
      assert a + b == a;
    } else {
      var t, x := b[..|b| - 1], b[|b| - 1];
      OnlyAppend(kind, a, t);
      assert (a + b)[..|a + b| - 1] == a + t;
      AppendAssociative(Only(kind, a), Only(kind, t), if kind(x) then [x] else []);
    }
  }

  lemma OnlyOne(kind: Arg -> bool, a: Arg)
    ensures Only(kind, [a]) == if kind(a) then [a] else []
  {
    assert [a][..0] == [];
  }

  lemma OnlyHint(kind: Arg -> bool, d: Device)
    ensures Only(kind, Hint(d)) == if d.bar.Some? && kind(Hint(d)[0]) then Hint(d) else []
  {
    if d.bar.Some? {
      OnlyOne(kind, Hint(d)[0]);
    }
  }

  lemma OnlyPair(kind: Arg -> bool, port: Arg, d: Device)
    ensures Only(kind, [port, Vfio(d.bdf, d.id)] + Hint(d))
         == (if kind(port) then [port] else []) + (if kind(Vfio(d.bdf, d.id)) then [Vfio(d.bdf, d.id)] else [])
            + Only(kind, Hint(d))
  {
    assert [port, Vfio(d.bdf, d.id)] == [port] + [Vfio(d.bdf, d.id)];
    OnlyOne(kind, port);
    OnlyOne(kind, Vfio(d.bdf, d.id));
    OnlyAppend(kind, [port], [Vfio(d.bdf, d.id)]);
    OnlyAppend(kind, [port, Vfio(d.bdf, d.id)], Hint(d));
  }

  lemma OnlyOpening(kind: Arg -> bool, m: Nodes, n: nat)
    requires forall a: Arg :: a.Pxb? ==> !kind(a)
    ensures Only(kind, Opening(m, n)) == []
  {
    if n !in m {
      OnlyOne(kind, Opening(m, n)[0]);
    }
  }

  lemma OnlyDevice(kind: Arg -> bool, m: Nodes, n: int, d: Device, port: Arg)
    requires forall a: Arg :: a.Pxb? ==> !kind(a)
    requires port == if n < 0 then FlatPort(d, m[UNKNOWN])[0]
                     else BridgedPort(d, START_PORT + Known(m), PxbBus(n), m[n] + 1)[0]
    ensures Only(kind, DeviceArgs(m, n, d))
         == (if kind(port) then [port] else []) + (if kind(Vfio(d.bdf, d.id)) then [Vfio(d.bdf, d.id)] else [])
            + Only(kind, Hint(d))
  {
    OnlyPair(kind, port, d);
    if n >= 0 {
      var rest := BridgedPort(d, START_PORT + Known(m), PxbBus(n), m[n] + 1);
      OnlyOpening(kind, m, n);
      OnlyAppend(kind, Opening(m, n), rest);
      assert [] + Only(kind, rest) == Only(kind, rest);
    }
  }

  function PortArg(m: Nodes, n: int, d: Device): Arg {
    if n < 0 then FlatPort(d, m[UNKNOWN])[0] else BridgedPort(d, START_PORT + Known(m), PxbBus(n), m[n] + 1)[0]
  }

  lemma DevicePorts(m: Nodes, n: int, d: Device)
    ensures Only(IsPort, DeviceArgs(m, n, d)) == [PortArg(m, n, d)]
  {
    OnlyDevice(IsPort, m, n, d, PortArg(m, n, d));
    OnlyHint(IsPort, d);
  }

  lemma DeviceVfios(m: Nodes, n: int, d: Device)
    ensures Only(IsVfio, DeviceArgs(m, n, d)) == [Vfio(d.bdf, d.id)]
  {
    OnlyDevice(IsVfio, m, n, d, PortArg(m, n, d));
    OnlyHint(IsVfio, d);
  }

  lemma DeviceHints(m: Nodes, n: int, d: Device)
    ensures Only(IsHint, DeviceArgs(m, n, d)) == Hint(d)
  {
    OnlyDevice(IsHint, m, n, d, PortArg(m, n, d));
    OnlyHint(IsHint, d);
  }

  /** The ports, the devices on them and the firmware hints among the arguments, in the order of `devs`. */
  ghost predicate InOrder(args: seq<Arg>, nodes: seq<int>, devs: seq<Device>) {
    PortsFor(Only(IsPort, args), nodes, devs) && VfiosFor(Only(IsVfio, args), devs) && Only(IsHint, args) == Hints(devs)
  }

  function BusOf(node: int): Bus {
    if node >= 0 then PxbBus(node) else PcieRoot
  }

  ghost predicate PortsFor(ports: seq<Arg>, nodes: seq<int>, devs: seq<Device>) {
    && |ports| == |devs| == |nodes|
    && forall k :: 0 <= k < |devs| ==>
         && ports[k].RootPort? && ports[k].id == devs[k].id && ports[k].chassis == devs[k].chassis
         && ports[k].bus == BusOf(nodes[k])
  }

  ghost predicate VfiosFor(vfios: seq<Arg>, devs: seq<Device>) {
    |vfios| == |devs| && forall k :: 0 <= k < |devs| ==> vfios[k] == Vfio(devs[k].bdf, devs[k].id)
  }

  lemma PairsNext(ports: seq<Arg>, vfios: seq<Arg>, nodes: seq<int>, devs: seq<Device>, port: Arg, n: int, d: Device)
    requires PortsFor(ports, nodes, devs) && VfiosFor(vfios, devs)
    requires port.RootPort? && port.id == d.id && port.chassis == d.chassis && port.bus == BusOf(n)
    ensures PortsFor(ports + [port], nodes + [n], devs + [d]) && VfiosFor(vfios + [Vfio(d.bdf, d.id)], devs + [d])
  {
  }

  ghost function Hints(devs: seq<Device>): seq<Arg> {
    if devs == [] then [] else Hints(devs[..|devs| - 1]) + Hint(devs[|devs| - 1])
  }

  lemma {:induction false} ArgsInOrder(nodes: seq<int>, devs: seq<Device>, n: nat)
    requires n <= |devs| == |nodes|
    ensures InOrder(ArgsUpTo(nodes, devs, n), nodes[..n], devs[..n])
  {
    if n > 0 {
      ArgsInOrder(nodes, devs, n - 1);
      NextInOrder(nodes, devs, n - 1);
    }
  }

  lemma NextInOrder(nodes: seq<int>, devs: seq<Device>, i: nat)
    requires i < |devs| == |nodes| && InOrder(ArgsUpTo(nodes, devs, i), nodes[..i], devs[..i])
    ensures InOrder(ArgsUpTo(nodes, devs, i + 1), nodes[..i + 1], devs[..i + 1])
  {
    PrefixNext(devs, i);
    PrefixNext(nodes, i);
    OneMore(ArgsUpTo(nodes, devs, i), nodes[..i], devs[..i], multiset(nodes[..i]), nodes[i], devs[i]);
  }

  lemma PrefixNext<T>(s: seq<T>, i: nat)
    requires i < |s|
    ensures s[..i + 1] == s[..i] + [s[i]]
  {
  }

  lemma OneMore(args: seq<Arg>, nodes: seq<int>, devs: seq<Device>, m: Nodes, n: int, d: Device)
    requires InOrder(args, nodes, devs)
    ensures InOrder(args + DeviceArgs(m, n, d), nodes + [n], devs + [d])
  {
    var more := DeviceArgs(m, n, d);
    DevicePorts(m, n, d);
    DeviceVfios(m, n, d);
    DeviceHints(m, n, d);
    OnlyAppend(IsPort, args, more);
    OnlyAppend(IsVfio, args, more);
    OnlyAppend(IsHint, args, more);
    PairsNext(Only(IsPort, args), Only(IsVfio, args), nodes, devs, PortArg(m, n, d), n, d);
    assert (devs + [d])[..|devs|] == devs;
  }

  lemma {:induction false} GpuHints(devs: seq<Device>, gpus: nat, size: Option<nat>)
    requires forall k :: 0 <= k < |devs| ==>
               devs[k].bar == if k < gpus && size.Some? then Some((k + 1, size.value)) else None
    ensures size.None? ==> Hints(devs) == []
    ensures size.Some? ==> |Hints(devs)| == if |devs| < gpus then |devs| else gpus
    ensures size.Some? ==> forall k :: 0 <= k < |Hints(devs)| ==> Hints(devs)[k] == FwCfg(k + 1, size.value)
  {
    if devs != [] {
      GpuHints(devs[..|devs| - 1], gpus, size);
    }
  }

  /** The name of the root port of device `k`. */
  function PortOf(gpus: nat, switches: nat, k: nat): string {
    if k < gpus then "rp" + Decimal(k + 1)
    else if k < gpus + switches then "rp_nvsw" + Decimal(k - gpus + 1)
    else "rp_ib" + Decimal(k - gpus - switches + 1)
  }

  function IdOf(gpus: nat, switches: nat, k: nat): PortId {
    if k < gpus then GpuPort(k)
    else if k < gpus + switches then SwitchPort(k - gpus)
    else IbPort(k - gpus - switches)
  }

  lemma DeviceAt(p: Profile, gpus: seq<string>, switches: seq<string>, ibs: seq<string>, k: nat)
    requires k < |gpus| + |switches| + |ibs|
    ensures var d := Devices(p, gpus, switches, ibs)[k];
            && d.bdf == (gpus + switches + ibs)[k] && d.id == IdOf(|gpus|, |switches|, k) && d.chassis == k + 1
            && d.bar == if k < |gpus| && p.barHint.Some? then Some((k + 1, p.barHint.value)) else None
  {
  }

  lemma IdNamed(gpus: nat, switches: nat, k: nat)
    ensures PortName(IdOf(gpus, switches, k)) == PortOf(gpus, switches, k)
  {
    PortNameParts(IdOf(gpus, switches, k));
  }

  /** Device argument `k` names `host` on root port `k`, which bears that name and the chassis number k + 1, on
      the bridge of its node or, when that is not known, on the root bus. */
  ghost predicate Seat(args: seq<Arg>, k: nat, host: string, name: string, node: int)
    requires k < |Only(IsVfio, args)| && k < |Only(IsPort, args)|
  {
    var port, on := Only(IsPort, args)[k], Only(IsVfio, args)[k];
    && on.Vfio? && on.host == host && PortName(on.on) == name
    && port.RootPort? && port.id == on.on && port.chassis == k + 1
    && port.bus == if node >= 0 then PxbBus(node) else PcieRoot
  }

  /** With every topology, the `k`-th device argument names the `k`-th of the GPUs, then the switches, then the
      InfiniBand devices, on the `k`-th root port, which bears the name of that device's class and place and
      the chassis number k + 1; and the firmware hints are one for each GPU, in order, when the profile asks
      for them. */
  lemma EachDeviceOnItsPort(p: Profile, nodes: seq<int>, gpus: seq<string>, switches: seq<string>, ibs: seq<string>)
    requires |nodes| == |gpus| + |switches| + |ibs|
    ensures var args := TopologyArgs(nodes, Devices(p, gpus, switches, ibs));
            && |Only(IsVfio, args)| == |Only(IsPort, args)| == |nodes|
            && (forall k :: 0 <= k < |nodes| ==>
                  Seat(args, k, (gpus + switches + ibs)[k], PortOf(|gpus|, |switches|, k), nodes[k]))
            && |Only(IsHint, args)| == (if p.barHint.Some? then |gpus| else 0)
            && (forall k :: 0 <= k < |Only(IsHint, args)| ==> Only(IsHint, args)[k] == FwCfg(k + 1, p.barHint.value))
  {
    var devs := Devices(p, gpus, switches, ibs);
    ArgsInOrder(nodes, devs, |devs|);
    assert devs[..|devs|] == devs;
    var args := TopologyArgs(nodes, devs);
    assert nodes[..|nodes|] == nodes;
    forall k | 0 <= k < |nodes|
      ensures Seat(args, k, (gpus + switches + ibs)[k], PortOf(|gpus|, |switches|, k), nodes[k])
    {
      SeatOf(args, p, nodes, gpus, switches, ibs, k);
    }
    HintsInOrder(p, gpus, switches, ibs);
  }

  lemma SeatOf(args: seq<Arg>, p: Profile, nodes: seq<int>, gpus: seq<string>, switches: seq<string>, ibs: seq<string>,
               k: nat)
    requires InOrder(args, nodes, Devices(p, gpus, switches, ibs)) && k < |nodes|
    ensures Seat(args, k, (gpus + switches + ibs)[k], PortOf(|gpus|, |switches|, k), nodes[k])
  {
    DeviceAt(p, gpus, switches, ibs, k);
    IdNamed(|gpus|, |switches|, k);
  }

  lemma HintsInOrder(p: Profile, gpus: seq<string>, switches: seq<string>, ibs: seq<string>)
    ensures var hints := Hints(Devices(p, gpus, switches, ibs));
            && |hints| == (if p.barHint.Some? then |gpus| else 0)
            && forall k :: 0 <= k < |hints| ==> hints[k] == FwCfg(k + 1, p.barHint.value)
  {
    var devs := Devices(p, gpus, switches, ibs);
    forall k | 0 <= k < |devs|
      ensures devs[k].bar == if k < |gpus| && p.barHint.Some? then Some((k + 1, p.barHint.value)) else None
    {
      DeviceAt(p, gpus, switches, ibs, k);
    }
    GpuHints(devs, |gpus|, p.barHint);
  }
}
