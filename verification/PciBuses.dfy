/** Bus numbers of the PXB bridges: host-tools/scripts/chutes/guest/qemu.py. A bridge with bus number `b` and `k`
    ports behind it takes up the bus numbers from `b` to `b + k`. */
module PciBuses {
  import opened Text
  import opened PciTopology

  /** The bridges among the arguments, in order. */
  function Bridges(args: seq<Arg>): seq<Arg> {
    if args == [] then []
    else Bridges(args[..|args| - 1]) + (if args[|args| - 1].Pxb? then [args[|args| - 1]] else [])
  }

  lemma {:induction false} BridgesAppend(a: seq<Arg>, b: seq<Arg>)
    ensures Bridges(a + b) == Bridges(a) + Bridges(b)
    decreases |b|
  {
    if b == [] {
      assert a + b == a;
    } else {
      var t, x := b[..|b| - 1], b[|b| - 1];
      BridgesAppend(a, t);
      assert (a + b)[..|a + b| - 1] == a + t;
      AppendAssociative(Bridges(a), Bridges(t), if x.Pxb? then [x] else []);
    }
  }

  lemma {:induction false} NoBridges(args: seq<Arg>)
    requires forall i :: 0 <= i < |args| ==> !args[i].Pxb?
    ensures Bridges(args) == []
  {
    if args != [] {
      NoBridges(args[..|args| - 1]);
    }
  }

  lemma DeviceBridges(m: Nodes, n: int, d: Device)
    ensures Bridges(DeviceArgs(m, n, d)) == if n >= 0 then Opening(m, n) else []
  {
    if n < 0 {
      NoBridges(FlatPort(d, m[UNKNOWN]));
    } else {
      var port := BridgedPort(d, START_PORT + Known(m), PxbBus(n), m[n] + 1);
      NoBridges(port);
      BridgesAppend(Opening(m, n), port);
      assert Opening(m, n) == [] || |Opening(m, n)| == 1;
      assert Opening(m, n) != [] ==> Opening(m, n)[..0] == [];
      assert Bridges(Opening(m, n)) == Opening(m, n);
    }
  }

  /** Bridge `j` has the bus number 128 + 32 * j; the bridges are those of the opened nodes, each once. */
  ghost predicate Numbered(bs: seq<Arg>, known: set<int>) {
    && |bs| == |known|
    && (forall j :: 0 <= j < |bs| ==>
          bs[j].Pxb? && bs[j].busNr == PXB_BUS + PXB_BUS_STEP * j && bs[j].node in known)
    && (forall i, j :: 0 <= i < j < |bs| ==> bs[i].node != bs[j].node)
  }

  ghost predicate Matching(args: seq<Arg>, m: Nodes) {
    Numbered(Bridges(args), Opened(m))
  }

  lemma NumberedNext(bs: seq<Arg>, known: set<int>, n: nat)
    requires Numbered(bs, known) && n !in known
    ensures Numbered(bs + [Pxb(PXB_BUS + PXB_BUS_STEP * |known|, n, PXB_SLOT + n)], known + {n})
  {
  }

  lemma NoDevices(nodes: seq<int>)
    ensures Matching([], multiset(nodes[..0]))
  {
    assert nodes[..0] == [];
    assert Opened(multiset(nodes[..0])) == {};
  }

  lemma {:induction false} BridgesNumbered(nodes: seq<int>, devs: seq<Device>, n: nat)
    requires n <= |devs| == |nodes|
    ensures Matching(ArgsUpTo(nodes, devs, n), multiset(nodes[..n]))
  {
    if n == 0 {
      NoDevices(nodes);
    } else {
      BridgesNumbered(nodes, devs, n - 1);
      NextBridges(nodes, devs, n - 1);
    }
  }

  lemma NextBridges(nodes: seq<int>, devs: seq<Device>, i: nat)
    requires i < |devs| == |nodes| && Matching(ArgsUpTo(nodes, devs, i), multiset(nodes[..i]))
    ensures Matching(ArgsUpTo(nodes, devs, i + 1), multiset(nodes[..i + 1]))
  {
    NodesNext(nodes, i);
    OneDevice(ArgsUpTo(nodes, devs, i), multiset(nodes[..i]), nodes[i], devs[i]);
  }

  lemma OneDevice(args: seq<Arg>, m: Nodes, x: int, d: Device)
    requires Matching(args, m)
    ensures Matching(args + DeviceArgs(m, x, d), Plus(m, x))
  {
    BridgesAppend(args, DeviceArgs(m, x, d));
    DeviceBridges(m, x, d);
    BridgesMore(Bridges(args), m, x);
  }

  lemma BridgesMore(bs: seq<Arg>, m: Nodes, x: int)
    requires Numbered(bs, Opened(m))
    ensures Numbered(bs + (if x >= 0 then Opening(m, x) else []), Opened(Plus(m, x)))
  {
    OpenedNext(m, x);
    if x >= 0 && x !in m {
      NumberedNext(bs, Opened(m), x);
    } else {
      assert bs + [] == bs;
    }
  }

  function BridgesOf(nodes: seq<int>, devs: seq<Device>): seq<Arg>
    requires |devs| == |nodes|
  {
    Bridges(TopologyArgs(nodes, devs))
  }

  ghost predicate AllBridges(bs: seq<Arg>) {
    forall j :: 0 <= j < |bs| ==> bs[j].Pxb?
  }

  /** The last bus number that bridge `j` takes up, with a port for each device of its node. */
  ghost function LastBus(bs: seq<Arg>, m: Nodes, j: nat): nat
    requires AllBridges(bs) && j < |bs|
  {
    bs[j].busNr + m[bs[j].node]
  }

  /** The bus numbers of a bridge end before those of the next ones begin. */
  ghost predicate Disjoint(bs: seq<Arg>, m: Nodes)
    requires AllBridges(bs)
  {
    forall i, j :: 0 <= i < j < |bs| ==> LastBus(bs, m, i) < bs[j].busNr
  }

  /** For every device sequence, the bridges' bus numbers are disjoint if and only if every bridge but the last
      has at most 31 devices. */
  lemma BusesDisjointIff(nodes: seq<int>, devs: seq<Device>)
    requires |devs| == |nodes|
    ensures AllBridges(BridgesOf(nodes, devs))
    ensures Disjoint(BridgesOf(nodes, devs), multiset(nodes))
       <==> forall j :: 0 <= j < |BridgesOf(nodes, devs)| - 1 ==> multiset(nodes)[BridgesOf(nodes, devs)[j].node] <= 31
  {
    var bs, m := BridgesOf(nodes, devs), multiset(nodes);
    BridgesNumbered(nodes, devs, |devs|);
    assert nodes[..|nodes|] == nodes;
    if Disjoint(bs, m) {
      forall j | 0 <= j < |bs| - 1 ensures m[bs[j].node] <= 31 {
        assert LastBus(bs, m, j) < bs[j + 1].busNr;
      }
    }
  }

  /** All bus numbers are at most 255. */
  ghost predicate Within(bs: seq<Arg>, m: Nodes)
    requires AllBridges(bs)
  {
    forall j :: 0 <= j < |bs| ==> LastBus(bs, m, j) <= 255
  }

  /** For every device sequence, all bus numbers stay within 255 if and only if there are at most four bridges,
      with at most 127, 95, 63 and 31 devices in the order in which they are opened. So with at most 31 devices
      each there may be four bridges and no more; a fifth one begins at 256. */
  lemma BusesFitIff(nodes: seq<int>, devs: seq<Device>)
    requires |devs| == |nodes|
    ensures AllBridges(BridgesOf(nodes, devs)) && |BridgesOf(nodes, devs)| == |Opened(multiset(nodes))|
    ensures var bs, m := BridgesOf(nodes, devs), multiset(nodes);
            && (Within(bs, m) <==> |bs| <= 4 && forall j :: 0 <= j < |bs| ==> m[bs[j].node] <= 127 - 32 * j)
            && ((forall j :: 0 <= j < |bs| ==> m[bs[j].node] <= 31) ==> (Within(bs, m) <==> |bs| <= 4))
            && (|bs| > 4 ==> bs[4].busNr == 256)
  {
    var bs, m := BridgesOf(nodes, devs), multiset(nodes);
    BridgesNumbered(nodes, devs, |devs|);
    assert nodes[..|nodes|] == nodes;
    WithinIff(bs, m, Opened(m));
  }

  lemma WithinIff(bs: seq<Arg>, m: Nodes, known: set<int>)
    requires Numbered(bs, known)
    ensures Within(bs, m) <==> |bs| <= 4 && forall j :: 0 <= j < |bs| ==> m[bs[j].node] <= 127 - 32 * j
  {
    if |bs| > 4 {
      assert LastBus(bs, m, 4) >= 256;
    } else if Within(bs, m) {
      forall j | 0 <= j < |bs| ensures m[bs[j].node] <= 127 - 32 * j {
        assert LastBus(bs, m, j) <= 255;
      }
    }
  }

  /** A 32nd device behind the first of two bridges reaches the bus number of the second. */
  lemma ThirtyTwoReach(devs: seq<Device>)
    requires |devs| == 33
    ensures var nodes := seq(32, _ => 0) + [1];
            AllBridges(BridgesOf(nodes, devs)) && !Disjoint(BridgesOf(nodes, devs), multiset(nodes))
  {
    var nodes := seq(32, _ => 0) + [1];
    var m := multiset(nodes);
    CountZeros(32);
    assert m == multiset(seq(32, _ => 0)) + multiset{1};
    BusesDisjointIff(nodes, devs);
    BridgesNumbered(nodes, devs, |devs|);
    assert nodes[..|nodes|] == nodes;
    assert Opened(m) == {0, 1};
    FirstBridge(nodes, devs);
  }

  lemma {:induction false} CountZeros(n: nat)
    ensures multiset(seq(n, _ => 0))[0] == n && multiset(seq(n, _ => 0))[1] == 0
  {
    if n > 0 {
      CountZeros(n - 1);
      assert seq(n, _ => 0) == seq(n - 1, _ => 0) + [0];
    }
  }

  /** The first bridge is that of the first device's node. */
  lemma FirstBridge(nodes: seq<int>, devs: seq<Device>)
    requires |devs| == |nodes| > 0 && nodes[0] >= 0
    ensures BridgesOf(nodes, devs) != [] && BridgesOf(nodes, devs)[0].Pxb? && BridgesOf(nodes, devs)[0].node == nodes[0]
  {
    FirstBridgeUpTo(nodes, devs, |devs|);
  }

  lemma {:induction false} FirstBridgeUpTo(nodes: seq<int>, devs: seq<Device>, n: nat)
    requires 0 < n <= |devs| == |nodes| && nodes[0] >= 0
    ensures var bs := Bridges(ArgsUpTo(nodes, devs, n)); bs != [] && bs[0].Pxb? && bs[0].node == nodes[0]
  {
    var m := multiset(nodes[..n - 1]);
    BridgesAppend(ArgsUpTo(nodes, devs, n - 1), DeviceArgs(m, nodes[n - 1], devs[n - 1]));
    DeviceBridges(m, nodes[n - 1], devs[n - 1]);
    if n > 1 {
      FirstBridgeUpTo(nodes, devs, n - 1);
    } else {
      assert nodes[..0] == [];
    }
  }
}
