/** Order and numbering of the PCIe root ports: host-tools/scripts/chutes/guest/qemu.py. */
module PciPorts {
  import opened Text
  import opened PciTopology

  // ---------------------------------------------------------------------------
  // Function 0 comes first
  // ---------------------------------------------------------------------------

  /** Before position `i` there is a multifunction port at function 0 of this root bus slot. */
  ghost predicate HasZero(args: seq<Arg>, i: nat, slot: nat) {
    exists j :: 0 <= j < i && j < |args| && IsZero(args[j], slot)
  }

  predicate IsZero(a: Arg, slot: nat) {
    a.RootPort? && a.bus == PcieRoot && a.slot == slot && a.func == 0 && a.multifunction
  }

  ghost predicate NeedsZero(a: Arg) {
    a.RootPort? && a.bus == PcieRoot && a.func != 0
  }

  ghost predicate ZeroFirst(args: seq<Arg>) {
    forall i :: 0 <= i < |args| && NeedsZero(args[i]) ==> HasZero(args, i, args[i].slot)
  }

  /** The slots that `count` flat devices have begun have their function 0. */
  ghost predicate Begun(args: seq<Arg>, count: nat) {
    forall slot: nat :: START_SLOT <= slot && 8 * (slot - START_SLOT) < count ==> HasZero(args, |args|, slot)
  }

  lemma HasZeroGrows(a: seq<Arg>, b: seq<Arg>, i: nat, slot: nat)
    requires i <= |a| && HasZero(a, i, slot)
    ensures HasZero(a + b, i, slot) && HasZero(a + b, |a + b|, slot)
  {
    var j :| 0 <= j < i && j < |a| && IsZero(a[j], slot);
    assert (a + b)[j] == a[j];
  }

  lemma BegunGrows(a: seq<Arg>, b: seq<Arg>, count: nat)
    requires Begun(a, count)
    ensures Begun(a + b, count)
  {
    forall slot: nat | START_SLOT <= slot && 8 * (slot - START_SLOT) < count ensures HasZero(a + b, |a + b|, slot) {
      HasZeroGrows(a, b, |a|, slot);
    }
  }

  lemma ZeroFirstAppend(a: seq<Arg>, b: seq<Arg>)
    requires ZeroFirst(a)
    requires forall i :: 0 <= i < |b| && NeedsZero(b[i]) ==> HasZero(a, |a|, b[i].slot)
    ensures ZeroFirst(a + b)
  {
    var c := a + b;
    forall i | 0 <= i < |c| && NeedsZero(c[i]) ensures HasZero(c, i, c[i].slot) {
      if i < |a| {
        HasZeroGrows(a, b, i, c[i].slot);
      } else {
        HasZeroGrows(a, b, |a|, c[i].slot);
        ZeroEarlier(a, b, i, c[i].slot);
      }
    }
  }

  lemma ZeroEarlier(a: seq<Arg>, b: seq<Arg>, i: nat, slot: nat)
    requires HasZero(a, |a|, slot) && |a| <= i
    ensures HasZero(a + b, i, slot)
  {
    var j :| 0 <= j < |a| && IsZero(a[j], slot);
    assert (a + b)[j] == a[j];
  }

  lemma FlatZero(a: seq<Arg>, d: Device, k: nat)
    requires ZeroFirst(a) && Begun(a, k)
    ensures ZeroFirst(a + FlatPort(d, k)) && Begun(a + FlatPort(d, k), k + 1)
  {
    var b := FlatPort(d, k);
    assert k % 8 != 0 ==> HasZero(a, |a|, START_SLOT + k / 8);
    ZeroFirstAppend(a, b);
    BegunGrows(a, b, k);
    var c := a + b;
    assert c[|a|] == b[0];
    forall slot: nat | START_SLOT <= slot && 8 * (slot - START_SLOT) < k + 1 ensures HasZero(c, |c|, slot) {
      if 8 * (slot - START_SLOT) == k {
        assert IsZero(c[|a|], slot);
      }
    }
  }

  lemma BridgedZero(a: seq<Arg>, m: Nodes, n: nat, d: Device, count: nat)
    requires ZeroFirst(a) && Begun(a, count)
    ensures ZeroFirst(a + DeviceArgs(m, n, d)) && Begun(a + DeviceArgs(m, n, d), count)
  {
    ZeroFirstAppend(a, DeviceArgs(m, n, d));
    BegunGrows(a, DeviceArgs(m, n, d), count);
  }

  lemma {:induction false} ZeroFirstUpTo(nodes: seq<int>, devs: seq<Device>, n: nat)
    requires n <= |devs| == |nodes| && forall i :: 0 <= i < |nodes| ==> nodes[i] >= UNKNOWN
    ensures ZeroFirst(ArgsUpTo(nodes, devs, n)) && Begun(ArgsUpTo(nodes, devs, n), multiset(nodes[..n])[UNKNOWN])
  {
    if n > 0 {
      ZeroFirstUpTo(nodes, devs, n - 1);
      NodesNext(nodes, n - 1);
      var a, m := ArgsUpTo(nodes, devs, n - 1), multiset(nodes[..n - 1]);
      if nodes[n - 1] < 0 {
        FlatZero(a, devs[n - 1], m[UNKNOWN]);
      } else {
        BridgedZero(a, m, nodes[n - 1], devs[n - 1], m[UNKNOWN]);
      }
    }
  }

  /** Whatever devices are added, a port at another function of a root bus slot comes after the
      multifunction port at function 0 of that slot. */
  lemma FunctionZeroFirst(nodes: seq<int>, devs: seq<Device>)
    requires |devs| == |nodes| && forall i :: 0 <= i < |nodes| ==> nodes[i] >= UNKNOWN
    ensures ZeroFirst(TopologyArgs(nodes, devs))
  {
    ZeroFirstUpTo(nodes, devs, |devs|);
  }

  // ---------------------------------------------------------------------------
  // Port numbers
  // ---------------------------------------------------------------------------

  /** The `port=` values, in order. */
  function Numbers(args: seq<Arg>): seq<nat> {
    if args == [] then []
    else Numbers(args[..|args| - 1]) + (if args[|args| - 1].RootPort? then [args[|args| - 1].port] else [])
  }

  /** The number of a device on node `n` after devices on the nodes `before`. */
  function NumberOf(before: Nodes, n: int): nat {
    START_PORT + if n < 0 then before[UNKNOWN] else Known(before)
  }

  lemma {:induction false} NumbersAppend(a: seq<Arg>, b: seq<Arg>)
    ensures Numbers(a + b) == Numbers(a) + Numbers(b)
    decreases |b|
  {
    if b == [] {
      assert a + b == a;
    } else {
      var t, x := b[..|b| - 1], b[|b| - 1];
      NumbersAppend(a, t);
      assert (a + b)[..|a + b| - 1] == a + t;
      AppendAssociative(Numbers(a), Numbers(t), if x.RootPort? then [x.port] else []);
    }
  }

  lemma PortAndCompany(port: Arg, vfio: Arg, d: Device)
    requires port.RootPort? && vfio.Vfio?
    ensures Numbers([port, vfio] + Hint(d)) == [port.port]
  {
    var a := [port, vfio];
    assert a[..1] == [port] && [port][..0] == [];
    assert Numbers([port]) == [port.port];
    assert Numbers(a) == [port.port];
    NumbersAppend(a, Hint(d));
    assert Hint(d) != [] ==> Hint(d)[..0] == [];
  }

  lemma DeviceNumber(m: Nodes, n: int, d: Device)
    ensures Numbers(DeviceArgs(m, n, d)) == [NumberOf(m, n)]
  {
    if n < 0 {
      var k := m[UNKNOWN];
      PortAndCompany(FlatPort(d, k)[0], FlatPort(d, k)[1], d);
      assert FlatPort(d, k) == [FlatPort(d, k)[0], FlatPort(d, k)[1]] + Hint(d);
    } else {
      var b := BridgedPort(d, NumberOf(m, n), PxbBus(n), m[n] + 1);
      PortAndCompany(b[0], b[1], d);
      assert b == [b[0], b[1]] + Hint(d);
      NumbersAppend(Opening(m, n), b);
      assert Opening(m, n) != [] ==> Opening(m, n)[..0] == [];
    }
  }

  ghost predicate NumbersAre(numbers: seq<nat>, nodes: seq<int>, n: nat)
    requires n <= |nodes|
  {
    |numbers| == n && forall i :: 0 <= i < n ==> numbers[i] == NumberOf(multiset(nodes[..i]), nodes[i])
  }

  lemma OneMoreNumber(numbers: seq<nat>, nodes: seq<int>, n: nat)
    requires n < |nodes| && NumbersAre(numbers, nodes, n)
    ensures NumbersAre(numbers + [NumberOf(multiset(nodes[..n]), nodes[n])], nodes, n + 1)
  {
  }

  lemma NumbersNext(args: seq<Arg>, nodes: seq<int>, d: Device, n: nat, next: seq<Arg>)
    requires n < |nodes| && NumbersAre(Numbers(args), nodes, n)
    requires next == args + DeviceArgs(multiset(nodes[..n]), nodes[n], d)
    ensures NumbersAre(Numbers(next), nodes, n + 1)
  {
    var m := multiset(nodes[..n]);
    NumbersAppend(args, DeviceArgs(m, nodes[n], d));
    DeviceNumber(m, nodes[n], d);
    OneMoreNumber(Numbers(args), nodes, n);
  }

  lemma {:induction false} NumbersUpTo(nodes: seq<int>, devs: seq<Device>, n: nat)
    requires n <= |devs| == |nodes|
    ensures NumbersAre(Numbers(ArgsUpTo(nodes, devs, n)), nodes, n)
  {
    if n > 0 {
      NumbersUpTo(nodes, devs, n - 1);
      NumbersNext(ArgsUpTo(nodes, devs, n - 1), nodes, devs[n - 1], n - 1, ArgsUpTo(nodes, devs, n));
    }
  }

  /** All devices have a known node, or none has. */
  ghost predicate OneKind(nodes: seq<int>) {
    (forall i :: 0 <= i < |nodes| ==> nodes[i] < 0) || (forall i :: 0 <= i < |nodes| ==> nodes[i] >= 0)
  }

  ghost predicate AllDifferent(s: seq<nat>) {
    forall i, j :: 0 <= i < j < |s| ==> s[i] != s[j]
  }

  lemma {:induction false} CountKind(nodes: seq<int>, i: nat)
    requires i <= |nodes| && forall j :: 0 <= j < i ==> nodes[j] >= UNKNOWN
    ensures (forall j :: 0 <= j < i ==> nodes[j] < 0) ==>
              multiset(nodes[..i])[UNKNOWN] == i && Known(multiset(nodes[..i])) == 0
    ensures (forall j :: 0 <= j < i ==> nodes[j] >= 0) ==>
              multiset(nodes[..i])[UNKNOWN] == 0 && Known(multiset(nodes[..i])) == i
  {
    if i > 0 {
      CountKind(nodes, i - 1);
      NodesNext(nodes, i - 1);
      KnownNext(multiset(nodes[..i - 1]), nodes[i - 1]);
    }
  }

  /** The first device of each kind gets the first number. */
  lemma FirstOfKind(nodes: seq<int>, i: nat)
    requires i < |nodes| && forall j :: 0 <= j < |nodes| ==> nodes[j] >= UNKNOWN
    requires forall j :: 0 <= j < i ==> (nodes[j] < 0) != (nodes[i] < 0)
    ensures NumberOf(multiset(nodes[..i]), nodes[i]) == START_PORT
  {
    CountKind(nodes, i);
    assert nodes[i] < 0 ==> forall j :: 0 <= j < i ==> nodes[j] >= 0;
    assert nodes[i] >= 0 ==> forall j :: 0 <= j < i ==> nodes[j] < 0;
  }

  /** The two counters start at the same number, so the `port=` values are unique if and only if devices
      with and without a known node do not mix. */
  lemma PortNumbersUniqueIff(nodes: seq<int>, devs: seq<Device>)
    requires |devs| == |nodes| && forall i :: 0 <= i < |nodes| ==> nodes[i] >= UNKNOWN
    ensures AllDifferent(Numbers(TopologyArgs(nodes, devs))) <==> OneKind(nodes)
  {
    NumbersUpTo(nodes, devs, |devs|);
    var numbers := Numbers(TopologyArgs(nodes, devs));
    if OneKind(nodes) {
      forall i | 0 <= i < |nodes| ensures numbers[i] == START_PORT + i {
        CountKind(nodes, i);
      }
    } else {
      MixedShare(nodes, numbers);
    }
  }

  lemma MixedShare(nodes: seq<int>, numbers: seq<nat>)
    requires NumbersAre(numbers, nodes, |nodes|) && !OneKind(nodes)
    requires forall i :: 0 <= i < |nodes| ==> nodes[i] >= UNKNOWN
    ensures !AllDifferent(numbers)
  {
    var i := FirstUnlike(nodes);
    FirstOfKind(nodes, 0);
    FirstOfKind(nodes, i);
    assert numbers[0] == numbers[i];
  }

  /** The first device of the other kind than the first one. */
  lemma FirstUnlike(nodes: seq<int>) returns (i: nat)
    requires !OneKind(nodes)
    ensures 0 < i < |nodes| && forall j :: 0 <= j < i ==> (nodes[j] < 0) != (nodes[i] < 0)
  {
    i := 0;
    while i < |nodes| && (nodes[i] < 0) == (nodes[0] < 0)
      invariant 0 <= i <= |nodes|
      invariant forall j :: 0 <= j < i ==> (nodes[j] < 0) == (nodes[0] < 0)
    {
      i := i + 1;
    }
  }

  /** A device without a known node and one on node 0 get the same number. */
  lemma MixedPairShares(a: Device, b: Device)
    ensures Numbers(TopologyArgs([UNKNOWN, 0], [a, b])) == [16, 16]
  {
    var nodes := [UNKNOWN, 0];
    NumbersUpTo(nodes, [a, b], 2);
    assert nodes[..0] == [] && nodes[..1] == [UNKNOWN];
    assert multiset(nodes[..1])[UNKNOWN := 0] == multiset{};
  }
}
