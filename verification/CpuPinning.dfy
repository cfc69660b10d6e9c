/** Pinning of vCPU and IO threads: host-tools/scripts/chutes/guest/post_launch.py, with the CPU reserve
    of host-tools/scripts/chutes/guest/gpu/profiles.py. */
module CpuPinning {
  import opened Text

  // ---------------------------------------------------------------------------
  // CPU lists
  // ---------------------------------------------------------------------------

  /** The CPUs from `lo` to `hi`: one comma-separated part of a sysfs cpulist. */
  datatype CpuRange = CpuRange(lo: int, hi: int)

  /** What `str.strip` and `int` make of a text; None is the ValueError. */
  datatype Reading = Reading(strip: string -> string, toInt: string -> Option<int>)

  /** The CPUs of a part, in order. */
  function RangeCpus(r: CpuRange): (cpus: seq<int>)
    ensures |cpus| == if r.hi >= r.lo then r.hi - r.lo + 1 else 0
    ensures forall i :: 0 <= i < |cpus| ==> cpus[i] == r.lo + i
  {
    seq(if r.hi >= r.lo then r.hi - r.lo + 1 else 0, i requires i >= 0 => r.lo + i)
  }

  function AllCpus(ranges: seq<CpuRange>): seq<int> {
    if ranges == [] then [] else AllCpus(ranges[..|ranges| - 1]) + RangeCpus(ranges[|ranges| - 1])
  }

  function DropZero(cpus: seq<int>): seq<int> {
    if cpus == [] then []
    else DropZero(cpus[..|cpus| - 1]) + if cpus[|cpus| - 1] != 0 then [cpus[|cpus| - 1]] else []
  }

  function PartRange(rd: Reading, part: string): Option<CpuRange> {
    if '-' in part then
      var lo, hi := rd.toInt(Before(part, '-')), rd.toInt(After(part, '-'));
      if lo.Some? && hi.Some? then Some(CpuRange(lo.value, hi.value)) else None
    else
      var cpu := rd.toInt(part);
      if cpu.Some? then Some(CpuRange(cpu.value, cpu.value)) else None
  }

  /** The ranges of the parts of a cpulist; empty parts count for nothing. */
  function PartRanges(rd: Reading, parts: seq<string>): Option<seq<CpuRange>> {
    if parts == [] then Some([])
    else
      var before, part := PartRanges(rd, parts[..|parts| - 1]), rd.strip(parts[|parts| - 1]);
      if before.None? || part == "" then before
      else
        var range := PartRange(rd, part);
        if range.Some? then Some(before.value + [range.value]) else None
  }

  function Ranges(rd: Reading, raw: string): Option<seq<CpuRange>> {
    PartRanges(rd, Split(raw, ','))
  }

  lemma {:induction false} FailureStays(rd: Reading, parts: seq<string>, i: nat)
    requires i <= |parts| && PartRanges(rd, parts[..i]).None?
    ensures PartRanges(rd, parts).None?
  {
    if i == |parts| {
      assert parts[..i] == parts;
    } else {
      assert parts[..|parts| - 1][..i] == parts[..i];
      FailureStays(rd, parts[..|parts| - 1], i);
    }
  }

  lemma AllCpusNext(ranges: seq<CpuRange>, range: CpuRange)
    ensures AllCpus(ranges + [range]) == AllCpus(ranges) + RangeCpus(range)
  {
    assert (ranges + [range])[..|ranges|] == ranges;
  }

  method ExpandCpulist(rd: Reading, raw: string) returns (cpus: Option<seq<int>>)
    ensures cpus == (if Ranges(rd, raw).None? then None else Some(DropZero(AllCpus(Ranges(rd, raw).value))))
  {
    var parts := Split(raw, ',');
    var all: seq<int> := [];
    ghost var ranges: seq<CpuRange> := [];
    var i := 0;
    while i < |parts|
      invariant 0 <= i <= |parts| && PartRanges(rd, parts[..i]) == Some(ranges) && all == AllCpus(ranges)
    {
      assert parts[..i + 1][..i] == parts[..i];
      var part := rd.strip(parts[i]);
      if part != "" {
        var range := PartRange(rd, part);
        if range.None? {
          FailureStays(rd, parts, i + 1);
          return None;
        }
        AllCpusNext(ranges, range.value);
        ranges := ranges + [range.value];
        all := all + RangeCpus(range.value);
      }
      i := i + 1;
    }
    assert parts[..i] == parts;
    var usable := DropCpuZero(all);
    return Some(usable);
  }

  method DropCpuZero(all: seq<int>) returns (cpus: seq<int>)
    ensures cpus == DropZero(all)
  {
    cpus := [];
    var i := 0;
    while i < |all|
      invariant 0 <= i <= |all| && cpus == DropZero(all[..i])
    {
      assert all[..i + 1][..i] == all[..i];
      if all[i] != 0 {
        cpus := cpus + [all[i]];
      }
      i := i + 1;
    }
    assert all[..i] == all;
  }

  ghost predicate Increasing(s: seq<int>) {
    forall i, j :: 0 <= i < j < |s| ==> s[i] < s[j]
  }

  /** The parts of a cpulist are in increasing order and do not overlap. */
  ghost predicate Ascending(ranges: seq<CpuRange>) {
    && (forall i :: 0 <= i < |ranges| ==> ranges[i].lo <= ranges[i].hi)
    && (forall i, j :: 0 <= i < j < |ranges| ==> ranges[i].hi < ranges[j].lo)
  }

  lemma IncreasingAppend(a: seq<int>, b: seq<int>, bound: int)
    requires Increasing(a) && Increasing(b)
    requires forall i :: 0 <= i < |a| ==> a[i] < bound
    requires forall i :: 0 <= i < |b| ==> bound <= b[i]
    ensures Increasing(a + b)
  {
  }

  lemma {:induction false} AllCpusIncreasing(ranges: seq<CpuRange>)
    requires Ascending(ranges)
    ensures Increasing(AllCpus(ranges))
    ensures ranges != [] ==> forall i :: 0 <= i < |AllCpus(ranges)| ==> AllCpus(ranges)[i] <= ranges[|ranges| - 1].hi
  {
    if ranges != [] {
      var t := ranges[..|ranges| - 1];
      AllCpusIncreasing(t);
      assert t != [] ==> t[|t| - 1].hi < ranges[|ranges| - 1].lo;
      IncreasingAppend(AllCpus(t), RangeCpus(ranges[|ranges| - 1]), ranges[|ranges| - 1].lo);
    }
  }

  lemma {:induction false} DropZeroElements(s: seq<int>, x: int)
    ensures x in DropZero(s) <==> x in s && x != 0
  {
    if s != [] {
      var t := s[..|s| - 1];
      DropZeroElements(t, x);
      assert s == t + [s[|s| - 1]];
    }
  }

  lemma {:induction false} DropZeroIncreasing(s: seq<int>)
    requires Increasing(s)
    ensures Increasing(DropZero(s))
  {
    if s != [] {
      var t, last := s[..|s| - 1], s[|s| - 1];
      DropZeroIncreasing(t);
      forall i | 0 <= i < |DropZero(t)| ensures DropZero(t)[i] < last {
        DropZeroElements(t, DropZero(t)[i]);
      }
    }
  }

  ghost predicate Covers(r: CpuRange, x: int) {
    r.lo <= x <= r.hi
  }

  ghost predicate Listed(ranges: seq<CpuRange>, x: int) {
    exists i :: 0 <= i < |ranges| && Covers(ranges[i], x)
  }

  lemma RangeElements(r: CpuRange, x: int)
    ensures x in RangeCpus(r) <==> Covers(r, x)
  {
    if Covers(r, x) {
      assert RangeCpus(r)[x - r.lo] == x;
    }
  }

  lemma {:induction false} AllCpusElements(ranges: seq<CpuRange>, x: int)
    ensures x in AllCpus(ranges) <==> Listed(ranges, x)
  {
    if ranges != [] {
      var t, last := ranges[..|ranges| - 1], ranges[|ranges| - 1];
      AllCpusElements(t, x);
      RangeElements(last, x);
      assert forall i :: 0 <= i < |t| ==> ranges[i] == t[i];
      assert ranges[|t|] == last;
    }
  }

  /** Expanding a cpulist gives exactly the CPUs it lists except CPU 0, and in increasing order when the
      list is. */
  lemma ExpandedCpus(ranges: seq<CpuRange>, x: int)
    ensures x in DropZero(AllCpus(ranges)) <==> Listed(ranges, x) && x != 0
    ensures Ascending(ranges) ==> Increasing(DropZero(AllCpus(ranges)))
  {
    DropZeroElements(AllCpus(ranges), x);
    AllCpusElements(ranges, x);
    if Ascending(ranges) {
      AllCpusIncreasing(ranges);
      DropZeroIncreasing(AllCpus(ranges));
    }
  }

  /** A range as sysfs prints it. */
  function RangeText(r: CpuRange): string
    requires 0 <= r.lo <= r.hi
  {
    if r.lo == r.hi then Decimal(r.lo) else Decimal(r.lo) + "-" + Decimal(r.hi)
  }

  ghost predicate Printable(ranges: seq<CpuRange>) {
    forall i :: 0 <= i < |ranges| ==> 0 <= ranges[i].lo <= ranges[i].hi
  }

  function RangeTexts(ranges: seq<CpuRange>): (r: seq<string>)
    requires Printable(ranges)
    ensures |r| == |ranges| && forall i :: 0 <= i < |r| ==> r[i] == RangeText(ranges[i])
  {
    seq(|ranges|, i requires 0 <= i < |ranges| => RangeText(ranges[i]))
  }

  /** `int` reads decimal numerals and `strip` leaves a text of digits and hyphens alone. */
  ghost predicate ReadsDecimals(rd: Reading) {
    && (forall n: nat :: rd.toInt(Decimal(n)) == Some(n))
    && (forall s :: (forall c :: c in s ==> c in DIGITS || c == '-') ==> rd.strip(s) == s)
  }

  lemma RangeTextReads(rd: Reading, r: CpuRange)
    requires ReadsDecimals(rd) && 0 <= r.lo <= r.hi
    ensures ',' !in RangeText(r) && RangeText(r) != "" && rd.strip(RangeText(r)) == RangeText(r)
    ensures PartRange(rd, RangeText(r)) == Some(r)
  {
    var a, b := Decimal(r.lo), Decimal(r.hi);
    assert ',' !in DIGITS && '-' !in DIGITS;
    if r.lo != r.hi {
      assert RangeText(r) == a + ['-'] + b;
      BeforeUnique(a, '-', b);
      assert RangeText(r)[|a|] == '-';
    }
  }

  lemma {:induction false} PartRangesRead(rd: Reading, ranges: seq<CpuRange>)
    requires ReadsDecimals(rd) && Printable(ranges)
    ensures PartRanges(rd, RangeTexts(ranges)) == Some(ranges)
  {
    if ranges != [] {
      var t := ranges[..|ranges| - 1];
      PartRangesRead(rd, t);
      RangeTextReads(rd, ranges[|ranges| - 1]);
      assert RangeTexts(ranges)[..|ranges| - 1] == RangeTexts(t);
      SplitLast(ranges);
    }
  }

  /** Every cpulist that sysfs prints reads back as its ranges, low end first. */
  lemma CpulistRoundTrip(rd: Reading, ranges: seq<CpuRange>)
    requires ReadsDecimals(rd) && Printable(ranges)
    ensures ranges != [] ==> Ranges(rd, Join(RangeTexts(ranges), ',')) == Some(ranges)
    ensures Ranges(rd, "") == Some([])
  {
    EmptyCpulist(rd);
    if ranges != [] {
      forall i | 0 <= i < |ranges| ensures ',' !in RangeTexts(ranges)[i] {
        RangeTextReads(rd, ranges[i]);
      }
      SplitJoin(RangeTexts(ranges), ',');
      PartRangesRead(rd, ranges);
    }
  }

  lemma EmptyCpulist(rd: Reading)
    requires ReadsDecimals(rd)
    ensures Ranges(rd, "") == Some([])
  {
    assert Split("", ',') == [""] && [""][..0] == [];
    assert PartRanges(rd, []) == Some([]);
    assert rd.strip("") == "";
  }

  // ---------------------------------------------------------------------------
  // Targets
  // ---------------------------------------------------------------------------

  /** The host: its NUMA nodes in guest order, and the usable CPUs of each. */
  datatype Host = Host(nodes: seq<int>, cpus: map<int, seq<int>>)

  function CpusOf(h: Host, node: int): seq<int> {
    if node in h.cpus then h.cpus[node] else []
  }

  /** `host_node_cpus`: none when the list cannot be read, an error when it cannot be understood. */
  function NodeCpus(rd: Reading, texts: map<int, string>, node: int): Option<seq<int>> {
    if node !in texts then Some([])
    else
      var ranges := Ranges(rd, texts[node]);
      if ranges.None? then None else Some(DropZero(AllCpus(ranges.value)))
  }

  /** For a list that sysfs prints, the usable CPUs of a node are exactly the listed ones but CPU 0, increasing when
      the list is; and a node without a list has none. */
  lemma PrintedNodeCpus(rd: Reading, texts: map<int, string>, node: int, ranges: seq<CpuRange>, x: int)
    requires ReadsDecimals(rd) && Printable(ranges) && ranges != []
    ensures node in texts && texts[node] == Join(RangeTexts(ranges), ',') ==>
              && NodeCpus(rd, texts, node).Some?
              && (x in NodeCpus(rd, texts, node).value <==> Listed(ranges, x) && x != 0)
              && (Ascending(ranges) ==> Increasing(NodeCpus(rd, texts, node).value))
    ensures node !in texts ==> NodeCpus(rd, texts, node) == Some([])
  {
    CpulistRoundTrip(rd, ranges);
    ExpandedCpus(ranges, x);
  }

  /** The usable CPUs of the host are those of its cpulists. */
  ghost predicate ReadFrom(h: Host, rd: Reading, texts: map<int, string>) {
    forall g :: 0 <= g < |h.nodes| ==> NodeCpus(rd, texts, h.nodes[g]) == Some(CpusOf(h, h.nodes[g]))
  }

  /** The dictionary of usable CPUs that `pin_qemu_threads` builds first. */
  method ReadHost(rd: Reading, texts: map<int, string>, nodes: seq<int>) returns (h: Option<Host>)
    ensures h.Some? ==> h.value.nodes == nodes && ReadFrom(h.value, rd, texts)
    ensures h.None? ==> exists g :: 0 <= g < |nodes| && NodeCpus(rd, texts, nodes[g]).None?
  {
    var cpus: map<int, seq<int>> := map[];
    var i := 0;
    while i < |nodes|
      invariant 0 <= i <= |nodes|
      invariant forall n :: n in cpus ==> NodeCpus(rd, texts, n) == Some(cpus[n])
      invariant forall g :: 0 <= g < i ==> nodes[g] in cpus
    {
      var list: seq<int> := [];
      if nodes[i] in texts {
        var expanded := ExpandCpulist(rd, texts[nodes[i]]);
        if expanded.None? {
          return None;
        }
        list := expanded.value;
      }
      cpus := cpus[nodes[i] := list];
      i := i + 1;
    }
    return Some(Host(nodes, cpus));
  }

  function GuestNode(h: Host, perNode: nat, vcpu: nat): (g: nat)
    requires perNode > 0 && h.nodes != []
    ensures g < |h.nodes|
  {
    if vcpu / perNode >= |h.nodes| then |h.nodes| - 1 else vcpu / perNode
  }

  /** The CPU a vCPU thread is pinned to; none when its node has no usable CPU. */
  function Target(h: Host, perNode: nat, vcpu: nat): Option<int>
    requires perNode > 0 && h.nodes != []
  {
    var cpus := CpusOf(h, h.nodes[GuestNode(h, perNode, vcpu)]);
    if cpus == [] then None else Some(cpus[vcpu % |cpus|])
  }

  function IoStart(available: nat, threads: nat): nat {
    if available >= threads + 1 then available - threads - 1 else 0
  }

  datatype Pins = Pins(vcpus: seq<(nat, int)>, io: seq<(nat, int)>)

  /** `pin_qemu_threads`: the (thread, CPU) pairs it asks for, or the ZeroDivisionError or IndexError it
      ends with. */
  datatype Outcome = Pinned(pins: Pins) | DivisionByZero | IndexOutOfRange(pins: Pins)

  function VcpuPins(h: Host, perNode: nat, threads: seq<(nat, nat)>): seq<(nat, int)>
    requires perNode > 0 && h.nodes != []
  {
    if threads == [] then []
    else
      var (vcpu, tid) := threads[|threads| - 1];
      var cpu := Target(h, perNode, vcpu);
      VcpuPins(h, perNode, threads[..|threads| - 1]) + if cpu.Some? then [(tid, cpu.value)] else []
  }

  function IoPins(cpus: seq<int>, threads: seq<nat>, n: nat): (r: seq<(nat, int)>)
    requires n <= |threads| && IoStart(|cpus|, |threads|) + n <= |cpus|
    ensures |r| == n && forall i :: 0 <= i < n ==> r[i] == (threads[i], cpus[IoStart(|cpus|, |threads|) + i])
  {
    seq(n, i requires 0 <= i < n => (threads[i], cpus[IoStart(|cpus|, |threads|) + i]))
  }

  method PinVcpuThreads(h: Host, perNode: nat, threads: seq<(nat, nat)>) returns (pins: seq<(nat, int)>)
    requires perNode > 0 && h.nodes != []
    ensures pins == VcpuPins(h, perNode, threads)
  {
    pins := [];
    var i := 0;
    while i < |threads|
      invariant 0 <= i <= |threads| && pins == VcpuPins(h, perNode, threads[..i])
    {
      assert threads[..i + 1][..i] == threads[..i];
      var (vcpu, tid) := threads[i];
      var guestNode := vcpu / perNode;
      if guestNode >= |h.nodes| {
        guestNode := |h.nodes| - 1;
      }
      var cpus := CpusOf(h, h.nodes[guestNode]);
      if cpus != [] {
        pins := pins + [(tid, cpus[vcpu % |cpus|])];
      }
      i := i + 1;
    }
    assert threads[..i] == threads;
  }

  method PinIoThreads(cpus: seq<int>, threads: seq<nat>) returns (pins: seq<(nat, int)>, ok: bool)
    ensures ok <==> |threads| <= |cpus|
    ensures pins == IoPins(cpus, threads, if ok then |threads| else |cpus|)
  {
    var start := IoStart(|cpus|, |threads|);
    pins, ok := [], true;
    var i := 0;
    while i < |threads| && start + i < |cpus|
      invariant 0 <= i <= |threads| && start + i <= |cpus| && pins == IoPins(cpus, threads, i)
    {
      pins := pins + [(threads[i], cpus[start + i])];
      i := i + 1;
    }
    ok := i == |threads|;
  }

  /** How the IO part ends, after the vCPU pins. */
  function IoOutcome(vcpus: seq<(nat, int)>, cpus: seq<int>, threads: seq<nat>): Outcome {
    if threads == [] || cpus == [] then Pinned(Pins(vcpus, []))
    else if |threads| <= |cpus| then Pinned(Pins(vcpus, IoPins(cpus, threads, |threads|)))
    else IndexOutOfRange(Pins(vcpus, IoPins(cpus, threads, |cpus|)))
  }

  /** The IO threads go, in order, to the last CPUs but one of the first node; there is an index error exactly when
      there are more threads than CPUs, and nothing is pinned without a CPU. The vCPU pins stay in any case. */
  lemma IoOutcomeIs(vcpus: seq<(nat, int)>, cpus: seq<int>, threads: seq<nat>)
    ensures var r := IoOutcome(vcpus, cpus, threads);
            && !r.DivisionByZero? && r.pins.vcpus == vcpus
            && (r.IndexOutOfRange? <==> cpus != [] && |threads| > |cpus|)
            && |r.pins.io| == (if |threads| < |cpus| then |threads| else |cpus|)
            && forall i :: 0 <= i < |r.pins.io| ==>
                 var start := if |cpus| > |threads| then |cpus| - |threads| - 1 else 0;
                 start + i < |cpus| && r.pins.io[i] == (threads[i], cpus[start + i])
  {
  }

  method FinishPins(vcpus: seq<(nat, int)>, cpus: seq<int>, threads: seq<nat>) returns (r: Outcome)
    ensures r == IoOutcome(vcpus, cpus, threads)
  {
    if threads == [] || cpus == [] {
      return Pinned(Pins(vcpus, []));
    }
    var io, ok := PinIoThreads(cpus, threads);
    return if ok then Pinned(Pins(vcpus, io)) else IndexOutOfRange(Pins(vcpus, io));
  }

  method PinQemuThreads(h: Host, vcpusTotal: nat, vcpuThreads: seq<(nat, nat)>, ioThreads: seq<nat>)
    returns (r: Outcome)
    ensures h.nodes == [] ==> r == Pinned(Pins([], []))
    ensures h.nodes != [] && vcpusTotal / |h.nodes| > 0 ==>
              r == IoOutcome(VcpuPins(h, vcpusTotal / |h.nodes|, vcpuThreads), CpusOf(h, h.nodes[0]), ioThreads)
    ensures h.nodes != [] && vcpusTotal / |h.nodes| == 0 ==>
              r == if vcpuThreads != [] then DivisionByZero else IoOutcome([], CpusOf(h, h.nodes[0]), ioThreads)
  {
    if h.nodes == [] {
      return Pinned(Pins([], []));
    }
    var perNode := vcpusTotal / |h.nodes|;
    if perNode == 0 && vcpuThreads != [] {
      return DivisionByZero;
    }
    var vcpus: seq<(nat, int)> := [];
    if perNode > 0 {
      vcpus := PinVcpuThreads(h, perNode, vcpuThreads);
    }
    r := FinishPins(vcpus, CpusOf(h, h.nodes[0]), ioThreads);
  }

  // ---------------------------------------------------------------------------
  // No CPU is shared
  // ---------------------------------------------------------------------------

  /** The ranges a node lists; none when there is no list. */
  function NodeRanges(rd: Reading, texts: map<int, string>, node: int): seq<CpuRange> {
    if node !in texts || Ranges(rd, texts[node]).None? then [] else Ranges(rd, texts[node]).value
  }

  /** How many CPUs a list has besides CPU 0. */
  ghost function Usable(ranges: seq<CpuRange>): int {
    |AllCpus(ranges)| - if Listed(ranges, 0) then 1 else 0
  }

  /** The cpulists are ascending, no CPU is on two nodes, and each node has at least `perNode` CPUs besides
      CPU 0. */
  ghost predicate EnoughListed(rd: Reading, texts: map<int, string>, nodes: seq<int>, perNode: nat) {
    && nodes != [] && perNode > 0
    && (forall g :: 0 <= g < |nodes| ==>
          Ascending(NodeRanges(rd, texts, nodes[g])) && Usable(NodeRanges(rd, texts, nodes[g])) >= perNode)
    && (forall f, g, x :: 0 <= f < g < |nodes| && Listed(NodeRanges(rd, texts, nodes[f]), x) ==>
          !Listed(NodeRanges(rd, texts, nodes[g]), x))
  }

  /** What follows for the usable CPUs of the host. */
  ghost predicate EnoughCpus(h: Host, perNode: nat) {
    && h.nodes != [] && perNode > 0
    && (forall g :: 0 <= g < |h.nodes| ==>
          |CpusOf(h, h.nodes[g])| >= perNode && Increasing(CpusOf(h, h.nodes[g])))
    && (forall g, i :: 0 <= g < |h.nodes| && 0 <= i < |CpusOf(h, h.nodes[g])| ==> CpusOf(h, h.nodes[g])[i] != 0)
    && (forall f, g, i, j :: 0 <= f < g < |h.nodes| && 0 <= i < |CpusOf(h, h.nodes[f])|
                             && 0 <= j < |CpusOf(h, h.nodes[g])|
          ==> CpusOf(h, h.nodes[f])[i] != CpusOf(h, h.nodes[g])[j])
  }

  lemma {:induction false} DropZeroLength(s: seq<int>)
    requires Increasing(s)
    ensures |DropZero(s)| == |s| - if 0 in s then 1 else 0
  {
    if s != [] {
      var t, last := s[..|s| - 1], s[|s| - 1];
      SplitLast(s);
      DropZeroLength(t);
      assert last == 0 ==> 0 !in t;
    }
  }

  lemma UsableLength(ranges: seq<CpuRange>)
    requires Ascending(ranges)
    ensures |DropZero(AllCpus(ranges))| == Usable(ranges)
  {
    AllCpusIncreasing(ranges);
    DropZeroLength(AllCpus(ranges));
    AllCpusElements(ranges, 0);
  }

  lemma CpusFrom(h: Host, rd: Reading, texts: map<int, string>, g: nat)
    requires ReadFrom(h, rd, texts) && g < |h.nodes|
    ensures CpusOf(h, h.nodes[g]) == DropZero(AllCpus(NodeRanges(rd, texts, h.nodes[g])))
  {
    assert NodeCpus(rd, texts, h.nodes[g]) == Some(CpusOf(h, h.nodes[g]));
    assert DropZero(AllCpus([])) == [];
  }

  /** The expansion of well-formed lists gives usable CPUs that are distinct and not CPU 0. */
  lemma ListsGiveEnough(h: Host, rd: Reading, texts: map<int, string>, perNode: nat)
    requires ReadFrom(h, rd, texts) && EnoughListed(rd, texts, h.nodes, perNode)
    ensures EnoughCpus(h, perNode)
  {
    forall g | 0 <= g < |h.nodes|
      ensures |CpusOf(h, h.nodes[g])| >= perNode && Increasing(CpusOf(h, h.nodes[g]))
      ensures forall i :: 0 <= i < |CpusOf(h, h.nodes[g])| ==>
                CpusOf(h, h.nodes[g])[i] != 0 && Listed(NodeRanges(rd, texts, h.nodes[g]), CpusOf(h, h.nodes[g])[i])
    {
      CpusFrom(h, rd, texts, g);
      NodeIsGood(NodeRanges(rd, texts, h.nodes[g]));
    }
  }

  lemma NodeIsGood(ranges: seq<CpuRange>)
    requires Ascending(ranges)
    ensures var cpus := DropZero(AllCpus(ranges));
            && |cpus| == Usable(ranges) && Increasing(cpus)
            && forall i :: 0 <= i < |cpus| ==> cpus[i] != 0 && Listed(ranges, cpus[i])
  {
    var cpus := DropZero(AllCpus(ranges));
    UsableLength(ranges);
    ExpandedCpus(ranges, 0);
    forall i | 0 <= i < |cpus| ensures cpus[i] != 0 && Listed(ranges, cpus[i]) {
      ExpandedCpus(ranges, cpus[i]);
    }
  }

  lemma MulBound(n: nat, k: int)
    ensures k >= 1 ==> n * k >= n
    ensures k <= -1 ==> n * k <= 0 - n
  {
  }

  lemma DivModUnique(x: nat, n: nat, q: int, r: nat)
    requires x == n * q + r && r < n
    ensures x / n == q && x % n == r
  {
    assert n * (x / n - q) == r - x % n;
    MulBound(n, x / n - q);
  }

  lemma ModDistinct(v: nat, w: nat, n: nat)
    requires v < w < v + n
    ensures v % n != w % n
  {
    var q, r, d := v / n, v % n, w - v;
    assert v == n * q + r;
    if r + d < n {
      DivModUnique(w, n, q, r + d);
    } else {
      assert w == n * (q + 1) + (r + d - n);
      DivModUnique(w, n, q + 1, r + d - n);
    }
  }

  lemma SameGroup(v: nat, w: nat, per: nat)
    requires per > 0 && v / per == w / per
    ensures w < v + per
  {
    assert v == per * (v / per) + v % per;
    assert w == per * (w / per) + w % per;
  }

  lemma GroupInRange(v: nat, n: nat, per: nat)
    requires per > 0 && v < per * n
    ensures v / per < n
  {
    assert per * (v / per - n) == v - v % per - per * n;
    MulBound(per, v / per - n);
  }

  lemma GroupOrder(v: nat, w: nat, per: nat)
    requires per > 0 && v <= w
    ensures v / per <= w / per
  {
    assert per * (v / per - w / per) == v - v % per - w + w % per;
    MulBound(per, v / per - w / per);
  }

  lemma FirstGroup(v: nat, per: nat)
    requires v < per
    ensures v / per == 0 && v % per == v
  {
    DivModUnique(v, per, 0, v);
  }

  lemma NotFirstGroup(v: nat, per: nat)
    requires 0 < per <= v
    ensures v / per > 0
  {
    GroupOrder(per, v, per);
  }

  lemma BelowProduct(v: nat, per: nat, n: nat)
    requires v < per && n > 0
    ensures v < per * n
  {
    MulBound(per, n);
  }

  /** The CPU of a vCPU, by its node and its place in the node's list. */
  lemma TargetIs(h: Host, perNode: nat, v: nat) returns (g: nat, i: nat)
    requires EnoughCpus(h, perNode) && v < perNode * |h.nodes|
    ensures g == v / perNode && g < |h.nodes|
    ensures |CpusOf(h, h.nodes[g])| >= perNode
    ensures i == v % |CpusOf(h, h.nodes[g])| && i < |CpusOf(h, h.nodes[g])|
    ensures Target(h, perNode, v) == Some(CpusOf(h, h.nodes[g])[i])
  {
    GroupInRange(v, |h.nodes|, perNode);
    g := v / perNode;
    assert |CpusOf(h, h.nodes[g])| >= perNode;
    i := v % |CpusOf(h, h.nodes[g])|;
  }

  lemma PlacesDiffer(h: Host, perNode: nat, f: nat, i: nat, g: nat, j: nat)
    requires EnoughCpus(h, perNode) && f < |h.nodes| && g < |h.nodes|
    requires i < |CpusOf(h, h.nodes[f])| && j < |CpusOf(h, h.nodes[g])|
    requires f != g || i != j
    ensures CpusOf(h, h.nodes[f])[i] != CpusOf(h, h.nodes[g])[j]
  {
    assert Increasing(CpusOf(h, h.nodes[f]));
  }

  lemma TargetsDiffer(h: Host, perNode: nat, v: nat, w: nat)
    requires EnoughCpus(h, perNode) && v < w < perNode * |h.nodes|
    ensures Target(h, perNode, v).Some? && Target(h, perNode, w).Some?
    ensures Target(h, perNode, v) != Target(h, perNode, w)
    ensures Target(h, perNode, v).value != 0 && Target(h, perNode, w).value != 0
  {
    var f, i := TargetIs(h, perNode, v);
    var g, j := TargetIs(h, perNode, w);
    if f == g {
      SameGroup(v, w, perNode);
      ModDistinct(v, w, |CpusOf(h, h.nodes[f])|);
    }
    PlacesDiffer(h, perNode, f, i, g, j);
  }

  /** With vCPUs divided evenly over the nodes and enough CPUs listed for each, no two vCPUs are pinned to
      the same CPU and none to CPU 0. */
  lemma VcpusDoNotShare(h: Host, rd: Reading, texts: map<int, string>, perNode: nat, v: nat, w: nat)
    requires ReadFrom(h, rd, texts) && EnoughListed(rd, texts, h.nodes, perNode) && v < w < perNode * |h.nodes|
    ensures Target(h, perNode, v).Some? && Target(h, perNode, w).Some?
    ensures Target(h, perNode, v) != Target(h, perNode, w)
    ensures Target(h, perNode, v).value != 0 && Target(h, perNode, w).value != 0
  {
    ListsGiveEnough(h, rd, texts, perNode);
    TargetsDiffer(h, perNode, v, w);
  }

  lemma {:induction false} VcpuPinsAt(h: Host, perNode: nat, threads: seq<(nat, nat)>)
    requires perNode > 0 && h.nodes != []
    requires forall i :: 0 <= i < |threads| ==> Target(h, perNode, threads[i].0).Some?
    ensures |VcpuPins(h, perNode, threads)| == |threads|
    ensures forall i :: 0 <= i < |threads| ==>
              VcpuPins(h, perNode, threads)[i] == (threads[i].1, Target(h, perNode, threads[i].0).value)
  {
    if threads != [] {
      VcpuPinsAt(h, perNode, threads[..|threads| - 1]);
    }
  }

  lemma VcpuHasTarget(h: Host, perNode: nat, v: nat)
    requires EnoughCpus(h, perNode) && v < perNode * |h.nodes|
    ensures Target(h, perNode, v).Some? && Target(h, perNode, v).value != 0
  {
    var g, i := TargetIs(h, perNode, v);
  }

  /** A vCPU goes to the node that its number falls into, or to the last one when there are too many, and there to
      the CPU at its number modulo the node's count; it stays unpinned only where there is no usable CPU. */
  lemma TargetIsLocal(h: Host, perNode: nat, v: nat)
    requires perNode > 0 && h.nodes != []
    ensures var g := if v < perNode * |h.nodes| then v / perNode else |h.nodes| - 1;
            && g < |h.nodes|
            && var cpus := CpusOf(h, h.nodes[g]);
               Target(h, perNode, v) == if cpus == [] then None else Some(cpus[v % |cpus|])
  {
    if v < perNode * |h.nodes| {
      GroupInRange(v, |h.nodes|, perNode);
    } else {
      GroupOrder(perNode * |h.nodes|, v, perNode);
      DivModUnique(perNode * |h.nodes|, perNode, |h.nodes|, 0);
    }
  }

  /** The CPU is listed for the node that the vCPU falls into. */
  ghost predicate IsLocal(rd: Reading, texts: map<int, string>, nodes: seq<int>, perNode: nat, v: nat, cpu: int) {
    perNode > 0 && v / perNode < |nodes| && Listed(NodeRanges(rd, texts, nodes[v / perNode]), cpu)
  }

  lemma TargetIsListed(h: Host, rd: Reading, texts: map<int, string>, perNode: nat, v: nat)
    requires ReadFrom(h, rd, texts) && EnoughCpus(h, perNode) && v < perNode * |h.nodes|
    ensures Target(h, perNode, v).Some? && IsLocal(rd, texts, h.nodes, perNode, v, Target(h, perNode, v).value)
  {
    var g, i := TargetIs(h, perNode, v);
    assert NodeCpus(rd, texts, h.nodes[g]) == Some(CpusOf(h, h.nodes[g]));
    ExpandedCpus(NodeRanges(rd, texts, h.nodes[g]), CpusOf(h, h.nodes[g])[i]);
  }

  /** A whole pass over the threads of distinct vCPUs pins every thread, each to a CPU of its own that is listed for
      its node. */
  lemma PinnedApart(h: Host, rd: Reading, texts: map<int, string>, perNode: nat, threads: seq<(nat, nat)>)
    requires ReadFrom(h, rd, texts) && EnoughListed(rd, texts, h.nodes, perNode)
    requires forall i :: 0 <= i < |threads| ==> threads[i].0 < perNode * |h.nodes|
    requires forall i, j :: 0 <= i < j < |threads| ==> threads[i].0 != threads[j].0
    ensures var pins := VcpuPins(h, perNode, threads);
            && |pins| == |threads|
            && (forall i :: 0 <= i < |pins| ==>
                  && pins[i].0 == threads[i].1 && pins[i].1 != 0
                  && IsLocal(rd, texts, h.nodes, perNode, threads[i].0, pins[i].1))
            && (forall i, j :: 0 <= i < j < |pins| ==> pins[i].1 != pins[j].1)
  {
    ListsGiveEnough(h, rd, texts, perNode);
    forall i | 0 <= i < |threads|
      ensures Target(h, perNode, threads[i].0).Some? && Target(h, perNode, threads[i].0).value != 0
    {
      VcpuHasTarget(h, perNode, threads[i].0);
    }
    forall i | 0 <= i < |threads|
      ensures IsLocal(rd, texts, h.nodes, perNode, threads[i].0, Target(h, perNode, threads[i].0).value)
    {
      TargetIsListed(h, rd, texts, perNode, threads[i].0);
    }
    VcpuPinsAt(h, perNode, threads);
    forall i, j | 0 <= i < j < |threads|
      ensures Target(h, perNode, threads[i].0) != Target(h, perNode, threads[j].0)
    {
      if threads[i].0 < threads[j].0 {
        TargetsDiffer(h, perNode, threads[i].0, threads[j].0);
      } else {
        TargetsDiffer(h, perNode, threads[j].0, threads[i].0);
      }
    }
  }

  /** The converse: a node with fewer usable CPUs than vCPUs makes two of them share one. */
  lemma ShortNodeShares(h: Host, perNode: nat, g: nat) returns (v: nat, w: nat)
    requires h.nodes != [] && g < |h.nodes| && 0 < |CpusOf(h, h.nodes[g])| < perNode
    ensures v < w < perNode * |h.nodes|
    ensures Target(h, perNode, v).Some? && Target(h, perNode, v) == Target(h, perNode, w)
  {
    var n := |CpusOf(h, h.nodes[g])|;
    v, w := perNode * g, perNode * g + n;
    DivModUnique(v, perNode, g, 0);
    DivModUnique(w, perNode, g, n);
    MulBound(perNode, |h.nodes| - g);
    assert perNode * |h.nodes| == perNode * g + perNode * (|h.nodes| - g);
    var q, r := v / n, v % n;
    assert w == n * (q + 1) + r;
    DivModUnique(w, n, q + 1, r);
  }

  /** IO threads and vCPUs share no CPU. */
  ghost predicate IoApart(h: Host, perNode: nat, threads: nat)
    requires perNode > 0 && h.nodes != []
  {
    var cpus := CpusOf(h, h.nodes[0]);
    var start := IoStart(|cpus|, threads);
    forall k, v :: start <= k < start + threads && k < |cpus| && 0 <= v < perNode * |h.nodes| ==>
      Target(h, perNode, v) != Some(cpus[k])
  }

  lemma IoMissesVcpu(h: Host, perNode: nat, k: nat, v: nat)
    requires EnoughCpus(h, perNode) && perNode <= k < |CpusOf(h, h.nodes[0])| && v < perNode * |h.nodes|
    ensures Target(h, perNode, v) != Some(CpusOf(h, h.nodes[0])[k])
  {
    var g, i := TargetIs(h, perNode, v);
    if v < perNode {
      FirstGroup(v, |CpusOf(h, h.nodes[g])|);
    } else {
      NotFirstGroup(v, perNode);
    }
    PlacesDiffer(h, perNode, 0, k, g, i);
  }

  lemma FirstNodeTarget(h: Host, perNode: nat, v: nat)
    requires EnoughCpus(h, perNode) && v < perNode
    ensures v < perNode * |h.nodes| && v < |CpusOf(h, h.nodes[0])|
    ensures Target(h, perNode, v) == Some(CpusOf(h, h.nodes[0])[v])
  {
    BelowProduct(v, perNode, |h.nodes|);
    FirstGroup(v, perNode);
    var g, i := TargetIs(h, perNode, v);
    FirstGroup(v, |CpusOf(h, h.nodes[0])|);
  }

  /** The IO threads get CPUs of their own if and only if the first node has room for them behind the
      vCPUs, with one CPU to spare. */
  lemma IoApartIff(h: Host, rd: Reading, texts: map<int, string>, perNode: nat, threads: nat)
    requires ReadFrom(h, rd, texts) && EnoughListed(rd, texts, h.nodes, perNode) && threads > 0
    ensures IoApart(h, perNode, threads) <==> |CpusOf(h, h.nodes[0])| >= perNode + threads + 1
  {
    ListsGiveEnough(h, rd, texts, perNode);
    var cpus := CpusOf(h, h.nodes[0]);
    var start := IoStart(|cpus|, threads);
    if |cpus| >= perNode + threads + 1 {
      forall k, v | start <= k < start + threads && k < |cpus| && 0 <= v < perNode * |h.nodes|
        ensures Target(h, perNode, v) != Some(cpus[k])
      {
        IoMissesVcpu(h, perNode, k, v);
      }
    } else {
      assert |cpus| >= perNode;
      FirstNodeTarget(h, perNode, start);
    }
  }

  /** A two-socket host with equal nodes, CPU 0 on the first, and `reserve` CPUs kept from the guest. */
  ghost predicate TwoEqualSockets(rd: Reading, texts: map<int, string>, nodes: seq<int>, hostCpus: nat, reserve: nat) {
    && |nodes| == 2 && hostCpus % 2 == 0 && reserve % 2 == 0 && 2 <= reserve < hostCpus
    && (forall g :: 0 <= g < 2 ==>
          Ascending(NodeRanges(rd, texts, nodes[g])) && |AllCpus(NodeRanges(rd, texts, nodes[g]))| == hostCpus / 2)
    && Listed(NodeRanges(rd, texts, nodes[0]), 0)
    && (forall x :: Listed(NodeRanges(rd, texts, nodes[0]), x) ==> !Listed(NodeRanges(rd, texts, nodes[1]), x))
  }

  /** On such a host no vCPUs share, and the reserve has room for exactly up to reserve / 2 - 2 IO threads. */
  lemma ReserveHoldsIoThreads(h: Host, rd: Reading, texts: map<int, string>, hostCpus: nat, reserve: nat, threads: nat)
    requires ReadFrom(h, rd, texts) && TwoEqualSockets(rd, texts, h.nodes, hostCpus, reserve) && threads > 0
    ensures EnoughListed(rd, texts, h.nodes, (hostCpus - reserve) / 2)
    ensures IoApart(h, (hostCpus - reserve) / 2, threads) <==> threads + 2 <= reserve / 2
  {
    var perNode := (hostCpus - reserve) / 2;
    Halves(hostCpus, reserve);
    SocketsAreEnough(rd, texts, h.nodes, hostCpus, reserve, perNode);
    IoApartIff(h, rd, texts, perNode, threads);
    FirstNodeSize(h, rd, texts, hostCpus, reserve);
  }

  lemma Halves(hostCpus: nat, reserve: nat)
    requires hostCpus % 2 == 0 && reserve % 2 == 0 && 2 <= reserve < hostCpus
    ensures (hostCpus - reserve) / 2 == hostCpus / 2 - reserve / 2 && 0 < (hostCpus - reserve) / 2 < hostCpus / 2
  {
  }

  lemma SocketsAreEnough(rd: Reading, texts: map<int, string>, nodes: seq<int>, hostCpus: nat, reserve: nat,
                         perNode: nat)
    requires TwoEqualSockets(rd, texts, nodes, hostCpus, reserve) && 0 < perNode < hostCpus / 2
    ensures EnoughListed(rd, texts, nodes, perNode)
  {
    forall g | 0 <= g < |nodes|
      ensures Ascending(NodeRanges(rd, texts, nodes[g])) && Usable(NodeRanges(rd, texts, nodes[g])) >= perNode
    {
      OneSocket(rd, texts, nodes, hostCpus, reserve, g);
    }
    forall f, g, x | 0 <= f < g < |nodes| && Listed(NodeRanges(rd, texts, nodes[f]), x)
      ensures !Listed(NodeRanges(rd, texts, nodes[g]), x)
    {
      assert f == 0 && g == 1;
    }
  }

  lemma OneSocket(rd: Reading, texts: map<int, string>, nodes: seq<int>, hostCpus: nat, reserve: nat, g: nat)
    requires TwoEqualSockets(rd, texts, nodes, hostCpus, reserve) && g < 2
    ensures Ascending(NodeRanges(rd, texts, nodes[g])) && Usable(NodeRanges(rd, texts, nodes[g])) >= hostCpus / 2 - 1
  {
  }

  lemma FirstNodeSize(h: Host, rd: Reading, texts: map<int, string>, hostCpus: nat, reserve: nat)
    requires ReadFrom(h, rd, texts) && TwoEqualSockets(rd, texts, h.nodes, hostCpus, reserve)
    ensures |CpusOf(h, h.nodes[0])| == hostCpus / 2 - 1
  {
    CpusFrom(h, rd, texts, 0);
    UsableLength(NodeRanges(rd, texts, h.nodes[0]));
  }
}
