/** Cache cleanup by age and size: `CacheManager.cleanup` of
    src/sek8s/sek8s/system_manager/cache/manager.py, as one step over a scanned snapshot. */
module CacheCleanup {
  import opened Text

  /** A tracked chute with what its scan found. `excluded` tells whether the exclude pattern matches its
      repository. */
  datatype Chute = Chute(id: string, inProgress: bool, size: nat, lastAccessed: Option<real>, excluded: bool)

  predicate IsCandidate(c: Chute) {
    !c.inProgress && c.size != 0 && !c.excluded
  }

  predicate IsOld(c: Chute, cutoff: real) {
    (if c.lastAccessed.Some? then c.lastAccessed.value else 0.0) < cutoff
  }

  function Candidates(cs: seq<Chute>): seq<Chute> {
    if cs == [] then []
    else Candidates(cs[..|cs| - 1]) + if IsCandidate(cs[|cs| - 1]) then [cs[|cs| - 1]] else []
  }

  /** The candidates on one side of the age limit, in order. */
  function Aged(cs: seq<Chute>, cutoff: real, old_: bool): seq<Chute> {
    if cs == [] then []
    else Aged(cs[..|cs| - 1], cutoff, old_) + if IsOld(cs[|cs| - 1], cutoff) == old_ then [cs[|cs| - 1]] else []
  }

  function Total(cs: seq<Chute>): nat {
    if cs == [] then 0 else cs[0].size + Total(cs[1..])
  }

  function Ids(cs: seq<Chute>): (r: seq<string>)
    ensures |r| == |cs| && forall i :: 0 <= i < |r| ==> r[i] == cs[i].id
  {
    seq(|cs|, i requires 0 <= i < |cs| => cs[i].id)
  }

  function Without(cs: seq<Chute>, ids: seq<string>): seq<Chute> {
    if cs == [] then []
    else Without(cs[..|cs| - 1], ids) + if cs[|cs| - 1].id in ids then [] else [cs[|cs| - 1]]
  }

  // ---------------------------------------------------------------------------
  // Largest first
  // ---------------------------------------------------------------------------

  ghost predicate Descending(cs: seq<Chute>) {
    forall i, j :: 0 <= i < j < |cs| ==> cs[i].size >= cs[j].size
  }

  function Insert(c: Chute, cs: seq<Chute>): seq<Chute> {
    if cs == [] || c.size >= cs[0].size then [c] + cs else [cs[0]] + Insert(c, cs[1..])
  }

  /** The stable order that `sort(key=size, reverse=True)` gives. */
  function BySize(cs: seq<Chute>): seq<Chute> {
    if cs == [] then [] else Insert(cs[0], BySize(cs[1..]))
  }

  ghost predicate AtMost(cs: seq<Chute>, bound: nat) {
    forall i :: 0 <= i < |cs| ==> cs[i].size <= bound
  }

  lemma {:induction false} InsertDescending(c: Chute, cs: seq<Chute>, bound: nat)
    requires Descending(cs) && AtMost(cs, bound) && c.size <= bound
    ensures Descending(Insert(c, cs)) && AtMost(Insert(c, cs), bound)
  {
    if cs != [] && c.size < cs[0].size {
      InsertDescending(c, cs[1..], cs[0].size);
    }
  }

  lemma {:induction false} InsertMultiset(c: Chute, cs: seq<Chute>)
    ensures multiset(Insert(c, cs)) == multiset(cs) + multiset{c}
  {
    if cs == [] || c.size >= cs[0].size {
      assert multiset([c] + cs) == multiset{c} + multiset(cs);
    } else {
      InsertMultiset(c, cs[1..]);
      assert cs == [cs[0]] + cs[1..];
    }
  }

  function Largest(cs: seq<Chute>): (m: nat)
    ensures AtMost(cs, m)
  {
    if cs == [] then 0
    else
      var m := Largest(cs[1..]);
      if cs[0].size > m then cs[0].size else m
  }

  lemma InsertShape(c: Chute, cs: seq<Chute>)
    requires Descending(cs)
    ensures Descending(Insert(c, cs)) && multiset(Insert(c, cs)) == multiset(cs) + multiset{c}
  {
    var m := Largest(cs);
    InsertDescending(c, cs, if c.size > m then c.size else m);
    InsertMultiset(c, cs);
  }

  lemma {:induction false} BySizeShape(cs: seq<Chute>)
    ensures Descending(BySize(cs)) && multiset(BySize(cs)) == multiset(cs)
  {
    if cs != [] {
      BySizeShape(cs[1..]);
      InsertShape(cs[0], BySize(cs[1..]));
      assert cs == [cs[0]] + cs[1..];
    }
  }

  /** How many chutes are evicted from a list in this order before the rest fits. */
  function Evictions(cs: seq<Chute>, limit: nat): (k: nat)
    ensures k <= |cs|
    ensures Total(cs[k..]) <= limit
    ensures forall j :: 0 <= j < k ==> Total(cs[j..]) > limit
  {
    if Total(cs) <= limit then
      assert cs[0..] == cs;
      0
    else
      var k := Evictions(cs[1..], limit) + 1;
      assert cs[k..] == cs[1..][k - 1..];
      assert forall j :: 1 <= j < k ==> cs[j..] == cs[1..][j - 1..];
      assert cs[0..] == cs;
      k
  }

  /** The bytes of those chutes of the list that are in `ids`. */
  function SizeIn(cs: seq<Chute>, ids: set<string>): nat {
    if cs == [] then 0 else (if cs[0].id in ids then cs[0].size else 0) + SizeIn(cs[1..], ids)
  }

  lemma {:induction false} InsertSizes(c: Chute, cs: seq<Chute>, ids: set<string>)
    ensures SizeIn(Insert(c, cs), ids) == (if c.id in ids then c.size else 0) + SizeIn(cs, ids)
    ensures Total(Insert(c, cs)) == c.size + Total(cs)
  {
    if cs == [] || c.size >= cs[0].size {
      assert ([c] + cs)[1..] == cs;
    } else {
      InsertSizes(c, cs[1..], ids);
      assert ([cs[0]] + Insert(c, cs[1..]))[1..] == Insert(c, cs[1..]);
    }
  }

  /** Sorting changes neither the total nor the size of any part. */
  lemma {:induction false} BySizeSizes(cs: seq<Chute>, ids: set<string>)
    ensures SizeIn(BySize(cs), ids) == SizeIn(cs, ids) && Total(BySize(cs)) == Total(cs)
  {
    if cs != [] {
      BySizeSizes(cs[1..], ids);
      InsertSizes(cs[0], BySize(cs[1..]), ids);
    }
  }

  lemma {:induction false} TotalSplit(cs: seq<Chute>, k: nat)
    requires k <= |cs|
    ensures Total(cs) == Total(cs[..k]) + Total(cs[k..])
  {
    if k == 0 {
      assert cs[..0] == [] && cs[0..] == cs;
    } else {
      TotalSplit(cs[1..], k - 1);
      assert cs[..k][1..] == cs[1..][..k - 1] && cs[k..] == cs[1..][k - 1..];
    }
  }

  function Min(a: nat, b: nat): nat {
    if a < b then a else b
  }

  /** A window one further on in descending order is no heavier. */
  lemma {:induction false} ShiftedWindow(cs: seq<Chute>, m: nat)
    requires Descending(cs) && m < |cs|
    ensures Total(cs[1..][..m]) <= Total(cs[..m])
  {
    if m > 0 {
      ShiftedWindow(cs[1..], m - 1);
      assert cs[1..][..m][1..] == cs[1..][1..][..m - 1];
      assert cs[..m][1..] == cs[1..][..m - 1];
    }
  }

  lemma WindowGrows(cs: seq<Chute>, m: nat)
    requires m < |cs|
    ensures Total(cs[..m]) <= Total(cs[..m + 1])
  {
    TotalSplit(cs[..m + 1], m);
    assert cs[..m + 1][..m] == cs[..m];
  }

  ghost predicate DistinctIds(cs: seq<Chute>) {
    forall i, j :: 0 <= i < j < |cs| ==> cs[i].id != cs[j].id
  }

  lemma {:induction false} SizeWithout(cs: seq<Chute>, ids: set<string>, x: string)
    requires forall i :: 0 <= i < |cs| ==> cs[i].id != x
    ensures SizeIn(cs, ids - {x}) == SizeIn(cs, ids)
  {
    if cs != [] {
      SizeWithout(cs[1..], ids, x);
    }
  }

  /** No choice of chutes outweighs as many of the largest ones. */
  lemma {:induction false} LargestAreHeaviest(cs: seq<Chute>, ids: set<string>)
    requires Descending(cs) && DistinctIds(cs)
    ensures SizeIn(cs, ids) <= Total(cs[..Min(|ids|, |cs|)])
    decreases |cs|
  {
    if cs != [] {
      var t, x := cs[1..], cs[0].id;
      if x in ids {
        LargestAreHeaviest(t, ids - {x});
        SizeWithout(t, ids, x);
        var m := Min(|ids - {x}|, |t|);
        assert cs[..m + 1][1..] == t[..m];
      } else {
        LargestAreHeaviest(t, ids);
        var m := Min(|ids|, |t|);
        ShiftedWindow(cs, m);
        if Min(|ids|, |cs|) == m + 1 {
          WindowGrows(cs, m);
        }
      }
    }
  }

  /** The chutes that size eviction removes. */
  function Evicted(fresh_: seq<Chute>, limit: nat): seq<Chute> {
    BySize(fresh_)[..Evictions(BySize(fresh_), limit)]
  }

  /** Removing `gone` from `total` is just enough, and removing `count` chutes of `size` in all is not
      enough when these are fewer. */
  ghost predicate Optimal(total: nat, size: nat, count: nat, gone: seq<Chute>, limit: nat) {
    && total - Total(gone) <= limit
    && (gone != [] ==> total - Total(gone[..|gone| - 1]) > limit)
    && (count < |gone| ==> total - size > limit)
  }

  /** Largest-first eviction is optimal: what is left fits, dropping the last eviction breaks that, and
      no smaller set of chutes would have done. */
  lemma EvictionIsOptimal(fresh_: seq<Chute>, limit: nat, ids: set<string>)
    requires DistinctIds(BySize(fresh_))
    ensures Optimal(Total(fresh_), SizeIn(fresh_, ids), |ids|, Evicted(fresh_, limit), limit)
  {
    BySizeShape(fresh_);
    BySizeSizes(fresh_, ids);
    SortedEviction(BySize(fresh_), limit, ids);
  }

  lemma SortedEviction(cs: seq<Chute>, limit: nat, ids: set<string>)
    requires Descending(cs) && DistinctIds(cs)
    ensures Optimal(Total(cs), SizeIn(cs, ids), |ids|, cs[..Evictions(cs, limit)], limit)
  {
    var k := Evictions(cs, limit);
    TotalSplit(cs, k);
    if k > 0 {
      LastIsNeeded(cs, limit);
    }
    if |ids| < k {
      FewerDoNotFit(cs, limit, ids);
    }
  }

  lemma LastIsNeeded(cs: seq<Chute>, limit: nat)
    requires Evictions(cs, limit) > 0
    ensures var gone := cs[..Evictions(cs, limit)]; Total(cs) - Total(gone[..|gone| - 1]) > limit
  {
    var k := Evictions(cs, limit);
    TotalSplit(cs, k - 1);
    assert cs[..k][..k - 1] == cs[..k - 1];
  }

  lemma FewerDoNotFit(cs: seq<Chute>, limit: nat, ids: set<string>)
    requires Descending(cs) && DistinctIds(cs) && |ids| < Evictions(cs, limit)
    ensures Total(cs) - SizeIn(cs, ids) > limit
  {
    LargestAreHeaviest(cs, ids);
    TotalSplit(cs, |ids|);
  }

  // ---------------------------------------------------------------------------
  // The whole cleanup
  // ---------------------------------------------------------------------------

  lemma {:induction false} TotalAppend(a: seq<Chute>, b: seq<Chute>)
    ensures Total(a + b) == Total(a) + Total(b)
  {
    if a == [] {
      assert a + b == b;
    } else {
      TotalAppend(a[1..], b);
      assert (a + b)[1..] == a[1..] + b;
    }
  }

  lemma TotalLast(a: seq<Chute>, c: Chute)
    ensures Total(a + [c]) == Total(a) + c.size
  {
    TotalAppend(a, [c]);
    assert [c][1..] == [];
  }

  lemma AgedNext(cs: seq<Chute>, i: nat, cutoff: real, old_: bool)
    requires i < |cs|
    ensures Aged(cs[..i + 1], cutoff, old_)
            == Aged(cs[..i], cutoff, old_) + if IsOld(cs[i], cutoff) == old_ then [cs[i]] else []
  {
    assert cs[..i + 1][..i] == cs[..i];
  }

  /** The age rule splits the candidates without loss. */
  lemma {:induction false} AgedTotals(cs: seq<Chute>, cutoff: real)
    ensures Total(cs) == Total(Aged(cs, cutoff, true)) + Total(Aged(cs, cutoff, false))
  {
    if cs != [] {
      var t, c := cs[..|cs| - 1], cs[|cs| - 1];
      AgedTotals(t, cutoff);
      assert cs == t + [c];
      TotalLast(t, c);
      AgedTotalLast(t, c, cutoff, true);
      AgedTotalLast(t, c, cutoff, false);
    }
  }

  lemma AgedTotalLast(t: seq<Chute>, c: Chute, cutoff: real, old_: bool)
    ensures Total(Aged(t + [c], cutoff, old_))
            == Total(Aged(t, cutoff, old_)) + if IsOld(c, cutoff) == old_ then c.size else 0
  {
    assert (t + [c])[..|t|] == t;
    var a := Aged(t, cutoff, old_);
    TotalLast(a, c);
    assert a + [] == a;
  }

  /** What a cleanup removes: the old candidates in order, then the evicted ones, largest first. */
  function Removed(chutes: seq<Chute>, cutoff: real, limit: nat): seq<Chute> {
    var cs := Candidates(chutes);
    Aged(cs, cutoff, true) + Evicted(Aged(cs, cutoff, false), limit)
  }

  method SelectCandidates(chutes: seq<Chute>) returns (cs: seq<Chute>)
    ensures cs == Candidates(chutes)
  {
    cs := [];
    var i := 0;
    while i < |chutes|
      invariant 0 <= i <= |chutes| && cs == Candidates(chutes[..i])
    {
      assert chutes[..i + 1][..i] == chutes[..i];
      if !chutes[i].inProgress && chutes[i].size != 0 && !chutes[i].excluded {
        cs := cs + [chutes[i]];
      }
      i := i + 1;
    }
    assert chutes[..i] == chutes;
  }

  lemma InsertFurther(c: Chute, cs: seq<Chute>, i: nat)
    requires i < |cs| && c.size < cs[i].size && Insert(c, cs) == cs[..i] + Insert(c, cs[i..])
    ensures Insert(c, cs) == cs[..i + 1] + Insert(c, cs[i + 1..])
  {
    var rest := Insert(c, cs[i + 1..]);
    assert cs[i..][1..] == cs[i + 1..];
    assert Insert(c, cs[i..]) == [cs[i]] + rest;
    assert cs[..i] + ([cs[i]] + rest) == cs[..i + 1] + rest;
  }

  method InsertBySize(c: Chute, cs: seq<Chute>) returns (r: seq<Chute>)
    ensures r == Insert(c, cs)
  {
    var i := 0;
    assert cs[..0] + Insert(c, cs[0..]) == Insert(c, cs) by { assert cs[0..] == cs; }
    while i < |cs| && c.size < cs[i].size
      invariant 0 <= i <= |cs| && Insert(c, cs) == cs[..i] + Insert(c, cs[i..])
    {
      InsertFurther(c, cs, i);
      i := i + 1;
    }
    assert Insert(c, cs[i..]) == [c] + cs[i..];
    r := cs[..i] + ([c] + cs[i..]);
  }

  method SortBySize(cs: seq<Chute>) returns (r: seq<Chute>)
    ensures r == BySize(cs)
  {
    r := [];
    var i := |cs|;
    assert cs[i..] == [];
    while i > 0
      invariant 0 <= i <= |cs| && r == BySize(cs[i..])
    {
      i := i - 1;
      assert cs[i..][1..] == cs[i + 1..];
      r := InsertBySize(cs[i], r);
    }
    assert cs[0..] == cs;
  }

  class CacheManager {
    /** The tracked chutes in insertion order; ids are dictionary keys. */
    var chutes: seq<Chute>

    constructor (chutes: seq<Chute>)
      ensures this.chutes == chutes
    {
      this.chutes := chutes;
    }

    /** `self._chutes.pop(chute_id, None)`. */
    method Pop(id: string)
      modifies this
      ensures chutes == Without(old(chutes), [id])
    {
      var r: seq<Chute> := [];
      var i := 0;
      while i < |chutes|
        invariant 0 <= i <= |chutes| && r == Without(chutes[..i], [id])
        invariant chutes == old(chutes)
      {
        assert chutes[..i + 1][..i] == chutes[..i];
        if chutes[i].id != id {
          r := r + [chutes[i]];
        }
        i := i + 1;
      }
      assert chutes[..i] == chutes;
      chutes := r;
    }

    method RemoveOld(candidates: seq<Chute>, cutoff: real) returns (freed: nat, removed: seq<string>)
      modifies this
      ensures Accounted(old(chutes), Aged(candidates, cutoff, true), chutes, freed, removed)
    {
      freed, removed := 0, [];
      WithoutNone(chutes);
      ghost var all := chutes;
      var i := 0;
      while i < |candidates|
        invariant 0 <= i <= |candidates|
        invariant Accounted(all, Aged(candidates[..i], cutoff, true), chutes, freed, removed)
      {
        AgedNext(candidates, i, cutoff, true);
        ghost var gone := Aged(candidates[..i], cutoff, true);
        assert gone + [] == gone;
        if IsOld(candidates[i], cutoff) {
          AccountedNext(all, gone, chutes, freed, removed, candidates[i]);
          Pop(candidates[i].id);
          removed := removed + [candidates[i].id];
          freed := freed + candidates[i].size;
        }
        i := i + 1;
      }
      assert candidates[..i] == candidates;
    }

    method EvictLargest(cs: seq<Chute>, limit: nat, freed0: nat, removed0: seq<string>,
                        ghost all: seq<Chute>, ghost gone: seq<Chute>)
      returns (freed: nat, removed: seq<string>)
      requires Accounted(all, gone, chutes, freed0, removed0)
      modifies this
      ensures Accounted(all, gone + cs[..Evictions(cs, limit)], chutes, freed, removed)
    {
      freed, removed := freed0, removed0;
      var totalNow := SumSizes(cs);
      var i := 0;
      assert cs[0..] == cs && gone + cs[..0] == gone;
      while i < |cs| && totalNow > limit
        invariant 0 <= i <= |cs| && totalNow == Total(cs[i..])
        invariant forall j :: 0 <= j < i ==> Total(cs[j..]) > limit
        invariant Accounted(all, gone + cs[..i], chutes, freed, removed)
      {
        EvictedOne(all, gone, cs, i, chutes, freed, removed);
        Pop(cs[i].id);
        removed := removed + [cs[i].id];
        freed := freed + cs[i].size;
        totalNow := totalNow - cs[i].size;
        i := i + 1;
      }
      NoMoreNeeded(cs, limit, i);
    }

    /** The removal by age and by size, for given limits. */
    method Sweep(cutoff: real, maxSizeBytes: nat) returns (freed: nat, removed: seq<string>)
      requires DistinctIds(chutes)
      modifies this
      ensures Accounted(old(chutes), Removed(old(chutes), cutoff, maxSizeBytes), chutes, freed, removed)
    {
      ghost var all := chutes;
      var candidates := SelectCandidates(chutes);
      freed, removed := RemoveOld(candidates, cutoff);
      DistinctCandidates(all);
      SurvivorsAreFresh(candidates, cutoff);
      var left := DropRemoved(candidates, removed);
      var sorted := SortBySize(left);
      freed, removed := EvictLargest(sorted, maxSizeBytes, freed, removed, all, Aged(candidates, cutoff, true));
    }

    /** The cleanup frees exactly the bytes of what it removes, and the tracked chutes are those that
        were not removed. Every chute that is too old goes, and while the others fit, no other. */
    method Cleanup(now: real, maxAgeDays: nat, maxSizeGb: nat) returns (freed: nat, removed: seq<string>)
      requires DistinctIds(chutes)
      modifies this
      ensures Accounted(old(chutes), Removed(old(chutes), Cutoff(now, maxAgeDays), Bytes(maxSizeGb)), chutes, freed,
                        removed)
      ensures Total(Candidates(chutes)) + freed == Total(Candidates(old(chutes)))
      ensures Total(Candidates(chutes)) <= maxSizeGb * 1073741824
      ensures GoneByAge(old(chutes), now, maxAgeDays, maxSizeGb * 1073741824, removed)
    {
      ghost var all := chutes;
      var maxSizeBytes := maxSizeGb * 1024 * 1024 * 1024;
      var cutoff := now - (maxAgeDays * 24 * 3600) as real;
      assert maxSizeBytes == Bytes(maxSizeGb) && cutoff == Cutoff(now, maxAgeDays);
      freed, removed := Sweep(cutoff, maxSizeBytes);
      SweptByAge(all, now, maxAgeDays, maxSizeGb, chutes, freed, removed);
    }
  }

  // ---------------------------------------------------------------------------
  // Which chutes go
  // ---------------------------------------------------------------------------

  function Cutoff(now: real, maxAgeDays: nat): real {
    now - (maxAgeDays * 24 * 3600) as real
  }

  function Bytes(gb: nat): nat {
    gb * 1024 * 1024 * 1024
  }

  /** Not downloading, not empty and not excluded. */
  ghost predicate IsRemovable(c: Chute) {
    !c.inProgress && c.size > 0 && !c.excluded
  }

  /** Removable, and last accessed more than so many days of 86400 seconds ago; a chute whose last access is
      unknown counts as accessed at time 0. */
  ghost predicate IsTooOld(c: Chute, now: real, maxAgeDays: nat) {
    && IsRemovable(c)
    && match c.lastAccessed
       case Some(t) => now - t > (86400 * maxAgeDays) as real
       case None => now > (86400 * maxAgeDays) as real
  }

  /** The bytes of the removable chutes that are not too old. */
  ghost function FreshBytes(cs: seq<Chute>, now: real, maxAgeDays: nat): nat {
    if cs == [] then 0
    else
      var c := cs[|cs| - 1];
      FreshBytes(cs[..|cs| - 1], now, maxAgeDays)
      + if IsRemovable(c) && !IsTooOld(c, now, maxAgeDays) then c.size else 0
  }

  lemma TooOldIff(c: Chute, now: real, maxAgeDays: nat)
    ensures IsTooOld(c, now, maxAgeDays) <==> IsCandidate(c) && IsOld(c, Cutoff(now, maxAgeDays))
  {
    assert maxAgeDays * 24 * 3600 == 86400 * maxAgeDays;
  }

  lemma {:induction false} FreshTotal(cs: seq<Chute>, now: real, maxAgeDays: nat)
    ensures FreshBytes(cs, now, maxAgeDays) == Total(Aged(Candidates(cs), Cutoff(now, maxAgeDays), false))
  {
    if cs != [] {
      var t, c := cs[..|cs| - 1], cs[|cs| - 1];
      FreshTotal(t, now, maxAgeDays);
      TooOldIff(c, now, maxAgeDays);
      SplitLast(cs);
      LastCandidate(t, c);
      if IsCandidate(c) {
        AgedTotalLast(Candidates(t), c, Cutoff(now, maxAgeDays), false);
      } else {
        assert Candidates(t) + [] == Candidates(t);
      }
    }
  }

  lemma {:induction false} CandidateMember(cs: seq<Chute>, c: Chute)
    ensures c in Candidates(cs) <==> c in cs && IsCandidate(c)
  {
    if cs != [] {
      SplitLast(cs);
      CandidateMember(cs[..|cs| - 1], c);
    }
  }

  /** Every chute that is too old is removed, every removed one is removable, and when the rest fits no other
      is removed. */
  ghost predicate GoneByAge(chutes: seq<Chute>, now: real, maxAgeDays: nat, limit: nat, removed: seq<string>) {
    && (forall c :: c in chutes && IsTooOld(c, now, maxAgeDays) ==> c.id in removed)
    && (forall c :: c in chutes && c.id in removed ==> IsRemovable(c))
    && (FreshBytes(chutes, now, maxAgeDays) <= limit ==>
          forall c :: c in chutes ==> (c.id in removed <==> IsTooOld(c, now, maxAgeDays)))
  }

  lemma RemovedByAge(chutes: seq<Chute>, now: real, maxAgeDays: nat, limit: nat)
    requires DistinctIds(chutes)
    ensures GoneByAge(chutes, now, maxAgeDays, limit, Ids(Removed(chutes, Cutoff(now, maxAgeDays), limit)))
  {
    var cutoff := Cutoff(now, maxAgeDays);
    var gone := Removed(chutes, cutoff, limit);
    forall c | c in chutes && IsTooOld(c, now, maxAgeDays) ensures c.id in Ids(gone) {
      TooOldIff(c, now, maxAgeDays);
      OldIsRemoved(chutes, cutoff, limit, c);
    }
    forall c | c in chutes && c.id in Ids(gone) ensures IsRemovable(c) {
      var i :| 0 <= i < |chutes| && chutes[i] == c;
      OnlyCandidatesRemoved(chutes, cutoff, limit, i);
    }
    if FreshBytes(chutes, now, maxAgeDays) <= limit {
      forall c | c in chutes && c.id in Ids(gone) ensures IsTooOld(c, now, maxAgeDays) {
        FreshTotal(chutes, now, maxAgeDays);
        TooOldIff(c, now, maxAgeDays);
        OnlyOldRemoved(chutes, cutoff, limit, c);
      }
    }
  }

  lemma SweptByAge(all: seq<Chute>, now: real, maxAgeDays: nat, maxSizeGb: nat, tracked: seq<Chute>, freed: nat,
                   removed: seq<string>)
    requires DistinctIds(all)
    requires Accounted(all, Removed(all, Cutoff(now, maxAgeDays), Bytes(maxSizeGb)), tracked, freed, removed)
    ensures Total(Candidates(tracked)) + freed == Total(Candidates(all))
    ensures Total(Candidates(tracked)) <= maxSizeGb * 1073741824
    ensures GoneByAge(all, now, maxAgeDays, maxSizeGb * 1073741824, removed)
  {
    FreedPlusLeft(all, Cutoff(now, maxAgeDays), Bytes(maxSizeGb));
    LeftFits(all, Cutoff(now, maxAgeDays), Bytes(maxSizeGb));
    RemovedByAge(all, now, maxAgeDays, Bytes(maxSizeGb));
  }

  lemma OldIsRemoved(chutes: seq<Chute>, cutoff: real, limit: nat, c: Chute)
    requires c in chutes && IsCandidate(c) && IsOld(c, cutoff)
    ensures c.id in Ids(Removed(chutes, cutoff, limit))
  {
    var cs, gone := Candidates(chutes), Removed(chutes, cutoff, limit);
    CandidateMember(chutes, c);
    var i :| 0 <= i < |cs| && cs[i] == c;
    AgedMember(cs, cutoff, i);
    var k :| 0 <= k < |Aged(cs, cutoff, true)| && Aged(cs, cutoff, true)[k] == c;
    assert gone[k] == c && Ids(gone)[k] == c.id;
  }

  /** When the fresh candidates fit, nothing is evicted. */
  lemma OnlyOldRemoved(chutes: seq<Chute>, cutoff: real, limit: nat, c: Chute)
    requires DistinctIds(chutes) && c in chutes && c.id in Ids(Removed(chutes, cutoff, limit))
    requires Total(Aged(Candidates(chutes), cutoff, false)) <= limit
    ensures IsCandidate(c) && IsOld(c, cutoff)
  {
    var cs := Candidates(chutes);
    BySizeSizes(Aged(cs, cutoff, false), {});
    var gone := Removed(chutes, cutoff, limit);
    assert gone == Aged(cs, cutoff, true);
    var k :| 0 <= k < |gone| && gone[k].id == c.id;
    AgedFrom(cs, cutoff, true);
    CandidateMember(chutes, gone[k]);
    var i :| 0 <= i < |chutes| && chutes[i] == c;
    var j :| 0 <= j < |chutes| && chutes[j] == gone[k];
    assert i == j;
  }

  /** With the chutes `gone` removed from `all`: what is tracked, what was freed, what is reported. */
  ghost predicate Accounted(all: seq<Chute>, gone: seq<Chute>, tracked: seq<Chute>, freed: nat, removed: seq<string>) {
    freed == Total(gone) && removed == Ids(gone) && tracked == Without(all, Ids(gone))
  }

  lemma AccountedNext(all: seq<Chute>, gone: seq<Chute>, tracked: seq<Chute>, freed: nat, removed: seq<string>,
                      c: Chute)
    requires Accounted(all, gone, tracked, freed, removed)
    ensures Accounted(all, gone + [c], Without(tracked, [c.id]), freed + c.size, removed + [c.id])
  {
    TotalLast(gone, c);
    assert Ids(gone + [c]) == Ids(gone) + [c.id];
    WithoutMore(all, Ids(gone), c.id);
  }

  lemma OneFewer(gone: seq<Chute>, cs: seq<Chute>, i: nat)
    requires i < |cs|
    ensures Total(cs[i..]) == cs[i].size + Total(cs[i + 1..])
    ensures gone + cs[..i] + [cs[i]] == gone + cs[..i + 1]
  {
    assert cs[i..][1..] == cs[i + 1..];
  }

  lemma EvictedOne(all: seq<Chute>, gone: seq<Chute>, cs: seq<Chute>, i: nat, tracked: seq<Chute>, freed: nat,
                   removed: seq<string>)
    requires i < |cs| && Accounted(all, gone + cs[..i], tracked, freed, removed)
    ensures Accounted(all, gone + cs[..i + 1], Without(tracked, [cs[i].id]), freed + cs[i].size, removed + [cs[i].id])
    ensures Total(cs[i..]) == cs[i].size + Total(cs[i + 1..])
  {
    AccountedNext(all, gone + cs[..i], tracked, freed, removed, cs[i]);
    OneFewer(gone, cs, i);
  }

  lemma NoMoreNeeded(cs: seq<Chute>, limit: nat, i: nat)
    requires i <= |cs| && (i == |cs| || Total(cs[i..]) <= limit)
    requires forall j :: 0 <= j < i ==> Total(cs[j..]) > limit
    ensures i == Evictions(cs, limit)
  {
    var k := Evictions(cs, limit);
    if i == |cs| {
      assert cs[i..] == [];
    }
  }

  method SumSizes(cs: seq<Chute>) returns (total: nat)
    ensures total == Total(cs)
  {
    total := 0;
    var i := 0;
    assert cs[..0] == [];
    while i < |cs|
      invariant 0 <= i <= |cs| && total == Total(cs[..i])
    {
      assert cs[..i + 1] == cs[..i] + [cs[i]];
      TotalLast(cs[..i], cs[i]);
      total := total + cs[i].size;
      i := i + 1;
    }
    assert cs[..i] == cs;
  }

  /** The candidates whose ids are not in the removed list. */
  method DropRemoved(cs: seq<Chute>, removed: seq<string>) returns (r: seq<Chute>)
    ensures r == Without(cs, removed)
  {
    r := [];
    var i := 0;
    while i < |cs|
      invariant 0 <= i <= |cs| && r == Without(cs[..i], removed)
    {
      assert cs[..i + 1][..i] == cs[..i];
      if cs[i].id !in removed {
        r := r + [cs[i]];
      }
      i := i + 1;
    }
    assert cs[..i] == cs;
  }

  lemma {:induction false} WithoutNone(cs: seq<Chute>)
    ensures Without(cs, []) == cs
  {
    if cs != [] {
      WithoutNone(cs[..|cs| - 1]);
    }
  }

  lemma {:induction false} WithoutMore(cs: seq<Chute>, ids: seq<string>, id: string)
    ensures Without(Without(cs, ids), [id]) == Without(cs, ids + [id])
  {
    if cs != [] {
      var t, c := cs[..|cs| - 1], cs[|cs| - 1];
      WithoutMore(t, ids, id);
      assert c.id in ids + [id] <==> c.id in ids || c.id == id;
      if c.id !in ids {
        var w := Without(t, ids);
        assert (w + [c])[..|w|] == w;
      } else {
        assert Without(t, ids) + [] == Without(t, ids);
      }
    }
  }

  lemma {:induction false} CandidatesFrom(cs: seq<Chute>)
    ensures forall i :: 0 <= i < |Candidates(cs)| ==> Candidates(cs)[i] in cs
  {
    if cs != [] {
      CandidatesFrom(cs[..|cs| - 1]);
    }
  }

  lemma {:induction false} DistinctCandidates(cs: seq<Chute>)
    requires DistinctIds(cs)
    ensures DistinctIds(Candidates(cs))
  {
    if cs != [] {
      DistinctCandidates(cs[..|cs| - 1]);
      CandidatesFrom(cs[..|cs| - 1]);
    }
  }

  lemma {:induction false} AgedFrom(cs: seq<Chute>, cutoff: real, old_: bool)
    ensures forall i :: 0 <= i < |Aged(cs, cutoff, old_)| ==>
              Aged(cs, cutoff, old_)[i] in cs && IsOld(Aged(cs, cutoff, old_)[i], cutoff) == old_
  {
    if cs != [] {
      AgedFrom(cs[..|cs| - 1], cutoff, old_);
    }
  }

  lemma {:induction false} AgedMember(cs: seq<Chute>, cutoff: real, i: nat)
    requires i < |cs| && IsOld(cs[i], cutoff)
    ensures cs[i] in Aged(cs, cutoff, true)
  {
    var t := cs[..|cs| - 1];
    if i < |t| {
      AgedMember(t, cutoff, i);
      assert t[i] == cs[i];
    }
  }

  /** Dropping the ids of the old candidates leaves exactly the fresh ones. */
  lemma SurvivorsAreFresh(cs: seq<Chute>, cutoff: real)
    requires DistinctIds(cs)
    ensures Without(cs, Ids(Aged(cs, cutoff, true))) == Aged(cs, cutoff, false)
  {
    var ids := Ids(Aged(cs, cutoff, true));
    forall i | 0 <= i < |cs| ensures cs[i].id in ids <==> IsOld(cs[i], cutoff) {
      AgedFrom(cs, cutoff, true);
      if IsOld(cs[i], cutoff) {
        AgedMember(cs, cutoff, i);
        var k :| 0 <= k < |ids| && Aged(cs, cutoff, true)[k] == cs[i];
        assert ids[k] == cs[i].id;
      }
    }
    WithoutIsAged(cs, ids, cutoff);
  }

  lemma {:induction false} WithoutIsAged(cs: seq<Chute>, ids: seq<string>, cutoff: real)
    requires forall i :: 0 <= i < |cs| ==> (cs[i].id in ids <==> IsOld(cs[i], cutoff))
    ensures Without(cs, ids) == Aged(cs, cutoff, false)
  {
    if cs != [] {
      WithoutIsAged(cs[..|cs| - 1], ids, cutoff);
    }
  }

  lemma {:induction false} CandidatesWithout(cs: seq<Chute>, ids: seq<string>)
    ensures Candidates(Without(cs, ids)) == Without(Candidates(cs), ids)
  {
    if cs != [] {
      var t, c := cs[..|cs| - 1], cs[|cs| - 1];
      CandidatesWithout(t, ids);
      LastCandidate(Without(t, ids), c);
      LastWithout(Candidates(t), c, ids);
    }
  }

  lemma LastCandidate(cs: seq<Chute>, c: Chute)
    ensures Candidates(cs + [c]) == Candidates(cs) + if IsCandidate(c) then [c] else []
    ensures cs + [] == cs
  {
    assert (cs + [c])[..|cs|] == cs;
  }

  lemma LastWithout(cs: seq<Chute>, c: Chute, ids: seq<string>)
    ensures Without(cs + [c], ids) == Without(cs, ids) + if c.id in ids then [] else [c]
    ensures cs + [] == cs
  {
    assert (cs + [c])[..|cs|] == cs;
  }

  /** Removing one chute takes away its size. */
  lemma {:induction false} TotalWithoutOne(cs: seq<Chute>, c: Chute)
    requires DistinctIds(cs) && c in cs
    ensures Total(Without(cs, [c.id])) + c.size == Total(cs)
  {
    var t, x := cs[..|cs| - 1], cs[|cs| - 1];
    SplitLast(cs);
    TotalLast(t, x);
    if x == c {
      WithoutAbsent(t, c.id);
      assert t + [] == t;
    } else {
      TotalWithoutOne(t, c);
      TotalLast(Without(t, [c.id]), x);
      var k :| 0 <= k < |cs| && cs[k] == c;
      assert k < |t| && cs[k].id != x.id;
    }
  }

  lemma {:induction false} WithoutAbsent(cs: seq<Chute>, id: string)
    requires forall i :: 0 <= i < |cs| ==> cs[i].id != id
    ensures Without(cs, [id]) == cs
  {
    if cs != [] {
      var t, x := cs[..|cs| - 1], cs[|cs| - 1];
      WithoutAbsent(t, id);
      SplitLast(cs);
      assert x.id !in [id];
    }
  }

  lemma {:induction false} WithoutKeeps(cs: seq<Chute>, ids: seq<string>, c: Chute)
    ensures c in Without(cs, ids) <==> c in cs && c.id !in ids
  {
    if cs != [] {
      SplitLast(cs);
      WithoutKeeps(cs[..|cs| - 1], ids, c);
    }
  }

  lemma {:induction false} DistinctWithout(cs: seq<Chute>, ids: seq<string>)
    requires DistinctIds(cs)
    ensures DistinctIds(Without(cs, ids))
  {
    if cs != [] {
      var t, x := cs[..|cs| - 1], cs[|cs| - 1];
      DistinctWithout(t, ids);
      forall i | 0 <= i < |Without(t, ids)| ensures Without(t, ids)[i].id != x.id {
        WithoutKeeps(t, ids, Without(t, ids)[i]);
      }
    }
  }

  ghost predicate AllIn(a: seq<Chute>, cs: seq<Chute>) {
    forall i :: 0 <= i < |a| ==> a[i] in cs
  }

  /** Conservation: removing chutes of a list leaves the rest of its total. */
  lemma {:induction false} TotalWithout(cs: seq<Chute>, gone: seq<Chute>)
    requires DistinctIds(cs) && DistinctIds(gone) && AllIn(gone, cs)
    ensures Total(Without(cs, Ids(gone))) + Total(gone) == Total(cs)
  {
    if gone == [] {
      WithoutNone(cs);
    } else {
      var t, c := gone[..|gone| - 1], gone[|gone| - 1];
      SplitLast(gone);
      TotalWithout(cs, t);
      assert c.id !in Ids(t);
      TotalWithoutNext(cs, t, c);
    }
  }

  lemma TotalWithoutNext(cs: seq<Chute>, gone: seq<Chute>, c: Chute)
    requires DistinctIds(cs) && c in cs && c.id !in Ids(gone)
    requires Total(Without(cs, Ids(gone))) + Total(gone) == Total(cs)
    ensures Total(Without(cs, Ids(gone + [c]))) + Total(gone + [c]) == Total(cs)
  {
    assert Ids(gone + [c]) == Ids(gone) + [c.id];
    WithoutMore(cs, Ids(gone), c.id);
    WithoutKeeps(cs, Ids(gone), c);
    DistinctWithout(cs, Ids(gone));
    TotalWithoutOne(Without(cs, Ids(gone)), c);
    TotalLast(gone, c);
  }

  lemma RemovedShape(chutes: seq<Chute>, cutoff: real, limit: nat)
    requires DistinctIds(chutes)
    ensures DistinctIds(Removed(chutes, cutoff, limit))
    ensures AllIn(Removed(chutes, cutoff, limit), Candidates(chutes))
  {
    var cs := Candidates(chutes);
    var old_, fresh_ := Aged(cs, cutoff, true), Aged(cs, cutoff, false);
    DistinctCandidates(chutes);
    AgedDistinct(cs, cutoff, true);
    AgedDistinct(cs, cutoff, false);
    BySizeDistinct(fresh_);
    BySizeShape(fresh_);
    AgedFrom(cs, cutoff, true);
    AgedFrom(cs, cutoff, false);
    var gone := Evicted(fresh_, limit);
    forall i | 0 <= i < |gone| ensures gone[i] in fresh_ {
      assert gone[i] == BySize(fresh_)[i] && gone[i] in multiset(BySize(fresh_));
    }
    AgesApart(cs, old_, gone, cutoff);
  }

  /** Old and fresh chutes of a list have different ids. */
  lemma AgesApart(cs: seq<Chute>, a: seq<Chute>, b: seq<Chute>, cutoff: real)
    requires DistinctIds(cs) && DistinctIds(a) && DistinctIds(b)
    requires forall i :: 0 <= i < |a| ==> a[i] in cs && IsOld(a[i], cutoff)
    requires forall i :: 0 <= i < |b| ==> b[i] in cs && !IsOld(b[i], cutoff)
    ensures DistinctIds(a + b)
  {
    forall i, j | 0 <= i < |a| && 0 <= j < |b| ensures a[i].id != b[j].id {
      var p :| 0 <= p < |cs| && cs[p] == a[i];
      var q :| 0 <= q < |cs| && cs[q] == b[j];
      assert p != q;
    }
  }

  /** What a cleanup leaves tracked. */
  function Tracked(chutes: seq<Chute>, cutoff: real, limit: nat): seq<Chute> {
    Without(chutes, Ids(Removed(chutes, cutoff, limit)))
  }

  /** Conservation: what is freed and what stays tracked of the candidates make up all candidates. */
  lemma FreedPlusLeft(chutes: seq<Chute>, cutoff: real, limit: nat)
    requires DistinctIds(chutes)
    ensures Total(Candidates(Tracked(chutes, cutoff, limit))) + Total(Removed(chutes, cutoff, limit))
         == Total(Candidates(chutes))
  {
    RemovedShape(chutes, cutoff, limit);
    CandidatesWithout(chutes, Ids(Removed(chutes, cutoff, limit)));
    DistinctCandidates(chutes);
    TotalWithout(Candidates(chutes), Removed(chutes, cutoff, limit));
  }

  /** The candidates that stay tracked fit. */
  lemma LeftFits(chutes: seq<Chute>, cutoff: real, limit: nat)
    requires DistinctIds(chutes)
    ensures Total(Candidates(Tracked(chutes, cutoff, limit))) <= limit
  {
    var cs := Candidates(chutes);
    var fresh_ := Aged(cs, cutoff, false);
    FreedPlusLeft(chutes, cutoff, limit);
    AgedTotals(cs, cutoff);
    TotalAppend(Aged(cs, cutoff, true), Evicted(fresh_, limit));
    FreshDistinct(chutes, cutoff);
    EvictionIsOptimal(fresh_, limit, {});
  }

  lemma FreshDistinct(chutes: seq<Chute>, cutoff: real)
    requires DistinctIds(chutes)
    ensures DistinctIds(Aged(Candidates(chutes), cutoff, false))
    ensures DistinctIds(BySize(Aged(Candidates(chutes), cutoff, false)))
  {
    DistinctCandidates(chutes);
    AgedDistinct(Candidates(chutes), cutoff, false);
    BySizeDistinct(Aged(Candidates(chutes), cutoff, false));
  }

  /** A cleanup never touches a chute that downloads, is empty or is excluded. */
  lemma OnlyCandidatesRemoved(chutes: seq<Chute>, cutoff: real, limit: nat, i: nat)
    requires DistinctIds(chutes) && i < |chutes| && chutes[i].id in Ids(Removed(chutes, cutoff, limit))
    ensures IsCandidate(chutes[i])
  {
    var gone := Removed(chutes, cutoff, limit);
    var k :| 0 <= k < |gone| && gone[k].id == chutes[i].id;
    RemovedAreCandidates(chutes, cutoff, limit, k);
    var j :| 0 <= j < |chutes| && chutes[j] == gone[k];
    assert j == i;
  }

  lemma RemovedAreCandidates(chutes: seq<Chute>, cutoff: real, limit: nat, k: nat)
    requires k < |Removed(chutes, cutoff, limit)|
    ensures Removed(chutes, cutoff, limit)[k] in chutes && IsCandidate(Removed(chutes, cutoff, limit)[k])
  {
    var cs := Candidates(chutes);
    var old_, fresh_ := Aged(cs, cutoff, true), Aged(cs, cutoff, false);
    var c := Removed(chutes, cutoff, limit)[k];
    AgedFrom(cs, cutoff, true);
    AgedFrom(cs, cutoff, false);
    BySizeShape(fresh_);
    if k >= |old_| {
      assert c == BySize(fresh_)[k - |old_|];
      assert c in multiset(BySize(fresh_));
    }
    assert c in cs;
    CandidatesFrom(chutes);
    CandidatesOk(chutes);
  }

  lemma {:induction false} CandidatesOk(cs: seq<Chute>)
    ensures forall i :: 0 <= i < |Candidates(cs)| ==> IsCandidate(Candidates(cs)[i])
  {
    if cs != [] {
      CandidatesOk(cs[..|cs| - 1]);
    }
  }

  lemma {:induction false} AgedDistinct(cs: seq<Chute>, cutoff: real, old_: bool)
    requires DistinctIds(cs)
    ensures DistinctIds(Aged(cs, cutoff, old_))
  {
    if cs != [] {
      AgedDistinct(cs[..|cs| - 1], cutoff, old_);
      AgedFrom(cs[..|cs| - 1], cutoff, old_);
    }
  }

  lemma {:induction false} InsertDistinct(c: Chute, cs: seq<Chute>)
    requires Descending(cs) && DistinctIds(cs) && forall i :: 0 <= i < |cs| ==> cs[i].id != c.id
    ensures DistinctIds(Insert(c, cs))
  {
    if cs != [] && c.size < cs[0].size {
      var t := cs[1..];
      InsertDistinct(c, t);
      InsertShape(c, t);
      var r := Insert(c, t);
      forall i | 0 <= i < |r| ensures r[i].id != cs[0].id {
        assert r[i] in multiset(r);
        assert r[i] == c || r[i] in multiset(t);
      }
    }
  }

  lemma {:induction false} BySizeDistinct(cs: seq<Chute>)
    requires DistinctIds(cs)
    ensures DistinctIds(BySize(cs))
  {
    if cs != [] {
      var t := cs[1..];
      BySizeDistinct(t);
      BySizeShape(t);
      forall i | 0 <= i < |BySize(t)| ensures BySize(t)[i].id != cs[0].id {
        assert BySize(t)[i] in multiset(t);
      }
      InsertDistinct(cs[0], BySize(t));
    }
  }

  /** The chutes whose ids are not in the set. */
  function Sparing(cs: seq<Chute>, ids: set<string>): seq<Chute> {
    if cs == [] then [] else (if cs[0].id in ids then [] else [cs[0]]) + Sparing(cs[1..], ids)
  }

  lemma {:induction false} SparingTotal(cs: seq<Chute>, ids: set<string>)
    ensures Total(Sparing(cs, ids)) + SizeIn(cs, ids) == Total(cs)
  {
    if cs != [] {
      SparingTotal(cs[1..], ids);
      TotalAppend(if cs[0].id in ids then [] else [cs[0]], Sparing(cs[1..], ids));
    }
  }

  /** What is tracked after the removal by age alone. */
  function AfterAge(chutes: seq<Chute>, cutoff: real): seq<Chute> {
    Without(chutes, Ids(Aged(Candidates(chutes), cutoff, true)))
  }

  lemma FreshAreTracked(chutes: seq<Chute>, cutoff: real)
    requires DistinctIds(chutes)
    ensures Candidates(AfterAge(chutes, cutoff)) == Aged(Candidates(chutes), cutoff, false)
  {
    CandidatesWithout(chutes, Ids(Aged(Candidates(chutes), cutoff, true)));
    DistinctCandidates(chutes);
    SurvivorsAreFresh(Candidates(chutes), cutoff);
  }

  /** Without the last removal the candidates that stay tracked do not fit. */
  ghost predicate LastNeeded(chutes: seq<Chute>, gone: seq<Chute>, limit: nat) {
    gone != [] && Total(Candidates(Without(chutes, Ids(gone[..|gone| - 1])))) > limit
  }

  /** Chutes to remove, in terms of which all but the last are not enough. */
  ghost predicate JustEnough(chutes: seq<Chute>, gone: seq<Chute>, limit: nat) {
    && DistinctIds(gone) && AllIn(gone, Candidates(chutes)) && gone != []
    && Total(Candidates(chutes)) - Total(gone) + gone[|gone| - 1].size > limit
  }

  /** All removals but the last are not enough when the last one is a size eviction. */
  lemma LastEvictionNeeded(chutes: seq<Chute>, cutoff: real, limit: nat)
    requires DistinctIds(chutes)
    requires Evicted(Aged(Candidates(chutes), cutoff, false), limit) != []
    ensures LastNeeded(chutes, Removed(chutes, cutoff, limit), limit)
  {
    LastEvictionCounts(chutes, cutoff, limit);
    NotEnough(chutes, Removed(chutes, cutoff, limit), limit);
  }

  lemma LastEvictionCounts(chutes: seq<Chute>, cutoff: real, limit: nat)
    requires DistinctIds(chutes)
    requires Evicted(Aged(Candidates(chutes), cutoff, false), limit) != []
    ensures JustEnough(chutes, Removed(chutes, cutoff, limit), limit)
  {
    var cs := Candidates(chutes);
    var old_, fresh_ := Aged(cs, cutoff, true), Aged(cs, cutoff, false);
    var evicted := Evicted(fresh_, limit);
    RemovedShape(chutes, cutoff, limit);
    AgedTotals(cs, cutoff);
    FreshDistinct(chutes, cutoff);
    EvictionIsOptimal(fresh_, limit, {});
    TotalAppend(old_, evicted);
    TotalInit(evicted);
  }

  lemma TotalInit(cs: seq<Chute>)
    requires cs != []
    ensures Total(cs) == Total(cs[..|cs| - 1]) + cs[|cs| - 1].size
  {
    SplitLast(cs);
    TotalLast(cs[..|cs| - 1], cs[|cs| - 1]);
  }

  lemma NotEnough(chutes: seq<Chute>, gone: seq<Chute>, limit: nat)
    requires DistinctIds(chutes) && JustEnough(chutes, gone, limit)
    ensures LastNeeded(chutes, gone, limit)
  {
    AllButLast(chutes, gone, gone[..|gone| - 1]);
    TotalInit(gone);
  }

  lemma AllButLast(chutes: seq<Chute>, gone: seq<Chute>, but: seq<Chute>)
    requires DistinctIds(chutes) && DistinctIds(gone) && but <= gone
    requires AllIn(gone, Candidates(chutes))
    ensures Total(Candidates(Without(chutes, Ids(but)))) == Total(Candidates(chutes)) - Total(but)
  {
    DistinctCandidates(chutes);
    CandidatesWithout(chutes, Ids(but));
    TotalWithout(Candidates(chutes), but);
  }

  /** The cleanup of a manager is optimal in what it leaves tracked: the tracked candidates fit, without
      the last eviction they would not, and after the removal by age no set of fewer ids than were evicted
      would have made the tracked candidates fit. */
  lemma CleanupIsOptimal(chutes: seq<Chute>, cutoff: real, limit: nat, ids: set<string>)
    requires DistinctIds(chutes)
    ensures Total(Candidates(Tracked(chutes, cutoff, limit))) <= limit
    ensures var gone := Removed(chutes, cutoff, limit);
            var evictions := |gone| - |Aged(Candidates(chutes), cutoff, true)|;
            && (evictions > 0 ==> LastNeeded(chutes, gone, limit))
            && (|ids| < evictions ==> Total(Sparing(Candidates(AfterAge(chutes, cutoff)), ids)) > limit)
  {
    var fresh_ := Aged(Candidates(chutes), cutoff, false);
    LeftFits(chutes, cutoff, limit);
    if Evicted(fresh_, limit) != [] {
      LastEvictionNeeded(chutes, cutoff, limit);
    }
    FreshAreTracked(chutes, cutoff);
    SparingTotal(fresh_, ids);
    FreshDistinct(chutes, cutoff);
    EvictionIsOptimal(fresh_, limit, ids);
  }
}
