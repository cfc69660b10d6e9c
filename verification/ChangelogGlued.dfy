/** The first promotion into a preamble without a final line break: its section is glued to the last line,
    and the version can only be found again in a heading-shaped bullet. */
module ChangelogGlued {
  import opened Text
  import opened OrderedDict
  import opened ChangelogLines
  import opened ChangelogModel
  import opened ChangelogProofs
  import opened ChangelogPromotion
  import opened ChangelogLimits

  // ---------------------------------------------------------------------------
  // Printed items determine the items
  // ---------------------------------------------------------------------------

  lemma PrintedInjective(a: seq<string>, b: seq<string>)
    requires a != [] && b != [] && AreItems(a) && AreItems(b)
    requires Concat(Printed(a)) == Concat(Printed(b))
    ensures a == b
  {
    JoinPrinted(a);
    JoinPrinted(b);
    DropLast(Join(a, '\n'), Join(b, '\n'));
    SplitJoin(a, '\n');
    SplitJoin(b, '\n');
  }

  lemma DropLast(a: string, b: string)
    requires a + NEWLINE == b + NEWLINE
    ensures a == b
  {
    assert (a + NEWLINE)[..|a + NEWLINE| - 1] == a;
    assert (b + NEWLINE)[..|b + NEWLINE| - 1] == b;
  }

  lemma InFirst(a: seq<string>, b: seq<string>, k: nat)
    ensures k < |a| ==> (a + b)[k] in a
  {
  }

  lemma BlankSplit(a: seq<string>, x: seq<string>, b: seq<string>, y: seq<string>)
    requires a + ([""] + x) == b + ([""] + y) && "" !in a && "" !in b
    ensures a == b && x == y
  {
    var s := a + ([""] + x);
    assert s[|a|] == "" && s[|b|] == "";
    InFirst(a, [""] + x, |b|);
    InFirst(b, [""] + y, |a|);
    assert s[..|a|] == a && s[..|b|] == b;
    assert s[|a| + 1..] == x && s[|b| + 1..] == y;
  }

  lemma BulletsNotEmpty(bs: seq<string>)
    requires AreBullets(bs)
    ensures "" !in bs
  {
    StepNewline(START);
    assert IsBlank("");
  }

  ghost predicate Listable(keys: seq<string>, m: map<string, seq<string>>) {
    && (forall i, j :: 0 <= i < j < |keys| ==> keys[i] != keys[j])
    && (forall i :: 0 <= i < |keys| ==> keys[i] in m && IsName(keys[i]) && AreBullets(m[keys[i]]))
  }

  lemma ListableTail(keys: seq<string>, m: map<string, seq<string>>)
    requires Listable(keys, m) && keys != []
    ensures Listable(keys[1..], m)
  {
  }

  lemma ListableOf(c: Categories)
    requires c.Valid() && PrintableMap(c.at)
    ensures Listable(c.keys, c.at)
  {
    assert forall i :: 0 <= i < |c.keys| ==> c.keys[i] in c.keys;
  }

  lemma FirstCategory(k: string, a: seq<string>, x: seq<string>, k': string, b: seq<string>, y: seq<string>)
    requires [CATEGORY + k] + (a + ([""] + x)) == [CATEGORY + k'] + (b + ([""] + y))
    requires AreBullets(a) && AreBullets(b)
    ensures k == k' && a == b && x == y
  {
    var s, t := [CATEGORY + k] + (a + ([""] + x)), [CATEGORY + k'] + (b + ([""] + y));
    assert s[0] == CATEGORY + k && t[0] == CATEGORY + k';
    assert (CATEGORY + k)[|CATEGORY|..] == k && (CATEGORY + k')[|CATEGORY|..] == k';
    assert s[1..] == a + ([""] + x) && t[1..] == b + ([""] + y);
    BulletsNotEmpty(a);
    BulletsNotEmpty(b);
    BlankSplit(a, x, b, y);
  }

  lemma Unfold(keys: seq<string>, m: map<string, seq<string>>)
    requires keys != []
    ensures CategoryLines(keys, m)
         == [CATEGORY + keys[0]] + (Get(m, keys[0]) + ([""] + CategoryLines(keys[1..], m)))
  {
  }

  ghost predicate SameBullets(keys: seq<string>, m: map<string, seq<string>>, m': map<string, seq<string>>, i: nat)
    requires i <= |keys|
  {
    forall j :: 0 <= j < i ==> Get(m, keys[j]) == Get(m', keys[j])
  }

  lemma SameBulletsNext(keys: seq<string>, m: map<string, seq<string>>, m': map<string, seq<string>>, i: nat)
    requires 0 < i <= |keys| && Get(m, keys[0]) == Get(m', keys[0]) && SameBullets(keys[1..], m, m', i - 1)
    ensures SameBullets(keys, m, m', i)
  {
    assert forall j :: 1 <= j < i ==> keys[j] == keys[1..][j - 1];
  }

  /** Items that print like some categories up to a bullet and a blank line determine these categories. */
  lemma {:induction false} SamePrefix(keys: seq<string>, m: map<string, seq<string>>, keys': seq<string>,
                                      m': map<string, seq<string>>, i: nat, bs: seq<string>, rest: seq<string>)
    requires Listable(keys, m) && Listable(keys', m') && i < |keys| && AreBullets(bs)
    requires CategoryLines(keys[..i], m) + ([CATEGORY + keys[i]] + (bs + ([""] + rest))) == CategoryLines(keys', m')
    ensures i < |keys'| && keys'[..i + 1] == keys[..i + 1]
    ensures SameBullets(keys, m, m', i) && Get(m', keys[i]) == bs && rest == CategoryLines(keys'[i + 1..], m')
    decreases i
  {
    if i == 0 {
      PrefixBase(keys, m, keys', m', bs, rest);
    } else {
      PrefixStep(keys, m, keys', m', i, bs, rest);
      ListableTail(keys, m);
      ListableTail(keys', m');
      SamePrefix(keys[1..], m, keys'[1..], m', i - 1, bs, rest);
      PrefixShift(keys, keys', i);
      SameBulletsNext(keys, m, m', i);
    }
  }

  lemma PrefixBase(keys: seq<string>, m: map<string, seq<string>>, keys': seq<string>, m': map<string, seq<string>>,
                   bs: seq<string>, rest: seq<string>)
    requires Listable(keys', m') && keys != [] && AreBullets(bs)
    requires CategoryLines(keys[..0], m) + ([CATEGORY + keys[0]] + (bs + ([""] + rest))) == CategoryLines(keys', m')
    ensures keys' != [] && keys'[0] == keys[0] && m'[keys[0]] == bs && rest == CategoryLines(keys'[1..], m')
  {
    assert keys[..0] == [];
    assert CategoryLines(keys', m') != [];
    Unfold(keys', m');
    FirstCategory(keys[0], bs, rest, keys'[0], m'[keys'[0]], CategoryLines(keys'[1..], m'));
  }

  lemma PrefixStep(keys: seq<string>, m: map<string, seq<string>>, keys': seq<string>, m': map<string, seq<string>>,
                   i: nat, bs: seq<string>, rest: seq<string>)
    requires Listable(keys, m) && Listable(keys', m') && 0 < i < |keys|
    requires CategoryLines(keys[..i], m) + ([CATEGORY + keys[i]] + (bs + ([""] + rest))) == CategoryLines(keys', m')
    ensures keys' != [] && keys'[0] == keys[0] && m'[keys[0]] == m[keys[0]]
    ensures var t := keys[1..];
            CategoryLines(t[..i - 1], m) + ([CATEGORY + t[i - 1]] + (bs + ([""] + rest)))
            == CategoryLines(keys'[1..], m')
  {
    var t := keys[1..];
    assert keys[..i][1..] == t[..i - 1] && t[i - 1] == keys[i];
    Unfold(keys[..i], m);
    var last := [CATEGORY + keys[i]] + (bs + ([""] + rest));
    Regrouped(CATEGORY + keys[0], m[keys[0]], CategoryLines(t[..i - 1], m), last);
    assert CategoryLines(keys', m') != [];
    Unfold(keys', m');
    FirstCategory(keys[0], m[keys[0]], CategoryLines(t[..i - 1], m) + last, keys'[0], m'[keys'[0]],
                  CategoryLines(keys'[1..], m'));
  }

  lemma PrefixShift(keys: seq<string>, keys': seq<string>, i: nat)
    requires 0 < i < |keys| && i < |keys'| && keys[0] == keys'[0] && keys[1..][..i] == keys'[1..][..i]
    ensures keys[..i + 1] == keys'[..i + 1] && keys'[1..][i..] == keys'[i + 1..] && keys[1..][i - 1] == keys[i]
  {
    assert keys[..i + 1] == [keys[0]] + keys[1..][..i] && keys'[..i + 1] == [keys'[0]] + keys'[1..][..i];
  }

  lemma Regrouped(k: string, bs: seq<string>, x: seq<string>, y: seq<string>)
    ensures [k] + (bs + ([""] + x)) + y == [k] + (bs + ([""] + (x + y)))
  {
  }

  // ---------------------------------------------------------------------------
  // The order of what is left
  // ---------------------------------------------------------------------------

  lemma {:induction false} PresentWithout(order: seq<string>, m: map<string, seq<string>>, k: string)
    requires k !in order
    ensures Present(order, m - {k}) == Present(order, m)
  {
    if order != [] {
      assert k !in order[1..];
      PresentWithout(order[1..], m, k);
    }
  }

  lemma {:induction false} PresentTail(order: seq<string>, m: map<string, seq<string>>)
    requires forall i, j :: 0 <= i < j < |order| ==> order[i] != order[j]
    requires Present(order, m) != []
    ensures Present(order, m - {Present(order, m)[0]}) == Present(order, m)[1..]
    ensures Present(order, m)[0] in order && Present(order, m)[0] in m
  {
    var k := order[0];
    if k in m {
      assert k !in order[1..];
      PresentWithout(order[1..], m, k);
    } else {
      PresentTail(order[1..], m);
    }
  }

  lemma SortedTail(s: set<string>)
    requires SortedKeys(s) != []
    ensures SortedKeys(s - {SortedKeys(s)[0]}) == SortedKeys(s)[1..] && SortedKeys(s)[0] in s
  {
    var r := SortedKeys(s);
    var x, t := r[0], r[1..];
    assert r == [x] + t;
    assert x in Elements(r);
    assert Elements(r) == {x} + Elements(t);
    assert x !in t by {
      LessIrreflexive(x);
      assert forall i :: 0 <= i < |t| ==> t[i] == r[i + 1];
    }
    SortedUnique(t, SortedKeys(s - {x}));
  }

  /** Without its first category, a merge result is ordered like before. */
  lemma OrderedTail(m: map<string, seq<string>>)
    requires Ordered(m).keys != []
    ensures Ordered(m - {Ordered(m).keys[0]}).keys == Ordered(m).keys[1..]
  {
    StandardDistinct();
    var p, s := Present(CATEGORY_ORDER, m), m.Keys - Elements(CATEGORY_ORDER);
    if p != [] {
      PresentTail(CATEGORY_ORDER, m);
      assert p[0] in Elements(CATEGORY_ORDER);
      assert (m - {p[0]}).Keys - Elements(CATEGORY_ORDER) == s;
    } else {
      SortedTail(s);
      var x := SortedKeys(s)[0];
      assert x !in CATEGORY_ORDER;
      PresentWithout(CATEGORY_ORDER, m, x);
      assert (m - {x}).Keys - Elements(CATEGORY_ORDER) == s - {x};
    }
  }

  lemma WithoutFirst(m: map<string, seq<string>>, keys: seq<string>, n: nat)
    requires 0 < n <= |keys|
    ensures m - {keys[0]} - Elements(keys[1..][..n - 1]) == m - Elements(keys[..n])
    ensures keys[1..][n - 1..] == keys[n..]
  {
    assert keys[..n] == [keys[0]] + keys[1..][..n - 1];
    assert Elements(keys[..n]) == {keys[0]} + Elements(keys[1..][..n - 1]);
  }

  lemma {:induction false} OrderedSuffix(m: map<string, seq<string>>, n: nat)
    requires n <= |Ordered(m).keys|
    ensures Ordered(m - Elements(Ordered(m).keys[..n])).keys == Ordered(m).keys[n..]
    decreases n
  {
    var keys := Ordered(m).keys;
    if n == 0 {
      NoElements(keys[..0]);
      assert m - Elements(keys[..0]) == m;
    } else {
      OrderedTail(m);
      OrderedSuffix(m - {keys[0]}, n - 1);
      WithoutFirst(m, keys, n);
    }
  }

  /** The categories from the `n`-th on. */
  function Later(c: Categories, n: nat): Categories
    requires n <= |c.keys|
  {
    Dict(c.keys[n..], Restrict(c.at, c.keys[n..]))
  }

  lemma LaterGood(c: Categories, n: nat)
    requires c.Valid() && PrintableMap(c.at) && n <= |c.keys|
    ensures Later(c, n).Valid() && PrintableMap(Later(c, n).at)
    ensures CategoryLines(Later(c, n).keys, Later(c, n).at) == CategoryLines(c.keys[n..], c.at)
  {
    var d := Later(c, n);
    assert forall j :: 0 <= j < |d.keys| ==> d.keys[j] == c.keys[n + j] && c.keys[n + j] in c.keys;
    CategoryLinesSame(d.keys, d.at, c.at);
  }

  /** What is left of a merge without the first categories, to which the second part adds nothing. */
  lemma CombineLater(c: Categories, b: map<string, seq<string>>, n: nat)
    requires c.Valid() && n <= |c.keys| && forall k :: k in c.keys[..n] ==> k !in b
    ensures Combine(c.at, b) - Elements(c.keys[..n]) == Combine(Later(c, n).at, b)
  {
    LaterKeys(c, n);
    CombineRest(c.at, Later(c, n).at, b, Elements(c.keys[..n]));
  }

  lemma CombineRest(a: map<string, seq<string>>, later: map<string, seq<string>>, b: map<string, seq<string>>,
                    first: set<string>)
    requires forall k :: k in first ==> k !in b
    requires forall k :: k in later <==> k in a && k !in first
    requires forall k :: k in later ==> later[k] == a[k]
    ensures Combine(a, b) - first == Combine(later, b)
  {
    var l, r := Combine(a, b) - first, Combine(later, b);
    forall k ensures (k in l <==> k in r) && Get(l, k) == Get(r, k) {
      GetCombine(a, b, k);
      GetCombine(later, b, k);
    }
    assert l.Keys == r.Keys;
    SameGet(l, r);
  }

  lemma LaterKeys(c: Categories, n: nat)
    requires c.Valid() && n <= |c.keys|
    ensures forall k :: k in Later(c, n).at <==> k in c.at && k !in c.keys[..n]
  {
    assert c.keys == c.keys[..n] + c.keys[n..];
    forall k | k in c.keys[n..] ensures k !in c.keys[..n] {
      var j :| 0 <= j < |c.keys| - n && c.keys[n..][j] == k;
      assert c.keys[n + j] == k;
    }
  }
}
