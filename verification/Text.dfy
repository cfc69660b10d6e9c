/** Strings as the Python sources use them: splitting at a character, joining, decimal numerals and
    the code-point order that `sorted` uses. */
module Text {

  datatype Option<+T> = None | Some(value: T)

  // ---------------------------------------------------------------------------
  // Splitting and joining
  // ---------------------------------------------------------------------------

  /** The text before the first `c`; all of `s` when there is none. */
  function Before(s: string, c: char): (r: string)
    ensures c !in r
    ensures r <= s
    ensures c in s ==> |r| < |s| && s[|r|] == c
    ensures c !in s ==> r == s
  {
    if s == [] || s[0] == c then [] else [s[0]] + Before(s[1..], c)
  }

  /** The text after the first `c`. */
  function After(s: string, c: char): (r: string)
    requires c in s
    ensures s == Before(s, c) + [c] + r
  {
    s[|Before(s, c)| + 1..]
  }

  /** `s.split(c)`. */
  function Split(s: string, c: char): (parts: seq<string>)
    ensures |parts| >= 1
    decreases |s|
  {
    if c !in s then [s] else [Before(s, c)] + Split(After(s, c), c)
  }

  /** `c.join(parts)`. */
  function Join(parts: seq<string>, c: char): string
    requires |parts| >= 1
  {
    if |parts| == 1 then parts[0] else parts[0] + [c] + Join(parts[1..], c)
  }

  /** The text after the last `c`, `s.split(c)[-1]`; all of `s` when there is none. */
  function AfterLast(s: string, c: char): (r: string)
    ensures c !in r
    ensures |r| <= |s|
    ensures c in s ==> |r| < |s|
    ensures c !in s ==> r == s
  {
    if s == [] || s[|s| - 1] == c then [] else AfterLast(s[..|s| - 1], c) + [s[|s| - 1]]
  }

  /** The text before the last `c`. */
  function BeforeLast(s: string, c: char): (r: string)
    requires c in s
    ensures |r| + 1 + |AfterLast(s, c)| == |s|
  {
    s[..|s| - |AfterLast(s, c)| - 1]
  }

  lemma {:induction false} AroundLast(s: string, c: char)
    requires c in s
    ensures s == BeforeLast(s, c) + [c] + AfterLast(s, c)
  {
    if s[|s| - 1] != c {
      AroundLast(s[..|s| - 1], c);
    }
  }

  /** The first `c` of `a + [c] + b` is the one after `a`, when `a` holds none. */
  lemma {:induction false} BeforeUnique(a: string, c: char, b: string)
    requires c !in a
    ensures Before(a + [c] + b, c) == a
    ensures After(a + [c] + b, c) == b
  {
    if a == [] {
      assert (a + [c] + b)[0] == c;
    } else {
      BeforeUnique(a[1..], c, b);
      assert (a + [c] + b)[1..] == a[1..] + [c] + b;
    }
  }

  /** The last `c` of `a + [c] + b` is the one before `b`, when `b` holds none. */
  lemma {:induction false} AfterLastUnique(a: string, c: char, b: string)
    requires c !in b
    ensures AfterLast(a + [c] + b, c) == b
    ensures BeforeLast(a + [c] + b, c) == a
  {
    var s := a + [c] + b;
    if b == [] {
      assert s[|s| - 1] == c;
    } else {
      AfterLastUnique(a, c, b[..|b| - 1]);
      assert s[..|s| - 1] == a + [c] + b[..|b| - 1];
    }
  }

  /** Text put in front, up to and with a separator, does not move the last part. */
  lemma AfterLastPrepend(a: string, c: char, b: string)
    ensures AfterLast(a + [c] + b, c) == AfterLast(b, c)
  {
    if c in b {
      AroundLast(b, c);
      var m, l := BeforeLast(b, c), AfterLast(b, c);
      assert a + [c] + b == (a + [c] + m) + [c] + l;
      AfterLastUnique(a + [c] + m, c, l);
    } else {
      AfterLastUnique(a, c, b);
    }
  }

  /** Splitting what was joined gives the parts back, when none of them holds the separator. */
  lemma {:induction false} SplitJoin(parts: seq<string>, c: char)
    requires |parts| >= 1 && forall i :: 0 <= i < |parts| ==> c !in parts[i]
    ensures Split(Join(parts, c), c) == parts
  {
    if |parts| > 1 {
      SplitJoin(parts[1..], c);
      var rest := Join(parts[1..], c);
      BeforeUnique(parts[0], c, rest);
      assert Join(parts, c) == parts[0] + [c] + rest;
      assert (parts[0] + [c] + rest)[|parts[0]|] == c;
    }
  }

  /** Splitting and joining again changes nothing. */
  lemma {:induction false} JoinSplit(s: string, c: char)
    ensures Join(Split(s, c), c) == s
    decreases |s|
  {
    if c in s {
      JoinSplit(After(s, c), c);
      assert Split(s, c)[1..] == Split(After(s, c), c);
    }
  }

  // ---------------------------------------------------------------------------
  // Decimal numerals
  // ---------------------------------------------------------------------------

  const DIGITS: string := "0123456789"

  function Decimal(n: nat): (r: string)
    ensures |r| >= 1
    ensures forall c :: c in r ==> c in DIGITS
  {
    if n < 10 then [DIGITS[n]] else Decimal(n / 10) + [DIGITS[n % 10]]
  }

  function IntText(n: int): (r: string)
    ensures ' ' !in r
  {
    if n < 0 then "-" + Decimal(-n) else Decimal(n)
  }

  lemma DigitsDistinct(i: nat, j: nat)
    requires i < 10 && j < 10 && DIGITS[i] == DIGITS[j]
    ensures i == j
  {
  }

  /** Different numbers print differently. */
  lemma {:induction false} DecimalInjective(m: nat, n: nat)
    requires Decimal(m) == Decimal(n)
    ensures m == n
    decreases m
  {
    var a, b := Decimal(m), Decimal(n);
    if m < 10 || n < 10 {
      assert |a| == |b|;
      DigitsDistinct(m % 10, n % 10);
    } else {
      assert a[|a| - 1] == DIGITS[m % 10] && b[|b| - 1] == DIGITS[n % 10];
      DigitsDistinct(m % 10, n % 10);
      assert Decimal(m / 10) == a[..|a| - 1] == b[..|b| - 1] == Decimal(n / 10);
      DecimalInjective(m / 10, n / 10);
    }
  }

  /** The number that a text of digits stands for. */
  ghost function DigitsValue(s: string): int {
    if s == [] then 0 else 10 * DigitsValue(s[..|s| - 1]) + (s[|s| - 1] as int - '0' as int)
  }

  /** The numeral of a number stands for it, without a leading zero. */
  lemma {:induction false} DecimalReads(n: nat)
    ensures DigitsValue(Decimal(n)) == n
    ensures n > 0 ==> Decimal(n)[0] != '0'
  {
    if n < 10 {
      assert DIGITS[n] as int - '0' as int == n;
      assert [DIGITS[n]][..0] == [];
    } else {
      DecimalReads(n / 10);
      var d := DIGITS[n % 10];
      assert d as int - '0' as int == n % 10;
      assert (Decimal(n / 10) + [d])[..|Decimal(n / 10)|] == Decimal(n / 10);
    }
  }

  /** A printed integer is its numeral, behind a minus sign when it is negative. */
  lemma IntTextReads(n: int)
    ensures n >= 0 ==> DigitsValue(IntText(n)) == n
    ensures n < 0 ==> IntText(n) != "" && IntText(n)[0] == '-' && DigitsValue(IntText(n)[1..]) == -n
  {
    if n >= 0 {
      DecimalReads(n);
    } else {
      DecimalReads(-n);
      assert IntText(n)[1..] == Decimal(-n);
    }
  }

  // ---------------------------------------------------------------------------
  // Code-point order
  // ---------------------------------------------------------------------------

  predicate Less(a: string, b: string) {
    if b == [] then false
    else if a == [] then true
    else if a[0] != b[0] then a[0] < b[0]
    else Less(a[1..], b[1..])
  }

  /** `a` ends at `i`, or has there a smaller character than `b`, and both are equal before. */
  ghost predicate SmallerAt(a: string, b: string, i: nat) {
    i <= |a| && i < |b| && a[..i] == b[..i] && (i == |a| || a[i] < b[i])
  }

  /** The order is lexicographic by code points, a prefix first. */
  lemma {:induction false} LessIff(a: string, b: string)
    ensures Less(a, b) <==> exists i: nat :: SmallerAt(a, b, i)
  {
    if a == [] || b == [] || a[0] != b[0] {
      assert a[..0] == b[..0] == [];
      if Less(a, b) {
        assert SmallerAt(a, b, 0);
      } else {
        forall i: nat ensures !SmallerAt(a, b, i) {
          assert 0 < i <= |a| && i <= |b| ==> a[..i][0] == a[0] && b[..i][0] == b[0];
        }
      }
    } else {
      LessIff(a[1..], b[1..]);
      if Less(a, b) {
        var i: nat :| SmallerAt(a[1..], b[1..], i);
        assert a[..i + 1] == [a[0]] + a[1..][..i] && b[..i + 1] == [b[0]] + b[1..][..i];
        assert SmallerAt(a, b, i + 1);
      }
      if i: nat :| SmallerAt(a, b, i) {
        assert i > 0;
        assert a[1..][..i - 1] == a[..i][1..] && b[1..][..i - 1] == b[..i][1..];
        assert SmallerAt(a[1..], b[1..], i - 1);
      }
    }
  }

  lemma {:induction false} LessIrreflexive(a: string)
    ensures !Less(a, a)
  {
    if a != [] {
      LessIrreflexive(a[1..]);
    }
  }

  lemma {:induction false} LessTransitive(a: string, b: string, c: string)
    requires Less(a, b) && Less(b, c)
    ensures Less(a, c)
  {
    if a != [] && a[0] == b[0] == c[0] {
      LessTransitive(a[1..], b[1..], c[1..]);
    }
  }

  lemma {:induction false} LessTotal(a: string, b: string)
    ensures Less(a, b) || a == b || Less(b, a)
  {
    if a != [] && b != [] && a[0] == b[0] {
      LessTotal(a[1..], b[1..]);
      assert a == [a[0]] + a[1..] && b == [b[0]] + b[1..];
    }
  }

  ghost predicate StrictlySorted(s: seq<string>) {
    forall i, j :: 0 <= i < j < |s| ==> Less(s[i], s[j])
  }

  ghost function Elements<T>(s: seq<T>): set<T> {
    set x | x in s
  }

  lemma AppendAssociative<T>(x: seq<T>, y: seq<T>, z: seq<T>)
    ensures x + y + z == x + (y + z)
  {
  }

  lemma SplitLast<T>(s: seq<T>)
    requires s != []
    ensures s == s[..|s| - 1] + [s[|s| - 1]]
  {
  }

  lemma NoElements<T>(s: seq<T>)
    ensures Elements(s) == {} <==> s == []
  {
    if s != [] {
      assert s[0] in Elements(s);
    }
  }

  /** A set of strings can be listed in increasing order in one way only. */
  lemma {:induction false} SortedUnique(a: seq<string>, b: seq<string>)
    requires StrictlySorted(a) && StrictlySorted(b) && Elements(a) == Elements(b)
    ensures a == b
  {
    if a == [] || b == [] {
      NoElements(a);
      NoElements(b);
    } else {
      SameHead(a, b);
      var ta, tb := a[1..], b[1..];
      LessIrreflexive(a[0]);
      forall x ensures x in Elements(ta) <==> x in Elements(tb) {
        assert a == [a[0]] + ta && b == [b[0]] + tb;
        assert x in Elements(a) <==> x in Elements(b);
        assert a[0] !in ta && b[0] !in tb;
      }
      SortedUnique(ta, tb);
      assert a == [a[0]] + ta && b == [b[0]] + tb;
    }
  }

  lemma SameHead(a: seq<string>, b: seq<string>)
    requires StrictlySorted(a) && StrictlySorted(b) && Elements(a) == Elements(b)
    requires a != [] && b != []
    ensures a[0] == b[0]
  {
    assert a[0] in Elements(b) && b[0] in Elements(a);
    var i :| 0 <= i < |b| && b[i] == a[0];
    var j :| 0 <= j < |a| && a[j] == b[0];
    if i != 0 && j != 0 {
      LessTransitive(a[0], a[j], a[0]);
      LessIrreflexive(a[0]);
    }
  }

  ghost predicate IsLeast(x: string, s: set<string>) {
    x in s && forall y :: y in s && y != x ==> Less(x, y)
  }

  /** A non-empty set of strings has a least element. */
  lemma {:induction false} LeastExists(s: set<string>)
    requires s != {}
    ensures exists x :: IsLeast(x, s)
  {
    var x :| x in s;
    var rest := s - {x};
    if rest == {} {
      assert s == {x};
      assert IsLeast(x, s);
    } else {
      LeastExists(rest);
      var m :| IsLeast(m, rest);
      LessTotal(x, m);
      if Less(x, m) {
        forall y | y in s && y != x ensures Less(x, y) {
          if y != m { LessTransitive(x, m, y); }
        }
        assert IsLeast(x, s);
      } else {
        assert IsLeast(m, s);
      }
    }
  }

  /** The increasing listing of a set of strings: what `sorted` returns. */
  ghost function SortedKeys(s: set<string>): (r: seq<string>)
    ensures StrictlySorted(r) && Elements(r) == s
  {
    if s == {} then []
    else
      LeastExists(s);
      var x :| IsLeast(x, s);
      var rest := SortedKeys(s - {x});
      assert forall y :: y in rest ==> y in Elements(rest);
      assert forall y :: y in [x] + rest <==> y == x || y in Elements(rest);
      [x] + rest
  }

  /** Listing a union whose first part lies wholly before the second. */
  lemma SortedKeysUnion(a: set<string>, b: set<string>)
    requires forall x, y :: x in a && y in b ==> Less(x, y)
    ensures SortedKeys(a + b) == SortedKeys(a) + SortedKeys(b)
  {
    var ka, kb := SortedKeys(a), SortedKeys(b);
    var k := ka + kb;
    forall i, j | 0 <= i < j < |k| ensures Less(k[i], k[j]) {
      assert k[i] in Elements(k) && k[j] in Elements(k);
      if i < |ka| <= j {
        assert ka[i] in Elements(ka) && kb[j - |ka|] in Elements(kb);
      }
    }
    forall x ensures x in Elements(k) <==> x in a + b {
      assert x in k <==> x in ka || x in kb;
      assert x in ka <==> x in Elements(ka);
      assert x in kb <==> x in Elements(kb);
    }
    assert Elements(k) == a + b;
    SortedUnique(k, SortedKeys(a + b));
  }

  lemma InsertSorted(r: seq<string>, n: nat, x: string)
    requires StrictlySorted(r) && n <= |r|
    requires forall i :: 0 <= i < n ==> Less(r[i], x)
    requires forall i :: n <= i < |r| ==> Less(x, r[i])
    ensures StrictlySorted(r[..n] + [x] + r[n..]) && Elements(r[..n] + [x] + r[n..]) == Elements(r) + {x}
  {
    var q := r[..n] + [x] + r[n..];
    assert r == r[..n] + r[n..];
    forall y ensures y in Elements(q) <==> y in Elements(r) + {x} {
      assert y in q <==> y in r[..n] || y == x || y in r[n..];
    }
  }

  /** Python's `sorted` on a set of names. */
  method SortNames(names: set<string>) returns (r: seq<string>)
    ensures r == SortedKeys(names)
  {
    r := [];
    var todo := names;
    while todo != {}
      invariant todo <= names && StrictlySorted(r) && Elements(r) == names - todo
      decreases todo
    {
      var x :| x in todo;
      assert x !in Elements(r);
      var n := 0;
      while n < |r| && Less(r[n], x)
        invariant 0 <= n <= |r|
        invariant forall i :: 0 <= i < n ==> Less(r[i], x)
      {
        n := n + 1;
      }
      forall i | n <= i < |r| ensures Less(x, r[i]) {
        assert r[n] in Elements(r);
        LessTotal(x, r[n]);
        if i > n { LessTransitive(x, r[n], r[i]); }
      }
      InsertSorted(r, n, x);
      r := r[..n] + [x] + r[n..];
      todo := todo - {x};
    }
    SortedUnique(r, SortedKeys(names));
  }

  /** A set is as large as its listing is long. */
  lemma SortedLength(s: set<string>)
    ensures |SortedKeys(s)| == |s|
  {
    DistinctLength(SortedKeys(s));
  }

  lemma {:induction false} DistinctLength(s: seq<string>)
    requires StrictlySorted(s)
    ensures |Elements(s)| == |s|
  {
    if s != [] {
      var t, x := s[..|s| - 1], s[|s| - 1];
      DistinctLength(t);
      assert s == t + [x];
      LessIrreflexive(x);
      assert forall i :: 0 <= i < |t| ==> t[i] == s[i] && Less(t[i], x);
      assert x !in Elements(t);
      assert Elements(s) == Elements(t) + {x};
    } else {
      NoElements(s);
    }
  }
}
