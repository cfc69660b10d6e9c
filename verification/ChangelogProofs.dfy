/** What promotion keeps: sections survive printing and parsing, the text around them is untouched, and
    batches may be promoted one after the other or together. */
module ChangelogProofs {
  import opened Text
  import opened OrderedDict
  import opened ChangelogLines
  import opened ChangelogModel

  // ---------------------------------------------------------------------------
  // Folding
  // ---------------------------------------------------------------------------

  lemma {:induction false} ParseAppend(p: Parser, a: seq<string>, b: seq<string>)
    ensures ParseLines(p, a + b) == ParseLines(ParseLines(p, a), b)
    decreases |a|
  {
    if a == [] {
      assert a + b == b;
    } else {
      ParseAppend(StepLine(p, a[0]), a[1..], b);
      assert (a + b)[1..] == a[1..] + b;
    }
  }

  lemma ParseOne(p: Parser, line: string)
    ensures ParseLines(p, [line]) == StepLine(p, line)
  {
    assert ParseLines(StepLine(p, line), []) == StepLine(p, line);
    assert [line][1..] == [];
  }

  lemma StepNewline(p: Parser)
    ensures StepLine(p, NEWLINE) == p && StepLine(p, "") == p
    ensures !IsHeading(NEWLINE) && !IsHeading("")
  {
    assert NEWLINE[0] == '\n' && CATEGORY[0] == '#' && HEADING[0] == '#';
    assert IsBlank(NEWLINE) && IsBlank("");
  }

  // ---------------------------------------------------------------------------
  // Printed lines
  // ---------------------------------------------------------------------------

  /** The lines an item becomes when a newline is put after it. */
  function ItemLines(l: string): seq<string> {
    if EndsWithBreak(l) then [l, NEWLINE] else [l + NEWLINE]
  }

  function Printed(items: seq<string>): seq<string>
    decreases |items|
  {
    if items == [] then [] else ItemLines(items[0]) + Printed(items[1..])
  }

  ghost predicate AreItems(items: seq<string>) {
    forall i :: 0 <= i < |items| ==> IsItem(items[i])
  }

  lemma ConcatOne(l: string)
    ensures Concat([l]) == l
  {
    assert Concat([l]) == l + Concat([]);
  }

  lemma ItemLinesShape(l: string)
    requires IsItem(l)
    ensures AreLines(ItemLines(l)) && EndsWithBreak(ItemLines(l)[|ItemLines(l)| - 1])
    ensures Concat(ItemLines(l)) == l + NEWLINE
  {
    assert IsLine(NEWLINE) && EndsWithBreak(NEWLINE);
    if EndsWithBreak(l) {
      assert [l, NEWLINE][1..] == [NEWLINE];
      ConcatOne(NEWLINE);
    } else {
      var m := l + NEWLINE;
      assert m[..|m| - 1] == l;
      ConcatOne(m);
      assert BreakFree(l) by {
        if l != [] { assert forall i :: 0 <= i < |l| - 1 ==> l[..|l| - 1][i] == l[i]; }
      }
    }
  }

  lemma {:induction false} PrintedShape(items: seq<string>)
    requires AreItems(items)
    ensures AreLines(Printed(items))
    ensures items != [] ==> Printed(items) != [] && EndsWithBreak(Printed(items)[|Printed(items)| - 1])
    decreases |items|
  {
    if items != [] {
      var h, t := ItemLines(items[0]), Printed(items[1..]);
      ItemLinesShape(items[0]);
      PrintedShape(items[1..]);
      AreLinesAppend(h, t);
      if t != [] {
        assert (h + t)[|h + t| - 1] == t[|t| - 1];
      } else {
        assert h + t == h;
      }
    }
  }

  /** Joining with newlines and ending with one prints each item on its own. */
  lemma {:induction false} JoinPrinted(items: seq<string>)
    requires items != [] && AreItems(items)
    ensures Join(items, '\n') + NEWLINE == Concat(Printed(items))
    decreases |items|
  {
    ItemLinesShape(items[0]);
    ConcatAppend(ItemLines(items[0]), Printed(items[1..]));
    if |items| == 1 {
      assert Printed(items[1..]) == [];
    } else {
      JoinPrinted(items[1..]);
    }
  }

  /** Parsing the lines of an item is one step on the item. */
  lemma ParseItem(p: Parser, l: string)
    requires IsItem(l)
    ensures ParseLines(p, ItemLines(l)) == StepLine(p, l)
  {
    PatternsIgnoreNewline(l);
    if EndsWithBreak(l) {
      assert [l, NEWLINE] == [l] + [NEWLINE];
      ParseAppend(p, [l], [NEWLINE]);
      ParseOne(p, l);
      ParseOne(StepLine(p, l), NEWLINE);
      StepNewline(StepLine(p, l));
    } else {
      ParseOne(p, l + NEWLINE);
      StepIgnoresNewline(p, l);
    }
  }

  lemma StepIgnoresNewline(p: Parser, l: string)
    requires '\n' !in l
    ensures StepLine(p, l + NEWLINE) == StepLine(p, l)
  {
    PatternsIgnoreNewline(l);
  }

  lemma {:induction false} ParsePrinted(p: Parser, items: seq<string>)
    requires AreItems(items)
    ensures ParseLines(p, Printed(items)) == ParseLines(p, items)
    decreases |items|
  {
    if items != [] {
      ParseAppend(p, ItemLines(items[0]), Printed(items[1..]));
      ParseItem(p, items[0]);
      ParsePrinted(StepLine(p, items[0]), items[1..]);
    }
  }

  lemma {:induction false} NoHeadingPrinted(items: seq<string>)
    requires AreItems(items) && forall i :: 0 <= i < |items| ==> !IsHeading(items[i])
    ensures forall i :: 0 <= i < |Printed(items)| ==> !IsHeading(Printed(items)[i])
    decreases |items|
  {
    if items != [] {
      NoHeadingPrinted(items[1..]);
      PatternsIgnoreNewline(items[0]);
      StepNewline(START);
    }
  }

  // ---------------------------------------------------------------------------
  // Categories survive printing and parsing
  // ---------------------------------------------------------------------------

  /** A line that printing and parsing keep as a bullet. */
  ghost predicate IsBullet(b: string) {
    IsItem(b) && CategoryOf(b).None? && !IsBlank(b)
  }

  ghost predicate AreBullets(bs: seq<string>) {
    forall i :: 0 <= i < |bs| ==> IsBullet(bs[i])
  }

  ghost predicate IsName(k: string) {
    k != [] && IsItem(CATEGORY + k)
  }

  /** Categories that print to something the parser reads back. */
  ghost predicate Printable(c: Categories) {
    && c.Valid()
    && (forall k :: k in c.at ==> IsName(k) && AreBullets(c.at[k]))
  }

  lemma NameLine(k: string)
    requires IsName(k)
    ensures CategoryOf(CATEGORY + k) == Some(k) && !IsHeading(CATEGORY + k)
  {
    var l := CATEGORY + k;
    assert l[..|CATEGORY|] == CATEGORY && l[|CATEGORY|..] == k;
    assert forall c :: c in k ==> c in l;
    assert HEADING[2] == ' ' && l[2] == CATEGORY[2] == '#';
  }

  lemma {:induction false} ParseBullets(p: Parser, k: string, bs: seq<string>)
    requires p.current == Some(k) && k in p.categories.at && AreBullets(bs)
    ensures ParseLines(p, bs)
            == p.(categories := p.categories.(at := p.categories.at[k := p.categories.at[k] + bs]))
    decreases |bs|
  {
    var m := p.categories.at;
    if bs == [] {
      assert m[k] + bs == m[k];
      assert m[k := m[k]] == m;
    } else {
      StepBullet(p, k, bs[0]);
      ParseBullets(StepLine(p, bs[0]), k, bs[1..]);
      AppendAssociative(m[k], [bs[0]], bs[1..]);
      assert [bs[0]] + bs[1..] == bs;
      assert m[k := m[k] + [bs[0]]][k := m[k] + bs] == m[k := m[k] + bs];
    }
  }

  lemma StepBullet(p: Parser, k: string, x: string)
    requires p.current == Some(k) && k in p.categories.at && AreBullets([x])
    ensures StepLine(p, x) == p.(categories := p.categories.(at := p.categories.at[k := p.categories.at[k] + [x]]))
  {
    assert [x][0] == x;
    PatternsIgnoreNewline(x);
  }

  /** One category: its name, its bullets and the blank line after them. */
  lemma ParseCategory(p: Parser, k: string, bs: seq<string>)
    requires IsName(k) && AreBullets(bs) && k !in p.categories.at
    ensures ParseLines(p, [CATEGORY + k] + bs + [""])
            == Parser(Dict(p.categories.keys + [k], p.categories.at[k := bs]), Some(k))
  {
    var p1 := StepLine(p, CATEGORY + k);
    NameLine(k);
    ParseOne(p, CATEGORY + k);
    ParseAppend(p, [CATEGORY + k], bs);
    ParseBullets(p1, k, bs);
    assert [] + bs == bs;
    assert p.categories.at[k := []][k := bs] == p.categories.at[k := bs];
    ParseAppend(p, [CATEGORY + k] + bs, [""]);
    ParseOne(ParseLines(p1, bs), "");
    StepNewline(ParseLines(p1, bs));
  }

  function Restrict(m: map<string, seq<string>>, keys: seq<string>): map<string, seq<string>> {
    map k | k in m && k in keys :: m[k]
  }

  /** Parsing the printed categories from the `n`-th on completes the first `n`. */
  lemma {:induction false} ParseCategories(c: Categories, n: nat, p: Parser)
    requires Printable(c) && n <= |c.keys|
    requires p.categories == Dict(c.keys[..n], Restrict(c.at, c.keys[..n]))
    ensures ParseLines(p, CategoryLines(c.keys[n..], c.at)).categories == c
    decreases |c.keys| - n
  {
    if n == |c.keys| {
      assert c.keys[n..] == [] && c.keys[..n] == c.keys;
      assert Restrict(c.at, c.keys) == c.at;
    } else {
      var k := c.keys[n];
      var rest := CategoryLines(c.keys[n + 1..], c.at);
      CategoryLinesStep(c, n);
      RestrictStep(c, n);
      ParseAppend(p, [CATEGORY + k] + c.at[k] + [""], rest);
      ParseCategory(p, k, c.at[k]);
      ParseCategories(c, n + 1, ParseLines(p, [CATEGORY + k] + c.at[k] + [""]));
    }
  }

  lemma CategoryLinesStep(c: Categories, n: nat)
    requires n < |c.keys| && c.keys[n] in c.at
    ensures var k := c.keys[n];
            CategoryLines(c.keys[n..], c.at)
            == [CATEGORY + k] + c.at[k] + [""] + CategoryLines(c.keys[n + 1..], c.at)
  {
    assert c.keys[n..][1..] == c.keys[n + 1..];
  }

  lemma RestrictStep(c: Categories, n: nat)
    requires c.Valid() && n < |c.keys|
    ensures var k := c.keys[n];
            && k in c.at && k !in Restrict(c.at, c.keys[..n])
            && c.keys[..n + 1] == c.keys[..n] + [k]
            && Restrict(c.at, c.keys[..n + 1]) == Restrict(c.at, c.keys[..n])[k := c.at[k]]
  {
    var k := c.keys[n];
    assert k in c.keys;
    assert k !in c.keys[..n];
    assert c.keys[..n + 1] == c.keys[..n] + [k];
  }

  /** Printed categories are read back exactly: names, bullets and their order. */
  lemma CategoriesRoundTrip(c: Categories)
    requires Printable(c)
    ensures ParseLines(START, CategoryLines(c.keys, c.at)).categories == c
  {
    assert c.keys[..0] == [] && c.keys[0..] == c.keys;
    assert Restrict(c.at, []) == map[];
    ParseCategories(c, 0, START);
  }

  lemma {:induction false} CategoryLinesShape(keys: seq<string>, m: map<string, seq<string>>)
    requires forall i :: 0 <= i < |keys| ==> IsName(keys[i]) && AreBullets(Get(m, keys[i]))
    ensures AreItems(CategoryLines(keys, m))
    decreases |keys|
  {
    if keys != [] {
      CategoryLinesShape(keys[1..], m);
    }
  }

  lemma {:induction false} CategoryLinesNoHeading(keys: seq<string>, m: map<string, seq<string>>)
    requires forall i :: 0 <= i < |keys| ==> IsName(keys[i]) && NoHeadings(Get(m, keys[i]))
    ensures NoHeadings(CategoryLines(keys, m))
    decreases |keys|
  {
    if keys != [] {
      NameLine(keys[0]);
      StepNewline(START);
      CategoryLinesNoHeading(keys[1..], m);
    }
  }

  ghost predicate NoHeadings(lines: seq<string>) {
    forall i :: 0 <= i < |lines| ==> !IsHeading(lines[i])
  }

  /** No bullet is shaped like a section heading. */
  ghost predicate NoHeadingBullets(m: map<string, seq<string>>) {
    forall k :: k in m ==> NoHeadings(m[k])
  }
}
