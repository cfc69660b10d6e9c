/** Fragments with a bullet that looks like a version heading: such a bullet cuts the printed section, and
    a second promotion of the version prints more than one promotion of everything. */
module ChangelogHeadings {
  import opened Text
  import opened OrderedDict
  import opened ChangelogLines
  import opened ChangelogModel
  import opened ChangelogProofs
  import opened ChangelogPromotion
  import opened ChangelogLimits

  // ---------------------------------------------------------------------------
  // What a merge adds
  // ---------------------------------------------------------------------------

  function ExtraOf(keys: set<string>, k: string, bs: seq<string>): nat {
    if k in keys then LinesLength(bs) else KeyLength(k, bs)
  }

  /** The length that merging `b` adds to printed categories with these names. */
  ghost function Extra(keys: set<string>, b: map<string, seq<string>>): nat
    decreases |b|
  {
    if b == map[] then 0
    else
      var k :| k in b;
      SmallerWithout(b, k);
      ExtraOf(keys, k, b[k]) + Extra(keys, b - {k})
  }

  lemma {:induction false} ExtraWithout(keys: set<string>, b: map<string, seq<string>>, k: string)
    requires k in b
    ensures Extra(keys, b) == ExtraOf(keys, k, b[k]) + Extra(keys, b - {k})
    decreases |b|
  {
    var j :| j in b && Extra(keys, b) == ExtraOf(keys, j, b[j]) + Extra(keys, b - {j});
    if j != k {
      SmallerWithout(b, j);
      SmallerWithout(b, k);
      ExtraWithout(keys, b - {j}, k);
      ExtraWithout(keys, b - {k}, j);
      assert b - {j} - {k} == b - {k} - {j};
    }
  }

  lemma {:induction false} ExtraIgnores(keys: set<string>, b: map<string, seq<string>>, k: string)
    requires k !in b
    ensures Extra(keys - {k}, b) == Extra(keys, b)
    decreases |b|
  {
    if b != map[] {
      var j :| j in b;
      SmallerWithout(b, j);
      ExtraWithout(keys, b, j);
      ExtraWithout(keys - {k}, b, j);
      ExtraIgnores(keys, b - {j}, k);
    }
  }

  /** Fewer names to start with, more to add. */
  lemma {:induction false} ExtraMonotone(a: set<string>, c: set<string>, b: map<string, seq<string>>)
    requires a <= c
    ensures Extra(a, b) >= Extra(c, b)
    decreases |b|
  {
    if b != map[] {
      var j :| j in b;
      SmallerWithout(b, j);
      ExtraWithout(a, b, j);
      ExtraWithout(c, b, j);
      ExtraMonotone(a, c, b - {j});
    }
  }

  lemma {:induction false} CombineExtra(a: map<string, seq<string>>, b: map<string, seq<string>>)
    ensures Weight(Combine(a, b)) == Weight(a) + Extra(a.Keys, b)
    decreases |b|
  {
    if b == map[] {
      CombineEmpty(a);
    } else {
      var k :| k in b;
      SmallerWithout(b, k);
      CombineWithout(a, b, k);
      CombineExtra(a - {k}, b - {k});
      assert (a - {k}).Keys == a.Keys - {k};
      ExtraIgnores(a.Keys, b - {k}, k);
      ExtraWithout(a.Keys, b, k);
      CombineKey(a, b, k);
      WeightBut(a, k, b[k]);
    }
  }

  lemma WeightBut(a: map<string, seq<string>>, k: string, bs: seq<string>)
    ensures KeyLength(k, Get(a, k)) + LinesLength(bs) + Weight(a - {k}) == Weight(a) + ExtraOf(a.Keys, k, bs)
  {
    if k in a {
      WeightWithout(a, k);
    } else {
      assert a - {k} == a;
    }
  }

  lemma CombineKey(a: map<string, seq<string>>, b: map<string, seq<string>>, k: string)
    requires k in b
    ensures Weight(Combine(a, b)) == KeyLength(k, Get(a, k)) + LinesLength(b[k]) + Weight(Combine(a, b) - {k})
  {
    WeightWithout(Combine(a, b), k);
    LinesLengthAppend(Get(a, k), b[k]);
  }

  // ---------------------------------------------------------------------------
  // Where a section is cut
  // ---------------------------------------------------------------------------

  lemma {:induction false} CategoryLinesAppend(a: seq<string>, b: seq<string>, m: map<string, seq<string>>)
    ensures CategoryLines(a + b, m) == CategoryLines(a, m) + CategoryLines(b, m)
    decreases |a|
  {
    if a == [] {
      assert a + b == b;
    } else {
      CategoryLinesAppend(a[1..], b, m);
      assert (a + b)[0] == a[0] && (a + b)[1..] == a[1..] + b;
      AppendAssociative([CATEGORY + a[0]] + Get(m, a[0]) + [""], CategoryLines(a[1..], m), CategoryLines(b, m));
    }
  }

  lemma OneCategory(k: string, m: map<string, seq<string>>)
    ensures CategoryLines([k], m) == [CATEGORY + k] + Get(m, k) + [""]
  {
    assert [k][1..] == [];
  }

  /** The printed items before bullet `b` of category `i`, and those after it. */
  function Head(keys: seq<string>, m: map<string, seq<string>>, i: nat, b: nat): seq<string>
    requires i < |keys| && b <= |Get(m, keys[i])|
  {
    CategoryLines(keys[..i], m) + ([CATEGORY + keys[i]] + Get(m, keys[i])[..b])
  }

  function Tail(keys: seq<string>, m: map<string, seq<string>>, i: nat, b: nat): seq<string>
    requires i < |keys| && b < |Get(m, keys[i])|
  {
    Get(m, keys[i])[b + 1..] + [""] + CategoryLines(keys[i + 1..], m)
  }

  lemma Around(a: seq<string>, k: string, bs: seq<string>, b: nat, rest: seq<string>)
    requires b < |bs|
    ensures a + (([k] + bs + [""]) + rest) == a + ([k] + bs[..b]) + ([bs[b]] + (bs[b + 1..] + [""] + rest))
  {
    assert bs == bs[..b] + ([bs[b]] + bs[b + 1..]);
  }

  lemma KeysAround(keys: seq<string>, m: map<string, seq<string>>, i: nat)
    requires i < |keys|
    ensures CategoryLines(keys, m)
         == CategoryLines(keys[..i], m)
            + (([CATEGORY + keys[i]] + Get(m, keys[i]) + [""]) + CategoryLines(keys[i + 1..], m))
  {
    assert keys == keys[..i] + ([keys[i]] + keys[i + 1..]);
    CategoryLinesAppend(keys[..i], [keys[i]] + keys[i + 1..], m);
    CategoryLinesAppend([keys[i]], keys[i + 1..], m);
    OneCategory(keys[i], m);
  }

  /** A printed section: its heading and a blank line, and for each category in order its heading, its bullets and a
      blank line. */
  lemma PrintedForm(version: string, date: string, c: Categories, i: nat)
    requires i < |c.keys|
    ensures SectionLines(version, date, c)
         == ["## [" + version + "] - " + date, ""]
            + (CategoryLines(c.keys[..i], c.at)
               + ((["### " + c.keys[i]] + Get(c.at, c.keys[i]) + [""]) + CategoryLines(c.keys[i + 1..], c.at)))
    ensures CategoryLines(c.keys[..0], c.at) == [] == CategoryLines(c.keys[|c.keys|..], c.at)
  {
    KeysAround(c.keys, c.at, i);
    assert HeadingLine(version, date) == "## [" + version + "] - " + date;
  }

  lemma HeadTail(keys: seq<string>, m: map<string, seq<string>>, i: nat, b: nat)
    requires i < |keys| && b < |Get(m, keys[i])|
    ensures CategoryLines(keys, m) == Head(keys, m, i, b) + ([Get(m, keys[i])[b]] + Tail(keys, m, i, b))
  {
    KeysAround(keys, m, i);
    Around(CategoryLines(keys[..i], m), CATEGORY + keys[i], Get(m, keys[i]), b, CategoryLines(keys[i + 1..], m));
  }

  /** No bullet before bullet `b` of category `i` is marked. */
  ghost predicate Unmarked(marked: string -> bool, keys: seq<string>, m: map<string, seq<string>>, i: nat, b: nat)
    requires i < |keys| && b <= |Get(m, keys[i])|
  {
    && (forall j :: 0 <= j < i ==> NoneOf(marked, Get(m, keys[j])))
    && NoneOf(marked, Get(m, keys[i])[..b])
  }

  ghost predicate NoneOf(marked: string -> bool, ls: seq<string>) {
    forall i :: 0 <= i < |ls| ==> !marked(ls[i])
  }

  lemma {:induction false} FirstMarked(marked: string -> bool, bs: seq<string>) returns (b: nat)
    requires !NoneOf(marked, bs)
    ensures b < |bs| && marked(bs[b]) && NoneOf(marked, bs[..b])
  {
    var init := bs[..|bs| - 1];
    if NoneOf(marked, init) {
      b := |init|;
    } else {
      b := FirstMarked(marked, init);
      assert init[..b] == bs[..b];
    }
  }

  lemma {:induction false} FirstMarkedBullet(marked: string -> bool, keys: seq<string>, m: map<string, seq<string>>,
                                             n: nat)
    returns (i: nat, b: nat)
    requires n < |keys| && !NoneOf(marked, Get(m, keys[n]))
    ensures i < |keys| && b < |Get(m, keys[i])| && marked(Get(m, keys[i])[b]) && Unmarked(marked, keys, m, i, b)
    decreases n
  {
    if j :| 0 <= j < n && !NoneOf(marked, Get(m, keys[j])) {
      i, b := FirstMarkedBullet(marked, keys, m, j);
    } else {
      i := n;
      b := FirstMarked(marked, Get(m, keys[n]));
    }
  }

  /** What the items before bullet `b` of category `i` say. */
  ghost function CutAt(c: Categories, i: nat, b: nat): Categories
    requires i < |c.keys| && b <= |Get(c.at, c.keys[i])|
  {
    Dict(c.keys[..i + 1], Restrict(c.at, c.keys[..i + 1])[c.keys[i] := Get(c.at, c.keys[i])[..b]])
  }

  lemma CutAtGood(c: Categories, i: nat, b: nat)
    requires c.Valid() && PrintableMap(c.at) && i < |c.keys| && b <= |Get(c.at, c.keys[i])|
    ensures CutAt(c, i, b).Valid() && PrintableMap(CutAt(c, i, b).at) && CutAt(c, i, b).at.Keys <= c.at.Keys
  {
    var d := CutAt(c, i, b);
    assert forall j :: 0 <= j < |c.keys| ==> c.keys[j] in c.keys;
    assert c.keys[..i + 1][i] == c.keys[i];
    assert forall k :: k in d.keys ==> k in c.keys;
    assert d.Valid();
    forall k | k in d.at ensures IsName(k) && AreBullets(d.at[k]) {
      BulletsPrefix(Get(c.at, c.keys[i]), b);
    }
  }

  lemma BulletsPrefix(bs: seq<string>, b: nat)
    requires b <= |bs|
    ensures AreBullets(bs) ==> AreBullets(bs[..b])
  {
  }

  /** They lack only the blank line at the end. */
  lemma CutPrints(c: Categories, i: nat, b: nat)
    requires c.Valid() && i < |c.keys| && b <= |Get(c.at, c.keys[i])|
    ensures CategoryLines(CutAt(c, i, b).keys, CutAt(c, i, b).at) == Head(c.keys, c.at, i, b) + [""]
  {
    var d, k := CutAt(c, i, b), c.keys[i];
    assert d.keys == c.keys[..i] + [k];
    CategoryLinesAppend(c.keys[..i], [k], d.at);
    OneCategory(k, d.at);
    CutSame(c, i, b);
    CategoryLinesSame(c.keys[..i], d.at, c.at);
    AppendAssociative(CategoryLines(c.keys[..i], c.at), [CATEGORY + k] + Get(c.at, k)[..b], [""]);
  }

  lemma CutSame(c: Categories, i: nat, b: nat)
    requires c.Valid() && i < |c.keys| && b <= |Get(c.at, c.keys[i])|
    ensures forall j :: 0 <= j < i ==> Get(CutAt(c, i, b).at, c.keys[..i][j]) == Get(c.at, c.keys[..i][j])
  {
    forall j | 0 <= j < i ensures Get(CutAt(c, i, b).at, c.keys[..i][j]) == Get(c.at, c.keys[..i][j]) {
      var k := c.keys[j];
      assert c.keys[..i + 1][j] == k && k in c.keys && k != c.keys[i];
    }
  }

  // ---------------------------------------------------------------------------
  // The cut section in its place
  // ---------------------------------------------------------------------------

  lemma {:induction false} PrintedAppend(a: seq<string>, b: seq<string>)
    ensures Printed(a + b) == Printed(a) + Printed(b)
    decreases |a|
  {
    if a == [] {
      assert a + b == b;
    } else {
      PrintedAppend(a[1..], b);
      assert (a + b)[0] == a[0] && (a + b)[1..] == a[1..] + b;
      AppendAssociative(ItemLines(a[0]), Printed(a[1..]), Printed(b));
    }
  }

  lemma {:induction false} PrintedLength(items: seq<string>)
    requires AreItems(items)
    ensures |Concat(Printed(items))| == LinesLength(items)
  {
    if items != [] {
      JoinPrinted(items);
      JoinLength(items, '\n');
    }
  }

  lemma PrintedHeadingFirst(x: string, tail: seq<string>)
    requires IsItem(x)
    ensures Printed([x] + tail) != [] && HeadingOf(Printed([x] + tail)[0]) == HeadingOf(x)
  {
    assert ([x] + tail)[0] == x;
    PatternsIgnoreNewline(x);
  }

  /** Parsing printed lines that lack the blank line at the end gives the same categories. */
  lemma CutParses(d: Categories, head: seq<string>)
    requires d.Valid() && PrintableMap(d.at) && CategoryLines(d.keys, d.at) == head + [""] && AreItems(head)
    ensures ParseLines(START, Printed([""] + head)).categories == d
  {
    ParsePrinted(START, [""] + head);
    ParseAppend(START, [""], head);
    ParseOne(START, "");
    StepNewline(START);
    ParseAppend(START, head, [""]);
    ParseOne(ParseLines(START, head), "");
    StepNewline(ParseLines(START, head));
    CategoriesRoundTrip(d);
  }

  lemma AppendItems(a: seq<string>, b: seq<string>)
    ensures AreItems(a + b) <==> AreItems(a) && AreItems(b)
    ensures NoHeadings(a + b) <==> NoHeadings(a) && NoHeadings(b)
  {
    var c := a + b;
    assert forall i :: 0 <= i < |a| ==> c[i] == a[i];
    assert forall i :: 0 <= i < |b| ==> c[|a| + i] == b[i];
  }

  lemma HeadIsQuiet(head: seq<string>)
    requires AreItems(head) && NoHeadings(head)
    ensures NoHeadings(Printed([""] + head)) && AreItems([""] + head)
  {
    StepNewline(START);
    NoHeadingPrinted([""] + head);
  }

  lemma RestFits(pre: seq<string>, post: seq<string>, version: string, rest: seq<string>)
    requires Fits(pre, post, version) && AreItems(rest) && (rest != [] ==> IsHeading(rest[0]))
    ensures Fits(pre, Printed(rest) + post, version)
  {
    if rest == [] {
      assert Printed(rest) + post == post;
    } else {
      assert rest == [rest[0]] + rest[1..];
      PrintedShape(rest);
      AreLinesAppend(Printed(rest), post);
      PrintedHeadingFirst(rest[0], rest[1..]);
    }
  }

  lemma PlacedParts(all: seq<string>, pre: seq<string>, h: string, body: seq<string>, post: seq<string>)
    requires all == pre + ([h] + body) + post
    ensures all[..|pre|] == pre && all[|pre| + 1 + |body|..] == post
  {
    Parts(pre, [h] + body, post);
    assert |[h] + body| == 1 + |body|;
  }

  lemma SectionInPlace(all: seq<string>, pre: seq<string>, h: string, body: seq<string>, post: seq<string>,
                       version: string)
    requires Fits(pre, post, version) && HeadingOf(h) == Some(version) && NoHeadings(body)
    requires all == pre + ([h] + body) + post
    ensures HasVersion(all, version) && all[..SectionStart(all, version)] == pre
    ensures all[SectionEnd(all, version)..] == post && Existing(all, version) == ParseLines(START, body).categories
  {
    FoundInPlace(pre, h, body, post, version);
    PlacedParts(all, pre, h, body, post);
  }

  /** A section whose items are cut by a heading is found up to the cut. */
  lemma CutFound(pre: seq<string>, post: seq<string>, version: string, h: string, d: Categories, head: seq<string>,
                 rest: seq<string>)
    requires Fits(pre, post, version) && HeadingOf(h) == Some(version)
    requires d.Valid() && PrintableMap(d.at) && CategoryLines(d.keys, d.at) == head + [""]
    requires AreItems(head) && NoHeadings(head) && AreItems(rest) && (rest != [] ==> IsHeading(rest[0]))
    ensures var all := pre + ([h] + Printed([""] + head)) + (Printed(rest) + post);
            && HasVersion(all, version) && all[..SectionStart(all, version)] == pre
            && all[SectionEnd(all, version)..] == Printed(rest) + post
            && Existing(all, version) == d
  {
    HeadIsQuiet(head);
    RestFits(pre, post, version, rest);
    CutParses(d, head);
    SectionInPlace(pre + ([h] + Printed([""] + head)) + (Printed(rest) + post), pre, h, Printed([""] + head),
                   Printed(rest) + post, version);
  }

  // ---------------------------------------------------------------------------
  // Two promotions print more than one
  // ---------------------------------------------------------------------------

  lemma SpliceLength(content: string, version: string, section: string)
    ensures var lines := Lines(content);
            |Splice(content, version, section)|
            == |Concat(lines[..SectionStart(lines, version)])| + |section| + 1
               + |Concat(lines[SectionEnd(lines, version)..])|
  {
  }

  /** The printed items of the categories, with the marked bullet that is found first. */
  lemma FirstHeadingBullet(c: Categories) returns (i: nat, b: nat)
    requires c.Valid() && !NoHeadingBullets(c.at)
    ensures i < |c.keys| && b < |Get(c.at, c.keys[i])| && IsHeading(Get(c.at, c.keys[i])[b])
    ensures Unmarked(l => IsHeading(l), c.keys, c.at, i, b)
  {
    var k :| k in c.at && !NoHeadings(c.at[k]);
    var n :| 0 <= n < |c.keys| && c.keys[n] == k;
    i, b := FirstMarkedBullet(l => IsHeading(l), c.keys, c.at, n);
  }

  lemma HeadQuiet(c: Categories, i: nat, b: nat)
    requires c.Valid() && PrintableMap(c.at) && i < |c.keys| && b <= |Get(c.at, c.keys[i])|
    requires Unmarked(l => IsHeading(l), c.keys, c.at, i, b)
    ensures NoHeadings(Head(c.keys, c.at, i, b))
  {
    var marked := l => IsHeading(l);
    forall j | 0 <= j < i ensures IsName(c.keys[..i][j]) && NoHeadings(Get(c.at, c.keys[..i][j])) {
      assert c.keys[j] in c.keys && NoneOf(marked, Get(c.at, c.keys[j]));
    }
    CategoryLinesNoHeading(c.keys[..i], c.at);
    assert c.keys[i] in c.keys;
    NameLine(c.keys[i]);
    var bs := Get(c.at, c.keys[i])[..b];
    assert NoneOf(marked, bs);
    assert NoHeadings([CATEGORY + c.keys[i]] + bs);
    AppendItems(CategoryLines(c.keys[..i], c.at), [CATEGORY + c.keys[i]] + bs);
  }

  lemma MergedHeadings(e: map<string, seq<string>>, m: map<string, seq<string>>)
    requires !NoHeadingBullets(m)
    ensures !NoHeadingBullets(Combine(e, m))
  {
    var k :| k in m && !NoHeadings(m[k]);
    GetCombine(e, m, k);
    AppendHeadings(Get(e, k), m[k]);
    assert Combine(e, m)[k] == Get(e, k) + m[k];
  }

  lemma AppendHeadings(a: seq<string>, b: seq<string>)
    requires !NoHeadings(b)
    ensures !NoHeadings(a + b)
  {
    var i :| 0 <= i < |b| && IsHeading(b[i]);
    assert (a + b)[|a| + i] == b[i];
  }

  /** The lines of a text with one section, cut in its items. */
  lemma SectionRegrouped(pre: seq<string>, h: string, head: seq<string>, rest: seq<string>, post: seq<string>)
    ensures pre + ([h] + Printed([""] + (head + rest))) + post
         == pre + ([h] + Printed([""] + head)) + (Printed(rest) + post)
  {
    assert [""] + (head + rest) == ([""] + head) + rest;
    PrintedAppend([""] + head, rest);
    var a, b := Printed([""] + head), Printed(rest);
    assert pre + ([h] + (a + b)) + post == pre + ([h] + a) + (b + post);
  }

  /** The printed section of `c` in its place, when the items after `head` begin with a heading or end. */
  lemma PrintedCut(pre: seq<string>, post: seq<string>, version: string, date: string, c: Categories, i: nat, b: nat)
    requires VersionOk(version) && NoInnerBracket(version) && BreakFree(date) && Fits(pre, post, version)
    requires c.Valid() && PrintableMap(c.at) && i < |c.keys| && b < |Get(c.at, c.keys[i])|
    requires IsHeading(Get(c.at, c.keys[i])[b]) && Unmarked(l => IsHeading(l), c.keys, c.at, i, b)
    ensures var all := pre + SectionPrint(version, date, c) + post;
            && HasVersion(all, version) && all[..SectionStart(all, version)] == pre
            && all[SectionEnd(all, version)..]
               == Printed([Get(c.at, c.keys[i])[b]] + Tail(c.keys, c.at, i, b)) + post
            && Existing(all, version) == CutAt(c, i, b)
  {
    var x, head, tail := Get(c.at, c.keys[i])[b], Head(c.keys, c.at, i, b), Tail(c.keys, c.at, i, b);
    HeadTail(c.keys, c.at, i, b);
    KeysOk(c);
    AppendItems([""], head + ([x] + tail));
    AppendItems(head, [x] + tail);
    HeadQuiet(c, i, b);
    CutAtGood(c, i, b);
    CutPrints(c, i, b);
    HeadingLineShape(version, date);
    SectionRegrouped(pre, HeadingLine(version, date) + NEWLINE, head, [x] + tail, post);
    CutFound(pre, post, version, HeadingLine(version, date) + NEWLINE, CutAt(c, i, b), head, [x] + tail);
  }

  /** The lengths around a cut: what is kept of the section prints one character less than its own reprint. */
  lemma CutLength(version: string, date: string, c: Categories, i: nat, b: nat)
    requires VersionOk(version) && BreakFree(date)
    requires c.Valid() && PrintableMap(c.at) && i < |c.keys| && b < |Get(c.at, c.keys[i])|
    ensures |Concat(SectionPrint(version, date, c))| == |HeadingLine(version, date)| + 2 + Weight(c.at)
    ensures |Concat(Printed([Get(c.at, c.keys[i])[b]] + Tail(c.keys, c.at, i, b)))| + Weight(CutAt(c, i, b).at)
         == Weight(c.at) + 1
  {
    var x, head, tail := Get(c.at, c.keys[i])[b], Head(c.keys, c.at, i, b), Tail(c.keys, c.at, i, b);
    var items := CategoryLines(c.keys, c.at);
    HeadTail(c.keys, c.at, i, b);
    KeysOk(c);
    AppendItems([""], head + ([x] + tail));
    AppendItems(head, [x] + tail);
    PrintedLength([x] + tail);
    LinesLengthAppend(head, [x] + tail);
    CategoryLinesLength(c.keys, c.at);
    CutAtGood(c, i, b);
    CutPrints(c, i, b);
    CategoryLinesLength(CutAt(c, i, b).keys, CutAt(c, i, b).at);
    LinesLengthAppend(head, [""]);
    assert [""][1..] == [];
    SectionPrintLength(version, date, c);
  }

  lemma SectionPrintLength(version: string, date: string, c: Categories)
    requires VersionOk(version) && BreakFree(date) && c.Valid() && PrintableMap(c.at)
    ensures |Concat(SectionPrint(version, date, c))| == |HeadingLine(version, date)| + 2 + Weight(c.at)
  {
    var items := CategoryLines(c.keys, c.at);
    SectionText(version, date, c);
    JoinLength(SectionLines(version, date, c), '\n');
    LinesLengthAppend([HeadingLine(version, date), ""], items);
    assert [HeadingLine(version, date), ""][1..] == [""] && [""][1..] == [];
    CategoryLinesLength(c.keys, c.at);
  }

  lemma MergedSectionLength(version: string, date: string, e: Categories, fragments: seq<string>)
    ensures |BuildSection(version, date, Merge(e, Aggregate(fragments)))| + 1
         == |HeadingLine(version, date)| + 2 + Weight(e.at) + Extra(e.at.Keys, CombineAll(fragments))
  {
    SectionLength(version, date, Combine(e.at, CombineAll(fragments)));
    CombineExtra(e.at, CombineAll(fragments));
  }

  lemma ConcatThree(a: seq<string>, b: seq<string>, c: seq<string>)
    ensures |Concat(a + b + c)| == |Concat(a)| + |Concat(b)| + |Concat(c)|
  {
    ConcatAppend(a + b, c);
    ConcatAppend(a, b);
  }

  /** The second promotion of a text whose section is cut by a heading bullet. */
  lemma SecondLength(content: string, version: string, date: string, f1: seq<string>, f2: seq<string>)
    requires VersionOk(version) && NoInnerBracket(version) && BreakFree(date) && PreambleOk(content, version)
    requires f1 != [] && f2 != [] && !NoHeadingBullets(CombineAll(f1))
    ensures var once := PromoteText(content, version, date, f1);
            |PromoteText(once, version, date, f2)|
            > |once| + Extra(Promoted(content, version, f1).at.Keys, CombineAll(f2))
  {
    var c := Promoted(content, version, f1);
    var pre, post := LinesBefore(content, version), LinesAfter(content, version);
    var once := PromoteText(content, version, date, f1);
    MergedPrintable(content, version, f1);
    MergedHeadings(Existing(Lines(content), version).at, CombineAll(f1));
    ContentFits(content, version);
    PromotedLines(content, version, date, f1);
    var i, b := FirstHeadingBullet(c);
    PrintedCut(pre, post, version, date, c, i, b);
    CutLength(version, date, c, i, b);
    CutAtGood(c, i, b);
    ConcatLines(once);
    ConcatThree(pre, SectionPrint(version, date, c), post);
    var rest := Printed([Get(c.at, c.keys[i])[b]] + Tail(c.keys, c.at, i, b));
    ConcatAppend(rest, post);
    var d := CutAt(c, i, b);
    SpliceLength(once, version, BuildSection(version, date, Merge(d, Aggregate(f2))));
    MergedSectionLength(version, date, d, f2);
    ExtraMonotone(d.at.Keys, c.at.Keys, CombineAll(f2));
  }

  /** One promotion of everything adds to the text what the second batch adds to the categories. */
  lemma TogetherLength(content: string, version: string, date: string, f1: seq<string>, f2: seq<string>)
    requires VersionOk(version) && BreakFree(date) && f1 != [] && f2 != []
    ensures |PromoteText(content, version, date, f1 + f2)|
         == |PromoteText(content, version, date, f1)| + Extra(Promoted(content, version, f1).at.Keys, CombineAll(f2))
  {
    var e := Existing(Lines(content), version);
    MergeBatches(e, f1, f2);
    SpliceLength(content, version, BuildSection(version, date, Merge(e, Aggregate(f1))));
    SpliceLength(content, version, BuildSection(version, date, Merge(e, Aggregate(f1 + f2))));
    SectionLength(version, date, Combine(e.at, CombineAll(f1)));
    MergedSectionLength(version, date, Merge(e, Aggregate(f1)), f2);
  }

  /** A heading-shaped bullet in the first batch makes two promotions print more than one. */
  lemma HeadingBulletsDiffer(content: string, version: string, date: string, f1: seq<string>, f2: seq<string>)
    requires VersionOk(version) && NoInnerBracket(version) && BreakFree(date) && PreambleOk(content, version)
    requires f1 != [] && f2 != [] && !NoHeadingBullets(CombineAll(f1))
    ensures |PromoteText(PromoteText(content, version, date, f1), version, date, f2)|
            > |PromoteText(content, version, date, f1 + f2)|
  {
    SecondLength(content, version, date, f1, f2);
    TogetherLength(content, version, date, f1, f2);
  }
}
