/** Promotion of fragment batches: `promote_mode` of scripts/promote_changelogs.py. */
module ChangelogPromotion {
  import opened Text
  import opened ChangelogLines
  import opened ChangelogModel
  import opened ChangelogProofs

  // ---------------------------------------------------------------------------
  // Merging
  // ---------------------------------------------------------------------------

  lemma CombineAssociative(a: map<string, seq<string>>, b: map<string, seq<string>>, c: map<string, seq<string>>)
    ensures Combine(Combine(a, b), c) == Combine(a, Combine(b, c))
  {
    var l, r := Combine(Combine(a, b), c), Combine(a, Combine(b, c));
    forall k ensures Get(l, k) == Get(r, k) {
      GetCombine(a, b, k);
      GetCombine(b, c, k);
      GetCombine(Combine(a, b), c, k);
      GetCombine(a, Combine(b, c), k);
      AppendAssociative(Get(a, k), Get(b, k), Get(c, k));
    }
    SameGet(l, r);
  }

  lemma SameGet(l: map<string, seq<string>>, r: map<string, seq<string>>)
    requires l.Keys == r.Keys && forall k :: Get(l, k) == Get(r, k)
    ensures l == r
  {
    assert forall k :: k in l ==> l[k] == Get(l, k) == Get(r, k) == r[k];
  }

  lemma GetCombine(a: map<string, seq<string>>, b: map<string, seq<string>>, k: string)
    ensures Get(Combine(a, b), k) == Get(a, k) + Get(b, k)
  {
  }

  lemma CombineEmpty(m: map<string, seq<string>>)
    ensures Combine(map[], m) == m && Combine(m, map[]) == m
  {
    assert forall k :: [] + Get(m, k) == Get(m, k) == Get(m, k) + [];
  }

  /** Aggregating in one go or in two parts gives the same bullets in the same order. */
  lemma {:induction false} CombineAllAppend(f1: seq<string>, f2: seq<string>)
    ensures CombineAll(f1 + f2) == Combine(CombineAll(f1), CombineAll(f2))
    decreases |f2|
  {
    if f2 == [] {
      assert f1 + f2 == f1;
      CombineEmpty(CombineAll(f1));
    } else {
      var t, x := f2[..|f2| - 1], f2[|f2| - 1];
      SplitLast(f2);
      CombineAllAppend(f1, t);
      CombineAllNext(f1, t, x);
    }
  }

  lemma CombineAllNext(f1: seq<string>, t: seq<string>, x: string)
    requires CombineAll(f1 + t) == Combine(CombineAll(f1), CombineAll(t))
    ensures CombineAll(f1 + (t + [x])) == Combine(CombineAll(f1), CombineAll(t + [x]))
  {
    AppendAssociative(f1, t, [x]);
    CombineAllLast(f1 + t, x);
    CombineAllLast(t, x);
    CombineThird(CombineAll(f1), CombineAll(t), ParseFragment(x).at, CombineAll(f1 + t), CombineAll(t + [x]));
  }

  lemma CombineThird(a: map<string, seq<string>>, b: map<string, seq<string>>, c: map<string, seq<string>>,
                     ab: map<string, seq<string>>, bc: map<string, seq<string>>)
    requires ab == Combine(a, b) && bc == Combine(b, c)
    ensures Combine(ab, c) == Combine(a, bc)
  {
    CombineAssociative(a, b, c);
  }

  lemma CombineAllLast(f: seq<string>, x: string)
    ensures CombineAll(f + [x]) == Combine(CombineAll(f), ParseFragment(x).at)
  {
    assert (f + [x])[..|f + [x]| - 1] == f;
  }

  /** Merging batch after batch is merging them together. */
  lemma MergeBatches(e: Categories, f1: seq<string>, f2: seq<string>)
    ensures Merge(Merge(e, Aggregate(f1)), Aggregate(f2)) == Merge(e, Aggregate(f1 + f2))
  {
    CombineAllAppend(f1, f2);
    CombineAssociative(e.at, CombineAll(f1), CombineAll(f2));
  }

  lemma {:induction false} PresentMembers(order: seq<string>, m: map<string, seq<string>>)
    requires forall i, j :: 0 <= i < j < |order| ==> order[i] != order[j]
    ensures forall k :: k in Present(order, m) <==> k in order && k in m
    ensures forall i, j :: 0 <= i < j < |Present(order, m)| ==> Present(order, m)[i] != Present(order, m)[j]
  {
    if order != [] {
      var h, t := (if order[0] in m then [order[0]] else []), Present(order[1..], m);
      PresentMembers(order[1..], m);
      assert order == [order[0]] + order[1..];
      assert order[0] !in order[1..];
      forall i, j | 0 <= i < j < |h + t| ensures (h + t)[i] != (h + t)[j] {
        if i < |h| {
          assert (h + t)[j] == t[j - |h|];
          assert t[j - |h|] in t;
        }
      }
    }
  }

  lemma StandardDistinct()
    ensures forall i, j :: 0 <= i < j < |CATEGORY_ORDER| ==> CATEGORY_ORDER[i] != CATEGORY_ORDER[j]
  {
    assert "Added"[0] == 'A' && "Changed"[0] == 'C' && "Fixed"[0] == 'F' && "Removed"[0] == 'R';
  }

  /** The ordering of a merge result lists every category once. */
  lemma OrderedValid(m: map<string, seq<string>>)
    ensures Ordered(m).Valid()
  {
    StandardDistinct();
    var a, b := Present(CATEGORY_ORDER, m), SortedKeys(m.Keys - Elements(CATEGORY_ORDER));
    PresentMembers(CATEGORY_ORDER, m);
    SortedMembers(m.Keys - Elements(CATEGORY_ORDER));
    DistinctAppend(a, b);
    assert forall k :: k in a + b <==> k in a || k in b;
    assert forall k :: k in CATEGORY_ORDER <==> k in Elements(CATEGORY_ORDER);
  }

  /** The place of a category in the standard order; all other names come after it. */
  ghost function Rank(k: string): nat {
    if k == "Added" then 0
    else if k == "Changed" then 1
    else if k == "Fixed" then 2
    else if k == "Removed" then 3
    else 4
  }

  /** In a printed section "Added" comes before "Changed", "Changed" before "Fixed", "Fixed" before "Removed",
      and these before all other names, which are sorted. */
  lemma StandardOrder(m: map<string, seq<string>>)
    ensures Elements(Ordered(m).keys) == m.Keys
    ensures var keys := Ordered(m).keys;
            forall i, j :: 0 <= i < j < |keys| ==>
              Rank(keys[i]) < Rank(keys[j]) || (Rank(keys[i]) == Rank(keys[j]) == 4 && Less(keys[i], keys[j]))
  {
    var a, b := Present(CATEGORY_ORDER, m), SortedKeys(m.Keys - Elements(CATEGORY_ORDER));
    OrderedValid(m);
    StandardRanks(m);
    OtherRanks(m.Keys - Elements(CATEGORY_ORDER));
    RanksAppend(a, b);
    assert forall k :: k in Elements(Ordered(m).keys) <==> k in Ordered(m).keys;
  }

  lemma StandardRanks(m: map<string, seq<string>>)
    ensures Ranked(Present(CATEGORY_ORDER, m))
    ensures forall i :: 0 <= i < |Present(CATEGORY_ORDER, m)| ==> Rank(Present(CATEGORY_ORDER, m)[i]) < 4
  {
    OrderRanks();
    PresentRanks(CATEGORY_ORDER, m);
    forall i | 0 <= i < |Present(CATEGORY_ORDER, m)| ensures Rank(Present(CATEGORY_ORDER, m)[i]) < 4 {
      RankIff(Present(CATEGORY_ORDER, m)[i]);
    }
  }

  lemma OtherRanks(s: set<string>)
    requires s !! Elements(CATEGORY_ORDER)
    ensures forall i :: 0 <= i < |SortedKeys(s)| ==> Rank(SortedKeys(s)[i]) == 4
  {
    forall i | 0 <= i < |SortedKeys(s)| ensures Rank(SortedKeys(s)[i]) == 4 {
      assert SortedKeys(s)[i] in Elements(SortedKeys(s));
      RankIff(SortedKeys(s)[i]);
    }
  }

  lemma RanksAppend(a: seq<string>, b: seq<string>)
    requires Ranked(a) && StrictlySorted(b)
    requires forall i :: 0 <= i < |a| ==> Rank(a[i]) < 4
    requires forall i :: 0 <= i < |b| ==> Rank(b[i]) == 4
    ensures forall i, j :: 0 <= i < j < |a + b| ==>
              Rank((a + b)[i]) < Rank((a + b)[j])
              || (Rank((a + b)[i]) == Rank((a + b)[j]) == 4 && Less((a + b)[i], (a + b)[j]))
  {
  }

  ghost predicate Ranked(order: seq<string>) {
    forall i, j :: 0 <= i < j < |order| ==> Rank(order[i]) < Rank(order[j])
  }

  lemma OrderRanks()
    ensures Ranked(CATEGORY_ORDER)
  {
    assert CATEGORY_ORDER[0] == "Added" && CATEGORY_ORDER[1] == "Changed";
    assert CATEGORY_ORDER[2] == "Fixed" && CATEGORY_ORDER[3] == "Removed";
    assert "Added"[0] == 'A' && "Changed"[0] == 'C' && "Fixed"[0] == 'F' && "Removed"[0] == 'R';
  }

  lemma RankIff(k: string)
    ensures Rank(k) < 4 <==> k in CATEGORY_ORDER
  {
    assert CATEGORY_ORDER[0] == "Added" && CATEGORY_ORDER[1] == "Changed";
    assert CATEGORY_ORDER[2] == "Fixed" && CATEGORY_ORDER[3] == "Removed";
  }

  ghost predicate Among(a: seq<string>, b: seq<string>) {
    forall i :: 0 <= i < |a| ==> a[i] in b
  }

  lemma {:induction false} PresentRanks(order: seq<string>, m: map<string, seq<string>>)
    requires Ranked(order)
    ensures Ranked(Present(order, m)) && Among(Present(order, m), order)
  {
    if order != [] {
      var t := order[1..];
      assert order == [order[0]] + t;
      PresentRanks(t, m);
      FirstRank(order[0], t, Present(t, m), order[0] in m);
    }
  }

  lemma FirstRank(x: string, t: seq<string>, some: seq<string>, kept: bool)
    requires Ranked([x] + t) && Ranked(some) && Among(some, t)
    ensures Ranked((if kept then [x] else []) + some) && Among((if kept then [x] else []) + some, [x] + t)
  {
    forall i | 0 <= i < |some| ensures Rank(x) < Rank(some[i]) {
      var j :| 0 <= j < |t| && t[j] == some[i];
      assert ([x] + t)[0] == x && ([x] + t)[j + 1] == t[j];
    }
  }

  lemma SortedMembers(s: set<string>)
    ensures forall k :: k in SortedKeys(s) <==> k in s
    ensures forall i, j :: 0 <= i < j < |SortedKeys(s)| ==> SortedKeys(s)[i] != SortedKeys(s)[j]
  {
    var r := SortedKeys(s);
    assert forall k :: k in r <==> k in Elements(r);
    forall i, j | 0 <= i < j < |r| ensures r[i] != r[j] {
      LessIrreflexive(r[i]);
    }
  }

  lemma DistinctAppend(a: seq<string>, b: seq<string>)
    requires forall i, j :: 0 <= i < j < |a| ==> a[i] != a[j]
    requires forall i, j :: 0 <= i < j < |b| ==> b[i] != b[j]
    requires forall k :: k in a ==> k !in b
    ensures forall i, j :: 0 <= i < j < |a + b| ==> (a + b)[i] != (a + b)[j]
  {
    forall i, j | 0 <= i < j < |a + b| ensures (a + b)[i] != (a + b)[j] {
      if i < |a| <= j {
        assert a[i] in a && b[j - |a|] in b;
      }
    }
  }

  // ---------------------------------------------------------------------------
  // What parsing yields can be printed
  // ---------------------------------------------------------------------------

  ghost predicate PrintableMap(m: map<string, seq<string>>) {
    forall k :: k in m ==> IsName(k) && AreBullets(m[k])
  }

  /** A line as the loops see it: at most one newline, at the end. */
  ghost predicate LineLike(l: string) {
    IsItem(DropNewline(l))
  }

  lemma LineIsLineLike(l: string)
    requires IsLine(l)
    ensures LineLike(l) && LineLike(DropBreak(l)) && DropNewline(DropBreak(l)) == DropBreak(l)
  {
    var b := l[..|l| - 1];
    assert forall i :: 0 <= i < |b| ==> b[i] == l[i] && !IsBreak(l[i]);
    assert IsBreak('\n');
    if b != [] {
      assert forall i :: 0 <= i < |b| - 1 ==> b[..|b| - 1][i] == b[i];
    }
  }

  lemma LineLikeForms(l: string)
    requires LineLike(l)
    ensures CategoryOf(DropNewline(l)) == CategoryOf(l) && (IsBlank(DropNewline(l)) <==> IsBlank(l))
    ensures HeadingOf(DropNewline(l)) == HeadingOf(l)
  {
    var x := DropNewline(l);
    if x != l {
      assert l == x + NEWLINE;
      PatternsIgnoreNewline(x);
    }
  }

  lemma NameOfLine(l: string)
    requires LineLike(l) && CategoryOf(l).Some?
    ensures IsName(CategoryOf(l).value)
  {
    LineLikeForms(l);
    var x := DropNewline(l);
    var rest := x[|CATEGORY|..];
    assert '\n' !in rest;
    assert x == CATEGORY + rest;
  }

  lemma StepPrintable(p: Parser, l: string)
    requires PrintableMap(p.categories.at) && LineLike(l)
    requires p.current.Some? ==> p.current.value in p.categories.at
    ensures var q := StepLine(p, l);
            PrintableMap(q.categories.at) && (q.current.Some? ==> q.current.value in q.categories.at)
  {
    LineLikeForms(l);
    if CategoryOf(l).Some? {
      NameOfLine(l);
    } else if p.current.Some? && !IsBlank(l) {
      BulletPrintable(p.categories.at, p.current.value, DropNewline(l));
    }
  }

  lemma BulletPrintable(m: map<string, seq<string>>, k: string, b: string)
    requires PrintableMap(m) && k in m && IsBullet(b)
    ensures PrintableMap(m[k := Get(m, k) + [b]])
  {
  }

  lemma {:induction false} ParsePrintable(p: Parser, lines: seq<string>)
    requires PrintableMap(p.categories.at)
    requires p.current.Some? ==> p.current.value in p.categories.at
    requires forall i :: 0 <= i < |lines| ==> LineLike(lines[i])
    ensures PrintableMap(ParseLines(p, lines).categories.at)
    decreases |lines|
  {
    if lines != [] {
      StepPrintable(p, lines[0]);
      ParsePrintable(StepLine(p, lines[0]), lines[1..]);
    }
  }

  lemma {:induction false} ParseNoHeadings(p: Parser, lines: seq<string>)
    requires NoHeadingBullets(p.categories.at) && NoHeadings(lines)
    requires forall i :: 0 <= i < |lines| ==> LineLike(lines[i])
    ensures NoHeadingBullets(ParseLines(p, lines).categories.at)
    decreases |lines|
  {
    if lines != [] {
      LineLikeForms(lines[0]);
      ParseNoHeadings(StepLine(p, lines[0]), lines[1..]);
    }
  }

  lemma ExistingPrintable(content: string, version: string)
    ensures PrintableMap(Existing(Lines(content), version).at)
    ensures NoHeadingBullets(Existing(Lines(content), version).at)
  {
    var lines := Lines(content);
    LinesShape(content);
    forall i | 0 <= i < |lines| ensures LineLike(lines[i]) {
      LineIsLineLike(lines[i]);
    }
    ExistingFrom(lines, version);
  }

  lemma ExistingFrom(lines: seq<string>, version: string)
    requires forall i :: 0 <= i < |lines| ==> LineLike(lines[i])
    ensures PrintableMap(Existing(lines, version).at) && NoHeadingBullets(Existing(lines, version).at)
  {
    if HasVersion(lines, version) {
      var body := lines[FindVersion(lines, version, 0) + 1..SectionEnd(lines, version)];
      ParsePrintable(START, body);
      ParseNoHeadings(START, body);
    }
  }

  lemma FragmentPrintable(text: string)
    ensures PrintableMap(ParseFragment(text).at)
  {
    LinesShape(text);
    var lines := Lines(text);
    forall i | 0 <= i < |lines| ensures LineLike(StripBreaks(lines)[i]) {
      LineIsLineLike(lines[i]);
    }
    ParsePrintable(START, StripBreaks(lines));
  }

  lemma CombinePrintable(a: map<string, seq<string>>, b: map<string, seq<string>>)
    requires PrintableMap(a) && PrintableMap(b)
    ensures PrintableMap(Combine(a, b))
  {
    forall k | k in Combine(a, b) ensures IsName(k) && AreBullets(Combine(a, b)[k]) {
      assert AreBullets(Get(a, k)) && AreBullets(Get(b, k));
    }
  }

  lemma CombineNoHeadings(a: map<string, seq<string>>, b: map<string, seq<string>>)
    requires NoHeadingBullets(a) && NoHeadingBullets(b)
    ensures NoHeadingBullets(Combine(a, b))
  {
    forall k | k in Combine(a, b) ensures NoHeadings(Combine(a, b)[k]) {
      assert NoHeadings(Get(a, k)) && NoHeadings(Get(b, k));
    }
  }

  lemma {:induction false} CombineAllPrintable(fragments: seq<string>)
    ensures PrintableMap(CombineAll(fragments))
  {
    if fragments != [] {
      var t, x := fragments[..|fragments| - 1], fragments[|fragments| - 1];
      CombineAllPrintable(t);
      FragmentPrintable(x);
      CombinePrintable(CombineAll(t), ParseFragment(x).at);
    }
  }

  // ---------------------------------------------------------------------------
  // A section in its place
  // ---------------------------------------------------------------------------

  ghost predicate VersionOk(version: string) {
    version != [] && BreakFree(version)
  }

  /** A closing bracket after the first character hides the rest of the version from the pattern. */
  ghost predicate NoInnerBracket(version: string) {
    version != [] && ']' !in version[1..]
  }

  lemma BreakFreeIsItem(s: string)
    requires BreakFree(s)
    ensures IsItem(s) && !EndsWithBreak(s)
  {
    assert IsBreak('\n');
    if s != [] {
      assert forall i :: 0 <= i < |s| - 1 ==> s[..|s| - 1][i] == s[i];
    }
  }

  lemma HeadingLineShape(version: string, date: string)
    requires VersionOk(version) && BreakFree(date)
    ensures BreakFree(HeadingLine(version, date)) && IsItem(HeadingLine(version, date))
    ensures ItemLines(HeadingLine(version, date)) == [HeadingLine(version, date) + NEWLINE]
    ensures IsHeading(HeadingLine(version, date) + NEWLINE)
    ensures HeadingOf(HeadingLine(version, date) + NEWLINE) == Some(version) <==> NoInnerBracket(version)
  {
    var l := HeadingLine(version, date);
    HeadingLineBreakFree(version, date);
    BreakFreeIsItem(l);
    BreakFreeIsItem(version);
    PatternsIgnoreNewline(l);
    PrintedHeading(version, " - " + date);
  }

  lemma HeadingLineBreakFree(version: string, date: string)
    requires BreakFree(version) && BreakFree(date)
    ensures BreakFree(HeadingLine(version, date))
  {
    assert HEADING == ['#', '#', ' ', '['] && "]" == [']'] && " - " == [' ', '-', ' '];
    assert BreakFree(HEADING + version);
    assert BreakFree(HEADING + version + "]");
    assert BreakFree(" - " + date);
  }

  /** The lines of a printed section: the heading, then lines that are no headings. */
  function SectionBody(c: Categories): seq<string> {
    Printed([""] + CategoryLines(c.keys, c.at))
  }

  function SectionPrint(version: string, date: string, c: Categories): seq<string> {
    [HeadingLine(version, date) + NEWLINE] + SectionBody(c)
  }

  lemma KeysOk(c: Categories)
    requires c.Valid() && PrintableMap(c.at)
    ensures AreItems([""] + CategoryLines(c.keys, c.at))
    ensures NoHeadingBullets(c.at) ==> NoHeadings([""] + CategoryLines(c.keys, c.at))
  {
    CategoryLinesShape(c.keys, c.at);
    StepNewline(START);
    if NoHeadingBullets(c.at) {
      CategoryLinesNoHeading(c.keys, c.at);
    }
  }

  lemma TwoHeads(a: string, b: string, rest: seq<string>)
    ensures [a, b] + rest == [a] + ([b] + rest)
    ensures ([a] + ([b] + rest))[1..] == [b] + rest
  {
  }

  lemma SectionText(version: string, date: string, c: Categories)
    requires VersionOk(version) && BreakFree(date) && c.Valid() && PrintableMap(c.at)
    ensures BuildSection(version, date, c) + NEWLINE == Concat(SectionPrint(version, date, c))
    ensures AreLines(SectionPrint(version, date, c))
    ensures EndsWithBreak(SectionPrint(version, date, c)[|SectionPrint(version, date, c)| - 1])
  {
    TwoHeads(HeadingLine(version, date), "", CategoryLines(c.keys, c.at));
    SectionItems(version, date, c);
    ItemsText([HeadingLine(version, date)] + ([""] + CategoryLines(c.keys, c.at)), SectionPrint(version, date, c));
  }

  lemma SectionItems(version: string, date: string, c: Categories)
    requires VersionOk(version) && BreakFree(date) && c.Valid() && PrintableMap(c.at)
    ensures var items := [HeadingLine(version, date)] + ([""] + CategoryLines(c.keys, c.at));
            AreItems(items) && Printed(items) == SectionPrint(version, date, c)
  {
    KeysOk(c);
    HeadingLineShape(version, date);
    TwoHeads(HeadingLine(version, date), "", CategoryLines(c.keys, c.at));
  }

  lemma ItemsText(items: seq<string>, printed: seq<string>)
    requires items != [] && AreItems(items) && printed == Printed(items)
    ensures Join(items, '\n') + NEWLINE == Concat(printed) && AreLines(printed)
    ensures printed != [] && EndsWithBreak(printed[|printed| - 1])
  {
    JoinPrinted(items);
    PrintedShape(items);
  }

  lemma BodyParses(c: Categories)
    requires c.Valid() && PrintableMap(c.at)
    ensures ParseLines(START, SectionBody(c)).categories == c
  {
    var items := CategoryLines(c.keys, c.at);
    KeysOk(c);
    ParsePrinted(START, [""] + items);
    ParseAppend(START, [""], items);
    ParseOne(START, "");
    StepNewline(START);
    CategoriesRoundTrip(c);
  }

  /** Where a section may stand: after lines that end properly, before a heading or the end. */
  ghost predicate Fits(pre: seq<string>, post: seq<string>, version: string) {
    && AreLines(pre) && AreLines(post)
    && (pre != [] ==> EndsWithBreak(pre[|pre| - 1]))
    && (forall i :: 0 <= i < |pre| ==> HeadingOf(pre[i]) != Some(version))
    && (post != [] ==> IsHeading(post[0]))
  }

  lemma LinesInPlace(pre: seq<string>, body: seq<string>, post: seq<string>)
    requires AreLines(pre) && AreLines(body) && AreLines(post)
    requires pre != [] ==> EndsWithBreak(pre[|pre| - 1])
    requires body != [] && EndsWithBreak(body[|body| - 1])
    ensures Lines(Concat(pre) + Concat(body) + Concat(post)) == pre + body + post
  {
    PiecesAreLines(pre, body, post);
    ConcatAppend(pre, body);
    ConcatAppend(pre + body, post);
    LinesConcat(pre + body + post);
  }

  lemma PiecesAreLines(pre: seq<string>, body: seq<string>, post: seq<string>)
    requires AreLines(pre) && AreLines(body) && AreLines(post)
    requires pre != [] ==> EndsWithBreak(pre[|pre| - 1])
    requires body != [] && EndsWithBreak(body[|body| - 1])
    ensures AreLines(pre + body + post)
  {
    AreLinesAppend(pre, body);
    assert (pre + body)[|pre + body| - 1] == body[|body| - 1];
    AreLinesAppend(pre + body, post);
  }

  /** A section between `pre` and `post`, given by its heading and its other lines, is found again. */
  lemma FoundInPlace(pre: seq<string>, h: string, body: seq<string>, post: seq<string>, version: string)
    requires Fits(pre, post, version) && HeadingOf(h) == Some(version) && NoHeadings(body)
    ensures var all := pre + ([h] + body) + post;
            && HasVersion(all, version)
            && FindVersion(all, version, 0) == |pre|
            && SectionEnd(all, version) == |pre| + 1 + |body|
            && all[|pre| + 1..|pre| + 1 + |body|] == body
  {
    var n := |pre| + 1 + |body|;
    SectionParts(pre, h, body, post);
    StartInPlace(pre, [h] + (body + post), version);
    EndInPlace(pre + [h], body, post);
  }

  lemma SectionParts(pre: seq<string>, h: string, body: seq<string>, post: seq<string>)
    ensures var all := pre + ([h] + body) + post;
            && all == pre + ([h] + (body + post)) && all == (pre + [h]) + body + post
            && all[|pre| + 1..|pre| + 1 + |body|] == body
  {
  }

  lemma StartInPlace(pre: seq<string>, rest: seq<string>, version: string)
    requires rest != [] && HeadingOf(rest[0]) == Some(version)
    requires forall i :: 0 <= i < |pre| ==> HeadingOf(pre[i]) != Some(version)
    ensures FindVersion(pre + rest, version, 0) == |pre|
  {
    var all := pre + rest;
    assert all[|pre|] == rest[0];
    assert forall i :: 0 <= i < |pre| ==> all[i] == pre[i];
  }

  lemma EndInPlace(a: seq<string>, body: seq<string>, post: seq<string>)
    requires NoHeadings(body) && (post != [] ==> IsHeading(post[0]))
    ensures NextHeading(a + body + post, |a|) == |a| + |body|
  {
    var all, n := a + body + post, |a| + |body|;
    assert forall i :: |a| <= i < n ==> all[i] == body[i - |a|];
    assert n < |all| ==> all[n] == post[0];
  }

  /** A printed section is found again where it was put, with exactly its lines and its content. */
  lemma SectionFound(pre: seq<string>, post: seq<string>, version: string, date: string, c: Categories)
    requires Fits(pre, post, version) && VersionOk(version) && NoInnerBracket(version) && BreakFree(date)
    requires c.Valid() && PrintableMap(c.at) && NoHeadingBullets(c.at)
    ensures var all := pre + SectionPrint(version, date, c) + post;
            && HasVersion(all, version)
            && SectionStart(all, version) == |pre|
            && SectionEnd(all, version) == |pre| + |SectionPrint(version, date, c)|
            && Existing(all, version) == c
  {
    HeadingLineShape(version, date);
    BodyHasNoHeading(c);
    FoundInPlace(pre, HeadingLine(version, date) + NEWLINE, SectionBody(c), post, version);
    BodyParses(c);
  }

  lemma BodyHasNoHeading(c: Categories)
    requires c.Valid() && PrintableMap(c.at) && NoHeadingBullets(c.at)
    ensures NoHeadings(SectionBody(c))
  {
    KeysOk(c);
    NoHeadingPrinted([""] + CategoryLines(c.keys, c.at));
  }

  // ---------------------------------------------------------------------------
  // Promotion
  // ---------------------------------------------------------------------------

  /** The section of the version is there, or some heading is, or the text ends with a line break. */
  ghost predicate PreambleOk(content: string, version: string) {
    SectionStart(Lines(content), version) < |Lines(content)| || content == [] || EndsWithBreak(content)
  }

  lemma {:induction false} LastLineBreak(s: string)
    requires s != []
    ensures Lines(s) != [] && (EndsWithBreak(Lines(s)[|Lines(s)| - 1]) <==> EndsWithBreak(s))
    decreases |s|
  {
    var n := FirstLine(s);
    if n == |s| {
      assert s[n..] == [] && s[..n] == s;
    } else {
      LastLineBreak(s[n..]);
    }
  }

  lemma ContentFits(content: string, version: string)
    requires PreambleOk(content, version)
    ensures var lines := Lines(content);
            Fits(lines[..SectionStart(lines, version)], lines[SectionEnd(lines, version)..], version)
  {
    var lines := Lines(content);
    LinesShape(content);
    var i, j := SectionStart(lines, version), SectionEnd(lines, version);
    NoVersionBefore(lines, version);
    if i == |lines| && content != [] {
      LastLineBreak(content);
    }
    CutLines(lines, i, j);
  }

  lemma CutLines(lines: seq<string>, i: nat, j: nat)
    requires AreLines(lines) && i <= j <= |lines|
    ensures AreLines(lines[..i]) && AreLines(lines[j..])
    ensures 0 < i < |lines| ==> EndsWithBreak(lines[..i][i - 1])
    ensures j < |lines| ==> lines[j..][0] == lines[j]
  {
  }

  lemma NoVersionBefore(lines: seq<string>, version: string)
    ensures forall k :: 0 <= k < SectionStart(lines, version) ==> HeadingOf(lines[k]) != Some(version)
    ensures SectionEnd(lines, version) < |lines| ==> IsHeading(lines[SectionEnd(lines, version)])
  {
  }

  lemma MergedPrintable(content: string, version: string, fragments: seq<string>)
    ensures var c := Merge(Existing(Lines(content), version), Aggregate(fragments));
            && c.Valid() && PrintableMap(c.at)
            && (NoHeadingBullets(CombineAll(fragments)) ==> NoHeadingBullets(c.at))
  {
    var e, m := Existing(Lines(content), version).at, CombineAll(fragments);
    ExistingPrintable(content, version);
    CombineAllPrintable(fragments);
    OrderedValid(Combine(e, m));
    CombinePrintable(e, m);
    if NoHeadingBullets(m) {
      CombineNoHeadings(e, m);
    }
  }

  /** The categories a promotion prints. */
  ghost function Promoted(content: string, version: string, fragments: seq<string>): Categories {
    Merge(Existing(Lines(content), version), Aggregate(fragments))
  }

  /** The lines before and after the section that a promotion writes. */
  function LinesBefore(content: string, version: string): seq<string> {
    Lines(content)[..SectionStart(Lines(content), version)]
  }

  function LinesAfter(content: string, version: string): seq<string> {
    Lines(content)[SectionEnd(Lines(content), version)..]
  }

  lemma PromotedLines(content: string, version: string, date: string, fragments: seq<string>)
    requires VersionOk(version) && BreakFree(date) && PreambleOk(content, version) && fragments != []
    ensures Lines(PromoteText(content, version, date, fragments))
            == LinesBefore(content, version)
               + SectionPrint(version, date, Promoted(content, version, fragments))
               + LinesAfter(content, version)
  {
    var c := Promoted(content, version, fragments);
    ContentFits(content, version);
    MergedPrintable(content, version, fragments);
    SectionText(version, date, c);
    LinesInPlace(LinesBefore(content, version), SectionPrint(version, date, c), LinesAfter(content, version));
  }

  lemma Parts(a: seq<string>, b: seq<string>, c: seq<string>)
    ensures (a + b + c)[..|a|] == a && (a + b + c)[|a|..|a| + |b|] == b && (a + b + c)[|a| + |b|..] == c
  {
  }

  /** After a promotion, parsing the changelog gives exactly the merged categories, its offsets bound
      exactly the new section, and all text before and after it is unchanged. */
  lemma PromotedSection(content: string, version: string, date: string, fragments: seq<string>)
    requires VersionOk(version) && NoInnerBracket(version) && BreakFree(date) && PreambleOk(content, version)
    requires fragments != [] && NoHeadingBullets(CombineAll(fragments))
    ensures var text := PromoteText(content, version, date, fragments);
            var c := Promoted(content, version, fragments);
            && HasVersion(Lines(text), version)
            && Existing(Lines(text), version) == c
            && LinesBefore(text, version) == LinesBefore(content, version)
            && LinesAfter(text, version) == LinesAfter(content, version)
            && Lines(text)[SectionStart(Lines(text), version)..SectionEnd(Lines(text), version)]
               == SectionPrint(version, date, c)
  {
    var c := Promoted(content, version, fragments);
    PromotedLines(content, version, date, fragments);
    ContentFits(content, version);
    MergedPrintable(content, version, fragments);
    SectionBetween(Lines(PromoteText(content, version, date, fragments)), LinesBefore(content, version),
                   LinesAfter(content, version), version, date, c);
  }

  lemma SectionBetween(all: seq<string>, pre: seq<string>, post: seq<string>, version: string, date: string,
                       c: Categories)
    requires Fits(pre, post, version) && VersionOk(version) && NoInnerBracket(version) && BreakFree(date)
    requires c.Valid() && PrintableMap(c.at) && NoHeadingBullets(c.at)
    requires all == pre + SectionPrint(version, date, c) + post
    ensures HasVersion(all, version) && Existing(all, version) == c
    ensures all[..SectionStart(all, version)] == pre && all[SectionEnd(all, version)..] == post
    ensures all[SectionStart(all, version)..SectionEnd(all, version)] == SectionPrint(version, date, c)
  {
    SectionFound(pre, post, version, date, c);
    Parts(pre, SectionPrint(version, date, c), post);
  }

  /** Promoting two batches one after the other, on one day, gives exactly the text of promoting them
      together. */
  lemma TwoBatches(content: string, version: string, date: string, f1: seq<string>, f2: seq<string>)
    requires VersionOk(version) && NoInnerBracket(version) && BreakFree(date) && PreambleOk(content, version)
    requires NoHeadingBullets(CombineAll(f1))
    ensures PromoteText(PromoteText(content, version, date, f1), version, date, f2)
            == PromoteText(content, version, date, f1 + f2)
  {
    if f1 == [] {
      assert f1 + f2 == f2;
    } else if f2 == [] {
      assert f1 + f2 == f1;
    } else {
      PromotedSection(content, version, date, f1);
      MergeBatches(Existing(Lines(content), version), f1, f2);
    }
  }
}
