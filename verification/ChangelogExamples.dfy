/** Concrete changelogs for each way in which two batches can differ from one, and one where they agree by
    accident. */
module ChangelogExamples {
  import opened Text
  import opened ChangelogLines
  import opened ChangelogModel
  import opened ChangelogProofs
  import opened ChangelogPromotion
  import opened ChangelogExact
  import opened ChangelogScript

  /** A fragment of one category with one bullet. */
  function Fragment(k: string, bullet: string): string {
    CATEGORY + k + NEWLINE + bullet
  }

  lemma FragmentLines(k: string, bullet: string)
    requires BreakFree(k) && k != [] && BreakFree(bullet) && bullet != []
    ensures StripBreaks(Lines(Fragment(k, bullet))) == [CATEGORY + k, bullet]
  {
    var first := CATEGORY + k + NEWLINE;
    assert CATEGORY == ['#', '#', '#', ' '] && NEWLINE == ['\n'] && IsBreak('\n');
    assert first[..|first| - 1] == CATEGORY + k;
    var ls := [first, bullet];
    assert bullet[..|bullet| - 1] <= bullet;
    assert AreLines(ls);
    assert ls[1..] == [bullet];
    ConcatOne(bullet);
    LinesConcat(ls);
    BreakFreeIsItem(bullet);
  }

  /** It parses to that category with that bullet. */
  lemma FragmentParses(k: string, bullet: string)
    requires BreakFree(k) && IsName(k) && BreakFree(bullet) && IsBullet(bullet)
    ensures CombineAll([Fragment(k, bullet)]) == map[k := [bullet]]
  {
    OneFragment(k, bullet);
    var f := [Fragment(k, bullet)];
    assert f[..0] == [];
    CombineEmpty(ParseFragment(Fragment(k, bullet)).at);
  }

  lemma OneFragment(k: string, bullet: string)
    requires BreakFree(k) && IsName(k) && BreakFree(bullet) && IsBullet(bullet)
    ensures ParseFragment(Fragment(k, bullet)).at == map[k := [bullet]]
  {
    StepNewline(START);
    FragmentLines(k, bullet);
    ParseAppend(START, [CATEGORY + k], [bullet]);
    assert [CATEGORY + k] + [bullet] == [CATEGORY + k, bullet];
    ParseOne(START, CATEGORY + k);
    NameLine(k);
    ParseBullets(StepLine(START, CATEGORY + k), k, [bullet]);
    assert [] + [bullet] == [bullet];
  }

  lemma PlainName(k: string)
    requires BreakFree(k) && k != []
    ensures IsName(k)
  {
    assert CATEGORY == ['#', '#', '#', ' '];
    assert BreakFree(CATEGORY + k);
    BreakFreeIsItem(CATEGORY + k);
  }

  /** Any heading bullet in the first batch makes a difference, whatever the second batch is. */
  lemma HeadingBulletExample(version: string, date: string, other: string, otherDate: string, f2: seq<string>)
    requires VersionOk(version) && BreakFree(date) && VersionOk(other) && BreakFree(otherDate) && f2 != []
    ensures var f1 := [Fragment("Added", HeadingLine(other, otherDate))];
            PromoteText(PromoteText("", version, date, f1), version, date, f2)
            != PromoteText("", version, date, f1 + f2)
  {
    var h := HeadingLine(other, otherDate);
    HeadingFragment(other, otherDate);
    HeadingIsBullet(other, otherDate);
    LoudMap("Added", h);
    TwoBatchesIff("", version, date, [Fragment("Added", h)], f2);
  }

  lemma LoudMap(k: string, h: string)
    requires IsHeading(h)
    ensures !NoHeadingBullets(map[k := [h]])
  {
    assert [h][0] == h;
    assert !NoHeadings(map[k := [h]][k]);
  }

  /** A version with a closing bracket inside. */
  lemma BracketExample(content: string, date: string, f1: seq<string>, f2: seq<string>)
    requires BreakFree(date) && f1 != [] && f2 != []
    ensures PromoteText(PromoteText(content, "1]2", date, f1), "1]2", date, f2)
            != PromoteText(content, "1]2", date, f1 + f2)
  {
    assert "1]2"[1..][0] == ']';
    TwoBatchesIff(content, "1]2", date, f1, f2);
  }

  lemma OneLine(content: string)
    requires content != [] && BreakFree(content)
    ensures Lines(content) == [content]
  {
    BreakFreeIsItem(content);
    ConcatOne(content);
    LinesConcat([content]);
  }

  lemma PlainPreamble(version: string)
    ensures Lines("x") == ["x"] && !PreambleOk("x", version)
  {
    OneLine("x");
    assert "x"[0] == 'x' && HEADING[0] == '#';
    assert !IsHeading("x");
    BreakFreeIsItem("x");
  }

  /** A preamble of one line without a line break, with an ordinary first batch. */
  lemma PreambleExample(version: string, date: string, f2: seq<string>)
    requires VersionOk(version) && BreakFree(date) && f2 != []
    ensures var f1 := [Fragment("Added", "- b")];
            PromoteText(PromoteText("x", version, date, f1), version, date, f2)
            != PromoteText("x", version, date, f1 + f2)
  {
    var f1 := [Fragment("Added", "- b")];
    PlainName("Added");
    PlainBullet();
    FragmentParses("Added", "- b");
    PlainPreamble(version);
    HeadingIsBullet(version, date);
    forall i: nat ensures !LuckyAt(Aggregate(f1), CombineAll(f2), version, HeadingLine(version, date), i) {
      NotLucky(f1, f2, version, date, i);
    }
    TwoBatchesIff("x", version, date, f1, f2);
  }

  lemma PlainBullet()
    ensures IsBullet("- b") && BreakFree("- b")
  {
    assert "- b"[0] == '-' && CATEGORY[0] == '#';
    BreakFreeIsItem("- b");
  }

  lemma NotLucky(f1: seq<string>, f2: seq<string>, version: string, date: string, i: nat)
    requires VersionOk(version) && BreakFree(date) && CombineAll(f1) == map["Added" := ["- b"]]
    ensures !LuckyAt(Aggregate(f1), CombineAll(f2), version, HeadingLine(version, date), i)
  {
    assert "- b"[0] == '-' && HEADING[0] == '#';
    assert HeadingLine(version, date)[0] == '#';
    OrderedValid(CombineAll(f1));
    if i < |Aggregate(f1).keys| {
      assert Aggregate(f1).keys[i] in Aggregate(f1).keys;
    }
  }

  lemma NothingSorted()
    ensures SortedKeys({}) == []
  {
  }

  lemma StandardPresent(m: map<string, seq<string>>)
    requires "Added" in m && "Changed" !in m && "Removed" !in m
    ensures Present(CATEGORY_ORDER, m) == if "Fixed" in m then ["Added", "Fixed"] else ["Added"]
  {
    var a, b, c := ["Changed", "Fixed", "Removed"], ["Fixed", "Removed"], ["Removed"];
    assert CATEGORY_ORDER[1..] == a && a[1..] == b && b[1..] == c && c[1..] == [];
    assert Present(c, m) == [];
    assert Present(b, m) == if "Fixed" in m then ["Fixed"] else [];
    assert Present(a, m) == Present(b, m);
    assert ["Added"] + ["Fixed"] == ["Added", "Fixed"];
  }

  lemma StandardKeys(m: map<string, seq<string>>)
    requires m.Keys == {"Added"} || m.Keys == {"Added", "Fixed"}
    ensures Ordered(m).keys == if "Fixed" in m then ["Added", "Fixed"] else ["Added"]
  {
    assert "Added"[0] == 'A' && "Changed"[0] == 'C' && "Fixed"[0] == 'F' && "Removed"[0] == 'R';
    assert "Added" in m.Keys && "Changed" !in m.Keys && "Removed" !in m.Keys;
    StandardPresent(m);
    assert CATEGORY_ORDER[0] in Elements(CATEGORY_ORDER) && CATEGORY_ORDER[2] in Elements(CATEGORY_ORDER);
    assert m.Keys - Elements(CATEGORY_ORDER) == {};
    NothingSorted();
  }

  /** The accident: glued to the preamble, the heading is found again as the last bullet of the first batch,
      and the two promotions print exactly what one prints. */
  lemma LuckyExample(version: string, date: string)
    requires VersionOk(version) && NoInnerBracket(version) && BreakFree(date)
    ensures var f1, f2 := [Fragment("Added", HeadingLine(version, date))], [Fragment("Fixed", "- b")];
            PromoteText(PromoteText("x", version, date, f1), version, date, f2)
            == PromoteText("x", version, date, f1 + f2)
  {
    var h := HeadingLine(version, date);
    HeadingFragment(version, date);
    PlainFragment();
    HeadingIsBullet(version, date);
    PlainPreamble(version);
    LuckyHere(version, h);
    GluedPlain(version, date);
    LuckyIsEqual("x", version, date, [Fragment("Added", h)], [Fragment("Fixed", "- b")], 0);
  }

  lemma HeadingFragment(version: string, date: string)
    requires VersionOk(version) && BreakFree(date)
    ensures CombineAll([Fragment("Added", HeadingLine(version, date))]) == map["Added" := [HeadingLine(version, date)]]
  {
    PlainName("Added");
    HeadingBulletParses("Added", version, date);
  }

  lemma HeadingBulletParses(k: string, version: string, date: string)
    requires BreakFree(k) && IsName(k) && VersionOk(version) && BreakFree(date)
    ensures CombineAll([Fragment(k, HeadingLine(version, date))]) == map[k := [HeadingLine(version, date)]]
  {
    HeadingIsBullet(version, date);
    HeadingLineShape(version, date);
    FragmentParses(k, HeadingLine(version, date));
  }

  lemma PlainFragment()
    ensures CombineAll([Fragment("Fixed", "- b")]) == map["Fixed" := ["- b"]]
  {
    PlainName("Fixed");
    PlainBullet();
    FragmentParses("Fixed", "- b");
  }

  lemma GluedPlain(version: string, date: string)
    ensures Lines("x") == ["x"] && HeadingOf(Glued("x", version, date)) == None
  {
    PlainPreamble(version);
    assert Glued("x", version, date)[0] == 'x' && HEADING[0] == '#';
  }

  lemma LuckyHere(version: string, h: string)
    ensures LuckyAt(Ordered(map["Added" := [h]]), map["Fixed" := ["- b"]], version, h, 0)
  {
    var m, f2 := map["Added" := [h]], map["Fixed" := ["- b"]];
    assert "Added"[0] == 'A' && "Fixed"[0] == 'F';
    TwoKeys(m, f2);
    LuckyFirst(Ordered(m), f2, version, h, "Added");
  }

  lemma TwoKeys(m: map<string, seq<string>>, f2: map<string, seq<string>>)
    requires m.Keys == {"Added"} && f2.Keys == {"Fixed"}
    ensures Ordered(m).keys == ["Added"] && Ordered(Combine(m, f2)).keys == ["Added", "Fixed"]
  {
    assert "Added"[0] == 'A' && "Fixed"[0] == 'F';
    assert "Fixed" !in m.Keys;
    StandardKeys(m);
    assert Combine(m, f2).Keys == {"Added", "Fixed"};
    StandardKeys(Combine(m, f2));
  }

  lemma LuckyFirst(c: Categories, f2: map<string, seq<string>>, version: string, h: string, k: string)
    requires c.keys == [k] && Get(c.at, k) == [h] && k !in f2
    requires |Ordered(Combine(c.at, f2)).keys| > 0 && Ordered(Combine(c.at, f2)).keys[0] == k
    ensures LuckyAt(c, f2, version, h, 0)
  {
    assert c.keys[1..] == [] && c.keys[..1] == [k];
    assert Ordered(Combine(c.at, f2)).keys[..1] == [k];
    assert [h][..0] == [];
  }

  /** Two directories promoted one after the other, on one day, against their union promoted once. */
  lemma TwoNamedBatchesIff(content: string, version: string, date: string, d1: map<string, string>,
                           d2: map<string, string>)
    requires VersionOk(version) && BreakFree(date)
    requires Collected(d1) != [] && Collected(d2) != []
    requires forall x, y :: x in FragmentNames(d1) && y in FragmentNames(d2) ==> Less(x, y)
    ensures PromoteText(PromoteText(content, version, date, Collected(d1)), version, date, Collected(d2))
         == PromoteText(content, version, date, Collected(d1 + d2))
       <==> && NoInnerBracket(version)
            && if PreambleOk(content, version) then NoHeadingBullets(CombineAll(Collected(d1)))
               else Lucky(content, version, date, Collected(d1), Collected(d2))
  {
    CollectedBatches(d1, d2);
    TwoBatchesIff(content, version, date, Collected(d1), Collected(d2));
  }
}
