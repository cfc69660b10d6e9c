/** Exactly when promoting two batches one after the other is promoting them together. */
module ChangelogExact {
  import opened Text
  import opened OrderedDict
  import opened ChangelogLines
  import opened ChangelogModel
  import opened ChangelogProofs
  import opened ChangelogPromotion
  import opened ChangelogLimits
  import opened ChangelogHeadings
  import opened ChangelogGlued

  // ---------------------------------------------------------------------------
  // A second promotion that starts inside the first section
  // ---------------------------------------------------------------------------

  /** The lines that are headings of the version. */
  function Names(version: string): string -> bool {
    l => HeadingOf(l) == Some(version)
  }

  /** The items after a heading bullet up to the next heading, and from there on. */
  function Mid(tail: seq<string>): seq<string> {
    tail[..NextHeading(tail, 0)]
  }

  function Remainder(tail: seq<string>): seq<string> {
    tail[NextHeading(tail, 0)..]
  }

  function Reparsed(tail: seq<string>): Categories {
    ParseLines(START, Mid(tail)).categories
  }

  /** What is printed from the second heading on, without that heading and the blank line after it. */
  ghost function Reprint(tail: seq<string>, f2: map<string, seq<string>>): seq<string> {
    var c := Ordered(Combine(Reparsed(tail).at, f2));
    CategoryLines(c.keys, c.at) + Remainder(tail)
  }

  lemma MidIs(body: seq<string>, rest: seq<string>)
    requires NoHeadings(body) && (rest != [] ==> IsHeading(rest[0]))
    ensures Mid(body + rest) == body && Remainder(body + rest) == rest
  {
    EndInPlace([], body, rest);
    assert [] + body + rest == body + rest;
  }

  lemma ParseBlankFirst(d: Categories, head: seq<string>)
    requires d.Valid() && PrintableMap(d.at)
    requires CategoryLines(d.keys, d.at) == head + [""] || CategoryLines(d.keys, d.at) == head
    ensures ParseLines(START, [""] + head).categories == d
  {
    ParseAppend(START, [""], head);
    ParseOne(START, "");
    StepNewline(START);
    ParseAppend(START, head, [""]);
    ParseOne(ParseLines(START, head), "");
    StepNewline(ParseLines(START, head));
    CategoriesRoundTrip(d);
  }

  lemma BlankQuiet(ls: seq<string>)
    requires NoHeadings(ls)
    ensures NoHeadings([""] + ls)
  {
    StepNewline(START);
  }

  /** With no heading after it, the rest of the section is read back as it is. */
  lemma QuietReprint(d: Categories, f2: map<string, seq<string>>)
    requires d.Valid() && PrintableMap(d.at) && NoHeadings(CategoryLines(d.keys, d.at))
    ensures var c := Ordered(Combine(d.at, f2));
            Reprint([""] + CategoryLines(d.keys, d.at), f2) == CategoryLines(c.keys, c.at)
  {
    BlankQuiet(CategoryLines(d.keys, d.at));
    AllIsMid([""] + CategoryLines(d.keys, d.at));
    ParseBlankFirst(d, CategoryLines(d.keys, d.at));
    AppendNothing(CategoryLines(Ordered(Combine(d.at, f2)).keys, Combine(d.at, f2)));
  }

  lemma AppendNothing(ls: seq<string>)
    ensures ls + [] == ls
  {
  }

  lemma AllIsMid(tail: seq<string>)
    requires NoHeadings(tail)
    ensures Mid(tail) == tail && Remainder(tail) == []
  {
    AppendNothing(tail);
    MidIs(tail, []);
  }

  /** With a heading after it, the reprint is longer than the categories themselves. */
  lemma LoudReprint(d: Categories, f2: map<string, seq<string>>)
    requires d.Valid() && PrintableMap(d.at) && !NoHeadingBullets(d.at)
    ensures var c := Ordered(Combine(d.at, f2));
            LinesLength(Reprint([""] + CategoryLines(d.keys, d.at), f2)) > LinesLength(CategoryLines(c.keys, c.at))
  {
    var i, b := FirstHeadingBullet(d);
    var x, head, tail := Get(d.at, d.keys[i])[b], Head(d.keys, d.at, i, b), Tail(d.keys, d.at, i, b);
    HeadTail(d.keys, d.at, i, b);
    HeadQuiet(d, i, b);
    CutAtGood(d, i, b);
    CutPrints(d, i, b);
    BlankQuiet(head);
    AppendAssociative([""], head, [x] + tail);
    MidIs([""] + head, [x] + tail);
    ParseBlankFirst(CutAt(d, i, b), head);
    ReprintLength(d, CutAt(d, i, b), head, [x] + tail, f2);
  }

  lemma ReprintLength(d: Categories, cut: Categories, head: seq<string>, rest: seq<string>,
                      f2: map<string, seq<string>>)
    requires d.Valid() && cut.Valid() && cut.at.Keys <= d.at.Keys
    requires CategoryLines(d.keys, d.at) == head + rest && CategoryLines(cut.keys, cut.at) == head + [""]
    ensures var c, e := Ordered(Combine(d.at, f2)), Ordered(Combine(cut.at, f2));
            LinesLength(CategoryLines(e.keys, e.at) + rest) > LinesLength(CategoryLines(c.keys, c.at))
  {
    var c, e := Ordered(Combine(d.at, f2)), Ordered(Combine(cut.at, f2));
    MergedLength(d, f2);
    MergedLength(cut, f2);
    LinesLengthAppend(CategoryLines(e.keys, e.at), rest);
    LinesLengthAppend(head, rest);
    LinesLengthAppend(head, [""]);
    assert [""][1..] == [];
    CategoryLinesLength(d.keys, d.at);
    CategoryLinesLength(cut.keys, cut.at);
    ExtraMonotone(cut.at.Keys, d.at.Keys, f2);
  }

  lemma MergedLength(d: Categories, f2: map<string, seq<string>>)
    ensures var c := Ordered(Combine(d.at, f2));
            LinesLength(CategoryLines(c.keys, c.at)) == Weight(d.at) + Extra(d.at.Keys, f2)
  {
    var m := Combine(d.at, f2);
    OrderedValid(m);
    assert Dict(Ordered(m).keys, m) == Ordered(m);
    CategoryLinesLength(Ordered(m).keys, m);
    CombineExtra(d.at, f2);
  }

  /** The later categories of a merge, when nothing is added before them. */
  lemma LaterMerged(c: Categories, f2: map<string, seq<string>>, n: nat)
    requires c.Valid() && n <= |c.keys| && (forall k :: k in c.keys[..n] ==> k !in f2)
    requires n <= |Ordered(Combine(c.at, f2)).keys| && Ordered(Combine(c.at, f2)).keys[..n] == c.keys[..n]
    ensures var all, later := Ordered(Combine(c.at, f2)), Ordered(Combine(Later(c, n).at, f2));
            CategoryLines(all.keys[n..], all.at) == CategoryLines(later.keys, later.at)
  {
    OrderedSuffix(Combine(c.at, f2), n);
    CombineLater(c, f2, n);
    OrderedLines(Combine(c.at, f2), Elements(c.keys[..n]));
  }

  lemma OrderedLines(m: map<string, seq<string>>, first: set<string>)
    ensures CategoryLines(Ordered(m - first).keys, m - first) == CategoryLines(Ordered(m - first).keys, m)
  {
    var keys := Ordered(m - first).keys;
    OrderedValid(m - first);
    assert forall i :: 0 <= i < |keys| ==> keys[i] in keys;
    CategoryLinesSame(keys, m - first, m);
  }

  // ---------------------------------------------------------------------------
  // When the reprint is what a single promotion prints
  // ---------------------------------------------------------------------------

  /** The last bullet of category `i` is the very heading that a promotion prints, the first heading of the
      version; no heading follows it; and the second batch only has categories that come later. */
  ghost predicate LuckyAt(c: Categories, f2: map<string, seq<string>>, version: string, h: string, i: nat) {
    && i < |c.keys|
    && var bs := Get(c.at, c.keys[i]);
       && bs != [] && bs[|bs| - 1] == h && Unmarked(Names(version), c.keys, c.at, i, |bs| - 1)
       && NoHeadings(CategoryLines(c.keys[i + 1..], c.at))
       && (forall k :: k in c.keys[..i + 1] ==> k !in f2)
       && i < |Ordered(Combine(c.at, f2)).keys|
       && Ordered(Combine(c.at, f2)).keys[..i + 1] == c.keys[..i + 1]
  }

  /** What two promotions print after the first heading and blank line, when the second one finds its
      version in bullet `b` of category `i`. */
  ghost function Twice(c: Categories, f2: map<string, seq<string>>, h: string, i: nat, b: nat): seq<string>
    requires i < |c.keys| && b < |Get(c.at, c.keys[i])|
  {
    Head(c.keys, c.at, i, b) + ([h, ""] + Reprint(Tail(c.keys, c.at, i, b), f2))
  }

  ghost function Once(c: Categories, f2: map<string, seq<string>>): seq<string> {
    CategoryLines(Ordered(Combine(c.at, f2)).keys, Combine(c.at, f2))
  }

  lemma TwiceRegrouped(a: seq<string>, k: string, bs: seq<string>, h: string, r: seq<string>)
    ensures a + ([k] + bs) + ([h, ""] + r) == a + ([k] + ((bs + [h]) + ([""] + r)))
  {
  }

  lemma LastTail(c: Categories, i: nat, b: nat)
    requires c.Valid() && PrintableMap(c.at) && i < |c.keys| && b + 1 == |Get(c.at, c.keys[i])|
    ensures Tail(c.keys, c.at, i, b) == [""] + CategoryLines(Later(c, i + 1).keys, Later(c, i + 1).at)
  {
    LaterGood(c, i + 1);
    NothingAfterLast(Get(c.at, c.keys[i]), CategoryLines(c.keys[i + 1..], c.at));
  }

  lemma NothingAfterLast(bs: seq<string>, rest: seq<string>)
    ensures bs[|bs|..] + [""] + rest == [""] + rest
  {
    assert bs[|bs|..] + [""] == [""];
  }

  lemma LuckyItems(c: Categories, f2: map<string, seq<string>>, version: string, h: string, i: nat)
    requires c.Valid() && PrintableMap(c.at) && LuckyAt(c, f2, version, h, i)
    ensures Twice(c, f2, h, i, |Get(c.at, c.keys[i])| - 1) == Once(c, f2)
  {
    var bs := Get(c.at, c.keys[i]);
    var b := |bs| - 1;
    var all := Ordered(Combine(c.at, f2));
    var r := CategoryLines(all.keys[i + 1..], all.at);
    LuckyReprint(c, f2, version, h, i);
    TwiceRegrouped(CategoryLines(c.keys[..i], c.at), CATEGORY + c.keys[i], bs[..b], h, r);
    FirstKept(c, f2, i);
    KeysAround(all.keys, all.at, i);
    OneRegrouped(CATEGORY + c.keys[i], bs, h, r);
  }

  lemma OneRegrouped(k: string, bs: seq<string>, h: string, r: seq<string>)
    requires bs != [] && bs[|bs| - 1] == h
    ensures ([k] + bs + [""]) + r == [k] + ((bs[..|bs| - 1] + [h]) + ([""] + r))
  {
    SplitLast(bs);
  }

  lemma LuckyReprint(c: Categories, f2: map<string, seq<string>>, version: string, h: string, i: nat)
    requires c.Valid() && PrintableMap(c.at) && LuckyAt(c, f2, version, h, i)
    ensures var all := Ordered(Combine(c.at, f2));
            Reprint(Tail(c.keys, c.at, i, |Get(c.at, c.keys[i])| - 1), f2) == CategoryLines(all.keys[i + 1..], all.at)
  {
    LaterGood(c, i + 1);
    LastTail(c, i, |Get(c.at, c.keys[i])| - 1);
    QuietReprint(Later(c, i + 1), f2);
    LaterMerged(c, f2, i + 1);
  }

  lemma FirstKept(c: Categories, f2: map<string, seq<string>>, i: nat)
    requires i < |c.keys| && (forall k :: k in c.keys[..i + 1] ==> k !in f2)
    requires i < |Ordered(Combine(c.at, f2)).keys| && Ordered(Combine(c.at, f2)).keys[..i + 1] == c.keys[..i + 1]
    ensures var all := Ordered(Combine(c.at, f2));
            && all.keys[i] == c.keys[i] && Get(all.at, c.keys[i]) == Get(c.at, c.keys[i])
            && CategoryLines(all.keys[..i], all.at) == CategoryLines(c.keys[..i], c.at)
  {
    var all := Ordered(Combine(c.at, f2));
    forall j | 0 <= j <= i ensures all.keys[j] == c.keys[j] && Get(all.at, c.keys[j]) == Get(c.at, c.keys[j]) {
      assert c.keys[..i + 1][j] == c.keys[j] && all.keys[..i + 1][j] == all.keys[j];
      assert c.keys[j] in c.keys[..i + 1];
      GetCombine(c.at, f2, c.keys[j]);
      assert Get(c.at, c.keys[j]) + [] == Get(c.at, c.keys[j]);
    }
    assert all.keys[..i] == c.keys[..i];
    CategoryLinesSame(c.keys[..i], all.at, c.at);
  }

  lemma {:induction false} CategoryListed(keys: seq<string>, m: map<string, seq<string>>, k: string)
    requires k in keys
    ensures CATEGORY + k in CategoryLines(keys, m)
    decreases |keys|
  {
    if keys[0] == k {
      assert CategoryLines(keys, m)[0] == CATEGORY + k;
    } else {
      assert keys == [keys[0]] + keys[1..];
      CategoryListed(keys[1..], m, k);
    }
  }

  lemma NotABullet(k: string, bs: seq<string>)
    requires IsName(k) && AreBullets(bs)
    ensures CATEGORY + k !in bs && CATEGORY + k != ""
  {
    NameLine(k);
  }

  lemma FirstOrLater(keys: seq<string>, m: map<string, seq<string>>, k: string)
    requires keys != [] && IsName(k) && IsName(keys[0]) && AreBullets(Get(m, keys[0]))
    requires CATEGORY + k in CategoryLines(keys, m)
    ensures k == keys[0] || CATEGORY + k in CategoryLines(keys[1..], m)
  {
    NotABullet(k, Get(m, keys[0]));
    NameLine(k);
    NameLine(keys[0]);
    assert CATEGORY + k == CATEGORY + keys[0] ==> k == keys[0];
  }

  lemma {:induction false} ListedCategory(keys: seq<string>, m: map<string, seq<string>>, k: string)
    requires Listable(keys, m) && IsName(k) && CATEGORY + k in CategoryLines(keys, m)
    ensures k in keys
    decreases |keys|
  {
    if keys != [] {
      FirstOrLater(keys, m, k);
      ListableTail(keys, m);
      if k != keys[0] {
        ListedCategory(keys[1..], m, k);
      }
    }
  }

  lemma JustOneMore(x: seq<string>, y: seq<string>, a: seq<string>, h: string)
    requires x + y == a + [h] && |x| > |a|
    ensures x == a + [h] && y == []
  {
    assert |x| + |y| == |a| + 1;
    assert (x + y)[..|x|] == x;
  }

  lemma ListableLater(keys: seq<string>, m: map<string, seq<string>>, n: nat)
    requires Listable(keys, m) && n <= |keys|
    ensures Listable(keys[n..], m) && forall k :: k in keys[..n] ==> k !in keys[n..]
  {
    assert forall j :: 0 <= j < |keys| - n ==> keys[n..][j] == keys[n + j];
  }

  /** What the equality says about the items around the second heading. */
  lemma TwicePrefix(c: Categories, f2: map<string, seq<string>>, h: string, i: nat, b: nat)
    requires c.Valid() && PrintableMap(c.at) && PrintableMap(f2) && IsBullet(h)
    requires i < |c.keys| && b < |Get(c.at, c.keys[i])| && Twice(c, f2, h, i, b) == Once(c, f2)
    ensures var all, bs := Ordered(Combine(c.at, f2)), Get(c.at, c.keys[i]);
            && i < |all.keys| && all.keys[..i + 1] == c.keys[..i + 1] && b + 1 == |bs| && bs[b] == h
            && Reprint(Tail(c.keys, c.at, i, b), f2) == CategoryLines(all.keys[i + 1..], all.at)
  {
    var m, k := Combine(c.at, f2), c.keys[i];
    OrderedValid(m);
    CombinePrintable(c.at, f2);
    ListableOf(c);
    ListableOf(Ordered(m));
    PrefixOf(c.keys, c.at, Ordered(m).keys, m, i, b, h, Reprint(Tail(c.keys, c.at, i, b), f2));
    GetCombine(c.at, f2, k);
    JustOneMore(Get(c.at, k), Get(f2, k), Get(c.at, k)[..b], h);
  }

  lemma PrefixOf(keys: seq<string>, m: map<string, seq<string>>, keys': seq<string>, m': map<string, seq<string>>,
                 i: nat, b: nat, h: string, rest: seq<string>)
    requires Listable(keys, m) && Listable(keys', m') && IsBullet(h) && i < |keys| && b < |Get(m, keys[i])|
    requires Head(keys, m, i, b) + ([h, ""] + rest) == CategoryLines(keys', m')
    ensures i < |keys'| && keys'[..i + 1] == keys[..i + 1]
    ensures Get(m', keys[i]) == Get(m, keys[i])[..b] + [h] && rest == CategoryLines(keys'[i + 1..], m')
  {
    var bs := Get(m, keys[i])[..b] + [h];
    BulletsUpTo(m[keys[i]], b, h);
    TwiceRegrouped(CategoryLines(keys[..i], m), CATEGORY + keys[i], Get(m, keys[i])[..b], h, rest);
    SamePrefix(keys, m, keys', m', i, bs, rest);
  }

  lemma BulletsUpTo(bs: seq<string>, b: nat, h: string)
    requires AreBullets(bs) && b <= |bs| && IsBullet(h)
    ensures AreBullets(bs[..b] + [h])
  {
  }

  /** A category of the second batch at or before the second heading would be printed twice. */
  lemma NothingBefore(c: Categories, f2: map<string, seq<string>>, i: nat, tail: seq<string>, k: string)
    requires c.Valid() && PrintableMap(c.at) && PrintableMap(f2) && i < |c.keys| && k in c.keys[..i + 1]
    requires var all := Ordered(Combine(c.at, f2));
             && i < |all.keys| && all.keys[..i + 1] == c.keys[..i + 1]
             && Reprint(tail, f2) == CategoryLines(all.keys[i + 1..], all.at)
    ensures k !in f2
  {
    var all, m := Ordered(Combine(c.at, f2)), Combine(Reparsed(tail).at, f2);
    OrderedValid(Combine(c.at, f2));
    CombinePrintable(c.at, f2);
    ListableOf(all);
    ListableLater(all.keys, all.at, i + 1);
    if k in f2 {
      OrderedValid(m);
      assert k in Ordered(m).keys;
      CategoryListed(Ordered(m).keys, m, k);
      assert CATEGORY + k in Reprint(tail, f2);
      ListedCategory(all.keys[i + 1..], all.at, k);
    }
  }

  lemma QuietLines(d: Categories)
    requires d.Valid() && PrintableMap(d.at) && NoHeadingBullets(d.at)
    ensures NoHeadings(CategoryLines(d.keys, d.at))
  {
    KeysOk(d);
    AppendItems([""], CategoryLines(d.keys, d.at));
  }

  lemma ItemsLucky(c: Categories, f2: map<string, seq<string>>, version: string, h: string, i: nat, b: nat)
    requires c.Valid() && PrintableMap(c.at) && PrintableMap(f2) && IsBullet(h)
    requires i < |c.keys| && b < |Get(c.at, c.keys[i])| && Unmarked(Names(version), c.keys, c.at, i, b)
    requires Twice(c, f2, h, i, b) == Once(c, f2)
    ensures LuckyAt(c, f2, version, h, i)
  {
    TwicePrefix(c, f2, h, i, b);
    var tail := Tail(c.keys, c.at, i, b);
    forall k | k in c.keys[..i + 1] ensures k !in f2 {
      NothingBefore(c, f2, i, tail, k);
    }
    LaterGood(c, i + 1);
    LastTail(c, i, b);
    LaterMerged(c, f2, i + 1);
    if NoHeadingBullets(Later(c, i + 1).at) {
      QuietLines(Later(c, i + 1));
    } else {
      LoudReprint(Later(c, i + 1), f2);
    }
  }

  // ---------------------------------------------------------------------------
  // The glued section
  // ---------------------------------------------------------------------------

  /** The last line of a preamble with the heading of the first section behind it. */
  function Glued(content: string, version: string, date: string): string
    requires Lines(content) != []
  {
    Lines(content)[|Lines(content)| - 1] + (HeadingLine(version, date) + NEWLINE)
  }

  ghost predicate Preamble(init: seq<string>, last: string, content: string) {
    && Lines(content) == init + [last] && content != [] && !EndsWithBreak(content)
    && AreLines(init) && (init != [] ==> EndsWithBreak(init[|init| - 1])) && last != [] && BreakFree(last)
    && NoHeadings(init)
  }

  lemma PreambleParts(content: string, version: string) returns (init: seq<string>, last: string)
    requires !PreambleOk(content, version)
    ensures Preamble(init, last, content)
    ensures Existing(Lines(content), version) == NO_CATEGORIES
  {
    var lines := Lines(content);
    NothingToReplace(content, version);
    LinesShape(content);
    LastLineBreak(content);
    init, last := lines[..|lines| - 1], lines[|lines| - 1];
    LastIsBreakFree(last);
    SplitLast(lines);
  }

  /** What the first promotion makes of it. */
  lemma GluedPromotion(content: string, version: string, date: string, fragments: seq<string>,
                       init: seq<string>, last: string)
    requires VersionOk(version) && BreakFree(date) && fragments != [] && !PreambleOk(content, version)
    requires Preamble(init, last, content) && Existing(Lines(content), version) == NO_CATEGORIES
    ensures var c := Aggregate(fragments);
            && c.Valid() && PrintableMap(c.at)
            && PromoteText(content, version, date, fragments) == content + Concat(SectionPrint(version, date, c))
            && Lines(PromoteText(content, version, date, fragments))
               == init + [last + (HeadingLine(version, date) + NEWLINE)] + SectionBody(c)
  {
    var c := Aggregate(fragments);
    CombineEmpty(CombineAll(fragments));
    assert Promoted(content, version, fragments) == c;
    MergedPrintable(content, version, fragments);
    AppendedText(content, version, date, fragments);
    SectionText(version, date, c);
    HeadingLineShape(version, date);
    GluedLines(content, HeadingLine(version, date) + NEWLINE, SectionBody(c));
    assert Lines(content)[..|Lines(content)| - 1] == init;
  }

  lemma GluedLineGood(last: string, version: string, date: string)
    requires last != [] && BreakFree(last) && VersionOk(version) && BreakFree(date)
    ensures var g := last + (HeadingLine(version, date) + NEWLINE); IsLine(g) && EndsWithBreak(g)
  {
    HeadingLineShape(version, date);
    var h := HeadingLine(version, date) + NEWLINE;
    assert h[..|h| - 1] == HeadingLine(version, date);
    assert IsBreak('\n');
    GluedLineShape(last, h);
  }

  /** If the glued line itself reads as the version, the second promotion drops what stood before it. */
  lemma GluedIsVersionDiffers(content: string, version: string, date: string, f1: seq<string>, f2: seq<string>)
    requires VersionOk(version) && BreakFree(date) && f1 != [] && f2 != [] && !PreambleOk(content, version)
    requires Lines(content) != [] && HeadingOf(Glued(content, version, date)) == Some(version)
    ensures PromoteText(PromoteText(content, version, date, f1), version, date, f2)
         != PromoteText(content, version, date, f1 + f2)
  {
    var init, last := PreambleParts(content, version);
    GluedPromotion(content, version, date, f1, init, last);
    GluedPromotion(content, version, date, f1 + f2, init, last);
    var once := PromoteText(content, version, date, f1);
    var g := last + (HeadingLine(version, date) + NEWLINE);
    StartInPlace(init, [g] + SectionBody(Aggregate(f1)), version);
    AppendAssociative(init, [g], SectionBody(Aggregate(f1)));
    SectionPrefix(init, [g] + SectionBody(Aggregate(f1)), once, version);
    PromotedLines(once, version, date, f2);
    LineAt(init, SectionPrint(version, date, Promoted(once, version, f2)), LinesAfter(once, version));
    LineAt(init, [g], SectionBody(Aggregate(f1 + f2)));
  }

  lemma SectionPrefix(pre: seq<string>, rest: seq<string>, text: string, version: string)
    requires Lines(text) == pre + rest && FindVersion(Lines(text), version, 0) == |pre| && rest != []
    ensures PreambleOk(text, version) && LinesBefore(text, version) == pre
  {
  }

  lemma LineAt(pre: seq<string>, mid: seq<string>, post: seq<string>)
    requires mid != []
    ensures |pre| < |pre + mid + post| && (pre + mid + post)[|pre|] == mid[0]
  {
  }

  // ---------------------------------------------------------------------------
  // A bullet that reads as the version
  // ---------------------------------------------------------------------------

  /** The lines of the first promotion around the bullet. */
  lemma AroundBullet(init: seq<string>, g: string, head: seq<string>, x: string, mid: seq<string>, rest: seq<string>)
    ensures init + [g] + Printed([""] + (head + ([x] + (mid + rest))))
         == (init + [g] + Printed([""] + head)) + ([ItemLines(x)[0]] + (ItemLines(x)[1..] + Printed(mid)))
            + Printed(rest)
  {
    assert [""] + (head + ([x] + (mid + rest))) == ([""] + head) + ([x] + (mid + rest));
    PrintedAppend([""] + head, [x] + (mid + rest));
    PrintedAppend([x], mid + rest);
    PrintedAppend(mid, rest);
    assert [x][1..] == [];
    assert Printed([x]) == ItemLines(x) + Printed([]);
    assert ItemLines(x) == [ItemLines(x)[0]] + ItemLines(x)[1..];
    Gather(init + [g], Printed([""] + head), ItemLines(x)[0], ItemLines(x)[1..], Printed(mid), Printed(rest));
  }

  lemma Gather(a: seq<string>, b: seq<string>, x: string, xs: seq<string>, c: seq<string>, d: seq<string>)
    ensures a + (b + (([x] + xs) + (c + d))) == (a + b) + ([x] + (xs + c)) + d
  {
  }

  lemma BulletParses(x: string, mid: seq<string>)
    requires AreItems(mid) && NoHeadings(mid)
    ensures NoHeadings(ItemLines(x)[1..] + Printed(mid))
    ensures ParseLines(START, ItemLines(x)[1..] + Printed(mid)) == ParseLines(START, mid)
  {
    var xs := ItemLines(x)[1..];
    assert xs == [] || xs == [NEWLINE];
    StepNewline(START);
    NoHeadingPrinted(mid);
    AppendItems(xs, Printed(mid));
    ParseAppend(START, xs, Printed(mid));
    ParseOne(START, NEWLINE);
    ParsePrinted(START, mid);
  }

  lemma {:induction false} NamedPrinted(version: string, items: seq<string>)
    requires AreItems(items)
    ensures NoneOf(Names(version), Printed(items)) <==> NoneOf(Names(version), items)
    decreases |items|
  {
    if items != [] {
      var x, t := items[0], items[1..];
      NamedPrinted(version, t);
      assert items == [x] + t;
      OneNamed(version, x);
      assert Printed(items) == ItemLines(x) + Printed(t);
      BothNoneOf(Names(version), [x], t, ItemLines(x), Printed(t));
    }
  }

  lemma BothNoneOf(marked: string -> bool, a: seq<string>, b: seq<string>, a': seq<string>, b': seq<string>)
    requires NoneOf(marked, a) <==> NoneOf(marked, a')
    requires NoneOf(marked, b) <==> NoneOf(marked, b')
    ensures NoneOf(marked, a + b) <==> NoneOf(marked, a' + b')
  {
    NoneOfAppend(marked, a, b);
    NoneOfAppend(marked, a', b');
  }

  lemma OneNamed(version: string, x: string)
    requires IsItem(x)
    ensures NoneOf(Names(version), ItemLines(x)) <==> NoneOf(Names(version), [x])
  {
    StepNewline(START);
    NoneOfOne(Names(version), x);
    if EndsWithBreak(x) {
      NoneOfOne(Names(version), NEWLINE);
      NoneOfAppend(Names(version), [x], [NEWLINE]);
      assert ItemLines(x) == [x] + [NEWLINE];
    } else {
      PatternsIgnoreNewline(x);
      NoneOfOne(Names(version), x + NEWLINE);
    }
  }

  lemma NoneOfOne(marked: string -> bool, x: string)
    ensures NoneOf(marked, [x]) <==> !marked(x)
  {
    assert [x][0] == x;
  }

  lemma NoneOfAppend(marked: string -> bool, a: seq<string>, b: seq<string>)
    ensures NoneOf(marked, a + b) <==> NoneOf(marked, a) && NoneOf(marked, b)
  {
    var c := a + b;
    assert forall i :: 0 <= i < |a| ==> c[i] == a[i];
    assert forall i :: 0 <= i < |b| ==> c[|a| + i] == b[i];
  }

  lemma {:induction false} NoneOfCategories(version: string, keys: seq<string>, m: map<string, seq<string>>)
    requires forall j :: 0 <= j < |keys| ==> IsName(keys[j]) && NoneOf(Names(version), Get(m, keys[j]))
    ensures NoneOf(Names(version), CategoryLines(keys, m))
    decreases |keys|
  {
    if keys != [] {
      NoneOfCategories(version, keys[1..], m);
      NameLine(keys[0]);
      StepNewline(START);
      NoneOfAppend(Names(version), [CATEGORY + keys[0]], Get(m, keys[0]));
      NoneOfAppend(Names(version), [CATEGORY + keys[0]] + Get(m, keys[0]), [""]);
      NoneOfAppend(Names(version), [CATEGORY + keys[0]] + Get(m, keys[0]) + [""], CategoryLines(keys[1..], m));
    }
  }

  lemma HeadNames(version: string, c: Categories, i: nat, b: nat)
    requires c.Valid() && PrintableMap(c.at) && i < |c.keys| && b <= |Get(c.at, c.keys[i])|
    requires Unmarked(Names(version), c.keys, c.at, i, b)
    ensures NoneOf(Names(version), [""] + Head(c.keys, c.at, i, b))
  {
    forall j | 0 <= j < i ensures IsName(c.keys[..i][j]) && NoneOf(Names(version), Get(c.at, c.keys[..i][j])) {
      assert c.keys[j] in c.keys;
    }
    NoneOfCategories(version, c.keys[..i], c.at);
    assert c.keys[i] in c.keys;
    NameLine(c.keys[i]);
    StepNewline(START);
    var bs := Get(c.at, c.keys[i])[..b];
    NoneOfAppend(Names(version), [CATEGORY + c.keys[i]], bs);
    NoneOfAppend(Names(version), CategoryLines(c.keys[..i], c.at), [CATEGORY + c.keys[i]] + bs);
    NoneOfAppend(Names(version), [""], Head(c.keys, c.at, i, b));
  }

  /** The items around a bullet of printable categories. */
  lemma ItemsAround(c: Categories, i: nat, b: nat)
    requires c.Valid() && PrintableMap(c.at) && i < |c.keys| && b < |Get(c.at, c.keys[i])|
    ensures var head, x, tail := Head(c.keys, c.at, i, b), Get(c.at, c.keys[i])[b], Tail(c.keys, c.at, i, b);
            && AreItems([""] + head) && IsItem(x) && AreItems(tail)
            && SectionBody(c) == Printed([""] + (head + ([x] + tail)))
  {
    var head, x, tail := Head(c.keys, c.at, i, b), Get(c.at, c.keys[i])[b], Tail(c.keys, c.at, i, b);
    HeadTail(c.keys, c.at, i, b);
    KeysOk(c);
    SplitItems(head, x, tail);
  }

  lemma SplitItems(head: seq<string>, x: string, tail: seq<string>)
    requires AreItems([""] + (head + ([x] + tail)))
    ensures AreItems([""] + head) && IsItem(x) && AreItems(tail)
  {
    AppendItems([""], head + ([x] + tail));
    AppendItems(head, [x] + tail);
    AppendItems([x], tail);
    AppendItems([""], head);
    assert [x][0] == x;
  }

  lemma TailParts(tail: seq<string>)
    requires AreItems(tail)
    ensures AreItems(Mid(tail)) && AreItems(Remainder(tail)) && tail == Mid(tail) + Remainder(tail)
    ensures NoHeadings(Mid(tail)) && (Remainder(tail) != [] ==> IsHeading(Remainder(tail)[0]))
  {
    assert tail == Mid(tail) + Remainder(tail);
    AppendItems(Mid(tail), Remainder(tail));
  }

  /** What a second promotion finds when its version is in a bullet. */
  lemma BulletFound(text: string, version: string, init: seq<string>, g: string, head: seq<string>, x: string,
                    tail: seq<string>)
    requires Lines(text) == init + [g] + Printed([""] + (head + ([x] + tail)))
    requires AreLines(init + [g]) && EndsWithBreak(g) && NoneOf(Names(version), init + [g])
    requires AreItems([""] + head) && NoneOf(Names(version), [""] + head)
    requires IsItem(x) && HeadingOf(x) == Some(version) && AreItems(tail)
    ensures PreambleOk(text, version)
    ensures LinesBefore(text, version) == init + [g] + Printed([""] + head)
    ensures LinesAfter(text, version) == Printed(Remainder(tail))
    ensures Existing(Lines(text), version) == Reparsed(tail)
  {
    TailParts(tail);
    AroundBullet(init, g, head, x, Mid(tail), Remainder(tail));
    NamedPrinted(version, [""] + head);
    NoneOfAppend(Names(version), init + [g], Printed([""] + head));
    BulletFits(init, g, head, Remainder(tail), version);
    BulletInPlace(Lines(text), version, init + [g] + Printed([""] + head), x, tail);
  }

  lemma BulletInPlace(all: seq<string>, version: string, pre: seq<string>, x: string, tail: seq<string>)
    requires all == pre + ([ItemLines(x)[0]] + (ItemLines(x)[1..] + Printed(Mid(tail)))) + Printed(Remainder(tail))
    requires Fits(pre, Printed(Remainder(tail)), version) && HeadingOf(x) == Some(version)
             && IsItem(x) && AreItems(tail)
    ensures HasVersion(all, version) && all[..SectionStart(all, version)] == pre
    ensures all[SectionEnd(all, version)..] == Printed(Remainder(tail))
    ensures Existing(all, version) == Reparsed(tail)
  {
    var body := ItemLines(x)[1..] + Printed(Mid(tail));
    TailParts(tail);
    BulletParses(x, Mid(tail));
    PatternsIgnoreNewline(x);
    SectionInPlace(all, pre, ItemLines(x)[0], body, Printed(Remainder(tail)), version);
  }

  lemma BulletFits(init: seq<string>, g: string, head: seq<string>, rest: seq<string>, version: string)
    requires AreLines(init + [g]) && EndsWithBreak(g) && NoneOf(Names(version), init + [g] + Printed([""] + head))
    requires AreItems([""] + head) && AreItems(rest) && (rest != [] ==> IsHeading(rest[0]))
    ensures Fits(init + [g] + Printed([""] + head), Printed(rest), version)
  {
    var pre := init + [g] + Printed([""] + head);
    PrintedShape([""] + head);
    assert (init + [g])[|init + [g]| - 1] == g;
    AreLinesAppend(init + [g], Printed([""] + head));
    assert pre[|pre| - 1] == Printed([""] + head)[|Printed([""] + head)| - 1];
    assert forall j :: 0 <= j < |pre| ==> !Names(version)(pre[j]);
    assert Fits(pre, [], version);
    RestFits(pre, [], version, rest);
    assert Printed(rest) + [] == Printed(rest);
  }

  lemma NoneOfHeadings(version: string, ls: seq<string>)
    requires NoHeadings(ls)
    ensures NoneOf(Names(version), ls)
  {
  }

  /** The items of the two texts behind the glued line, as printed lines. */
  lemma TwiceLines(init: seq<string>, g: string, head: seq<string>, h: string, c: seq<string>, rest: seq<string>)
    requires ItemLines(h) == [h + NEWLINE]
    ensures (init + [g] + Printed([""] + head)) + ([h + NEWLINE] + Printed([""] + c)) + Printed(rest)
         == init + [g] + Printed([""] + (head + ([h, ""] + (c + rest))))
  {
    assert [""] + (head + ([h, ""] + (c + rest))) == ([""] + head) + ([h] + (([""] + c) + rest));
    PrintedAppend([""] + head, [h] + (([""] + c) + rest));
    PrintedAppend([h], ([""] + c) + rest);
    PrintedAppend([""] + c, rest);
    assert [h][1..] == [];
    assert Printed([h]) == [h + NEWLINE] + Printed([]);
    Gather(init + [g], Printed([""] + head), h + NEWLINE, [], Printed([""] + c), Printed(rest));
    assert [] + Printed([""] + c) == Printed([""] + c);
    assert [h + NEWLINE] + [] == [h + NEWLINE];
  }

  lemma SameLinesSameText(a: string, b: string)
    ensures a == b <==> Lines(a) == Lines(b)
  {
    ConcatLines(a);
    ConcatLines(b);
  }

  lemma SamePrinted(pre: seq<string>, a: seq<string>, b: seq<string>)
    requires AreItems([""] + a) && AreItems([""] + b)
    ensures pre + Printed([""] + a) == pre + Printed([""] + b) <==> a == b
  {
    if pre + Printed([""] + a) == pre + Printed([""] + b) {
      assert (pre + Printed([""] + a))[|pre|..] == Printed([""] + a);
      assert (pre + Printed([""] + b))[|pre|..] == Printed([""] + b);
      PrintedInjective([""] + a, [""] + b);
      assert ([""] + a)[1..] == a && ([""] + b)[1..] == b;
    }
  }

  lemma TwiceItems(c: Categories, f2: map<string, seq<string>>, h: string, i: nat, b: nat)
    requires c.Valid() && PrintableMap(c.at) && PrintableMap(f2) && IsItem(h)
    requires i < |c.keys| && b < |Get(c.at, c.keys[i])|
    requires PrintableMap(Reparsed(Tail(c.keys, c.at, i, b)).at)
    ensures AreItems([""] + Twice(c, f2, h, i, b)) && AreItems([""] + Once(c, f2))
  {
    var tail := Tail(c.keys, c.at, i, b);
    var m := Combine(Reparsed(tail).at, f2);
    ItemsAround(c, i, b);
    TailParts(tail);
    MergedItems(c.at, f2);
    MergedItems(Reparsed(tail).at, f2);
    AppendItems(CategoryLines(Ordered(m).keys, m), Remainder(tail));
    JoinedItems(Head(c.keys, c.at, i, b), h, Reprint(tail, f2));
  }

  lemma JoinedItems(head: seq<string>, h: string, rest: seq<string>)
    requires AreItems([""] + head) && IsItem(h) && AreItems(rest)
    ensures AreItems([""] + (head + ([h, ""] + rest)))
  {
    AppendItems([h, ""], rest);
    AppendItems([""], head);
    AppendItems(head, [h, ""] + rest);
    AppendItems([""], head + ([h, ""] + rest));
  }

  lemma MergedItems(a: map<string, seq<string>>, b: map<string, seq<string>>)
    requires PrintableMap(a) && PrintableMap(b)
    ensures var m := Combine(a, b);
            AreItems(CategoryLines(Ordered(m).keys, m)) && AreItems([""] + CategoryLines(Ordered(m).keys, m))
  {
    CombinePrintable(a, b);
    OrderedValid(Combine(a, b));
    KeysOk(Ordered(Combine(a, b)));
    AppendItems([""], CategoryLines(Ordered(Combine(a, b)).keys, Combine(a, b)));
  }

  // ---------------------------------------------------------------------------
  // The exact condition
  // ---------------------------------------------------------------------------

  lemma HeadingIsBullet(version: string, date: string)
    requires VersionOk(version) && BreakFree(date)
    ensures IsBullet(HeadingLine(version, date)) && IsHeading(HeadingLine(version, date))
    ensures HeadingOf(HeadingLine(version, date)) == Some(version) <==> NoInnerBracket(version)
    ensures ItemLines(HeadingLine(version, date)) == [HeadingLine(version, date) + NEWLINE]
  {
    var h := HeadingLine(version, date);
    HeadingLineShape(version, date);
    PatternsIgnoreNewline(h);
    assert h[0] == '#' && h[2] == ' ' && CATEGORY[2] == '#';
    assert HEADING[0] == '#' && HEADING[2] == ' ';
  }

  /** With an unterminated preamble, when the second promotion finds its version in bullet `b` of
      category `i`. */
  lemma GluedSecond(content: string, version: string, date: string, f1: seq<string>, f2: seq<string>, i: nat, b: nat)
    requires VersionOk(version) && BreakFree(date) && f1 != [] && f2 != [] && !PreambleOk(content, version)
    requires Lines(content) != [] && HeadingOf(Glued(content, version, date)) != Some(version)
    requires var c := Aggregate(f1);
             && i < |c.keys| && b < |Get(c.at, c.keys[i])| && HeadingOf(Get(c.at, c.keys[i])[b]) == Some(version)
             && Unmarked(Names(version), c.keys, c.at, i, b)
    ensures PromoteText(PromoteText(content, version, date, f1), version, date, f2)
         == PromoteText(content, version, date, f1 + f2)
       <==> Twice(Aggregate(f1), CombineAll(f2), HeadingLine(version, date), i, b)
            == Once(Aggregate(f1), CombineAll(f2))
  {
    var c, h := Aggregate(f1), HeadingLine(version, date);
    var init, last := PreambleParts(content, version);
    GluedPromotion(content, version, date, f1, init, last);
    GluedPromotion(content, version, date, f1 + f2, init, last);
    CombineAllAppend(f1, f2);
    assert Aggregate(f1 + f2) == Ordered(Combine(c.at, CombineAll(f2)));
    var once, g := PromoteText(content, version, date, f1), last + (h + NEWLINE);
    var tail := Tail(c.keys, c.at, i, b);
    assert Glued(content, version, date) == g;
    GluedFits(init, last, version, date);
    ItemsAround(c, i, b);
    HeadNames(version, c, i, b);
    BulletFound(once, version, init, g, Head(c.keys, c.at, i, b), Get(c.at, c.keys[i])[b], tail);
    PromotedLines(once, version, date, f2);
    ExistingPrintable(once, version);
    CombineAllPrintable(f2);
    HeadingIsBullet(version, date);
    var m := Combine(Reparsed(tail).at, CombineAll(f2));
    assert Promoted(once, version, f2) == Ordered(m);
    TwiceLines(init, g, Head(c.keys, c.at, i, b), h, CategoryLines(Ordered(m).keys, m), Remainder(tail));
    TwiceItems(c, CombineAll(f2), h, i, b);
    SamePrinted(init + [g], Twice(c, CombineAll(f2), h, i, b), Once(c, CombineAll(f2)));
    SameLinesSameText(PromoteText(once, version, date, f2), PromoteText(content, version, date, f1 + f2));
  }

  lemma GluedFits(init: seq<string>, last: string, version: string, date: string)
    requires AreLines(init) && (init != [] ==> EndsWithBreak(init[|init| - 1])) && last != [] && BreakFree(last)
    requires VersionOk(version) && BreakFree(date) && NoHeadings(init)
    requires HeadingOf(last + (HeadingLine(version, date) + NEWLINE)) != Some(version)
    ensures var g := last + (HeadingLine(version, date) + NEWLINE);
            AreLines(init + [g]) && EndsWithBreak(g) && NoneOf(Names(version), init + [g])
  {
    var g := last + (HeadingLine(version, date) + NEWLINE);
    GluedLineGood(last, version, date);
    AreLinesAppend(init, [g]);
    NoneOfHeadings(version, init);
    NoneOfAppend(Names(version), init, [g]);
  }

  lemma {:induction false} NamedCategories(version: string, keys: seq<string>, m: map<string, seq<string>>)
    requires forall j :: 0 <= j < |keys| ==> IsName(keys[j])
    requires NoneOf(Names(version), CategoryLines(keys, m))
    ensures forall j :: 0 <= j < |keys| ==> NoneOf(Names(version), Get(m, keys[j]))
    decreases |keys|
  {
    if keys != [] {
      NoneOfAppend(Names(version), [CATEGORY + keys[0]] + Get(m, keys[0]) + [""], CategoryLines(keys[1..], m));
      NoneOfAppend(Names(version), [CATEGORY + keys[0]] + Get(m, keys[0]), [""]);
      NoneOfAppend(Names(version), [CATEGORY + keys[0]], Get(m, keys[0]));
      NamedCategories(version, keys[1..], m);
      assert forall j :: 1 <= j < |keys| ==> keys[j] == keys[1..][j - 1];
    }
  }

  /** Some bullet reads as the heading of the version. */
  ghost predicate NamedBullet(c: Categories, version: string) {
    exists n :: 0 <= n < |c.keys| && !NoneOf(Names(version), Get(c.at, c.keys[n]))
  }

  lemma BodyNamedIff(c: Categories, version: string)
    requires c.Valid() && PrintableMap(c.at)
    ensures NoneOf(Names(version), SectionBody(c)) <==> !NamedBullet(c, version)
  {
    forall j | 0 <= j < |c.keys| ensures IsName(c.keys[j]) {
      assert c.keys[j] in c.keys;
    }
    StepNewline(START);
    NoneOfAppend(Names(version), [""], CategoryLines(c.keys, c.at));
    KeysOk(c);
    NamedPrinted(version, [""] + CategoryLines(c.keys, c.at));
    if !NamedBullet(c, version) {
      NoneOfCategories(version, c.keys, c.at);
    }
    if NoneOf(Names(version), CategoryLines(c.keys, c.at)) {
      NamedCategories(version, c.keys, c.at);
    }
  }

  lemma HasVersionIff(lines: seq<string>, version: string)
    ensures HasVersion(lines, version) <==> !NoneOf(Names(version), lines)
  {
    var i := FindVersion(lines, version, 0);
    if i < |lines| {
      assert Names(version)(lines[i]);
    } else {
      assert forall j :: 0 <= j < |lines| ==> !Names(version)(lines[j]);
    }
  }

  /** In a preamble without a final line break the section of a first promotion is lost, unless the glued
      line or a bullet happens to read as the heading of the version. */
  lemma FoundAgainIff(content: string, version: string, date: string, f1: seq<string>)
    requires VersionOk(version) && BreakFree(date) && f1 != [] && !PreambleOk(content, version) && Lines(content) != []
    ensures !HasVersion(Lines(content), version)
    ensures HasVersion(Lines(PromoteText(content, version, date, f1)), version)
       <==> HeadingOf(Glued(content, version, date)) == Some(version) || NamedBullet(Aggregate(f1), version)
  {
    var c := Aggregate(f1);
    var init, last := PreambleParts(content, version);
    var g := last + (HeadingLine(version, date) + NEWLINE);
    NothingToReplace(content, version);
    GluedPromotion(content, version, date, f1, init, last);
    NoneOfHeadings(version, init);
    NoneOfAppend(Names(version), init, [g]);
    NoneOfAppend(Names(version), init + [g], SectionBody(c));
    BodyNamedIff(c, version);
    OneName(version, g);
    HasVersionIff(Lines(PromoteText(content, version, date, f1)), version);
  }

  /** For a version without a closing bracket the glued line never reads as its heading, so the section is
      lost exactly when no bullet does. */
  lemma PlainVersionLostIff(content: string, version: string, date: string, f1: seq<string>)
    requires VersionOk(version) && ']' !in version && BreakFree(date) && f1 != [] && !PreambleOk(content, version)
    ensures HasVersion(Lines(PromoteText(content, version, date, f1)), version)
       <==> NamedBullet(Aggregate(f1), version)
  {
    var init, last := PreambleParts(content, version);
    NothingToReplace(content, version);
    assert Lines(content)[|init|] == last;
    GluedHeading(last, version, date);
    FoundAgainIff(content, version, date, f1);
  }

  lemma OneName(version: string, l: string)
    ensures NoneOf(Names(version), [l]) <==> HeadingOf(l) != Some(version)
  {
    assert [l][0] == l;
    assert Names(version)(l) <==> HeadingOf(l) == Some(version);
  }

  /** The one way in which the batches may be promoted one after the other into a preamble that does not
      end with a line break: the printed heading is there again, as the last bullet of a category. */
  ghost predicate Lucky(content: string, version: string, date: string, f1: seq<string>, f2: seq<string>) {
    && Lines(content) != [] && HeadingOf(Glued(content, version, date)) != Some(version)
    && exists i: nat :: LuckyAt(Aggregate(f1), CombineAll(f2), version, HeadingLine(version, date), i)
  }

  lemma GluedIff(content: string, version: string, date: string, f1: seq<string>, f2: seq<string>)
    requires VersionOk(version) && NoInnerBracket(version) && BreakFree(date) && f1 != [] && f2 != []
    requires !PreambleOk(content, version)
    ensures PromoteText(PromoteText(content, version, date, f1), version, date, f2)
         == PromoteText(content, version, date, f1 + f2)
       <==> Lucky(content, version, date, f1, f2)
  {
    var c := Aggregate(f1);
    var init, last := PreambleParts(content, version);
    if HeadingOf(Glued(content, version, date)) == Some(version) {
      GluedIsVersionDiffers(content, version, date, f1, f2);
    } else if i: nat :| LuckyAt(c, CombineAll(f2), version, HeadingLine(version, date), i) {
      LuckyIsEqual(content, version, date, f1, f2, i);
    } else if n :| 0 <= n < |c.keys| && !NoneOf(Names(version), Get(c.at, c.keys[n])) {
      UnluckyDiffers(content, version, date, f1, f2, n);
    } else {
      FoundAgainIff(content, version, date, f1);
      LostSectionDiffers(content, version, date, f1, f2);
    }
  }

  lemma BatchesPrintable(version: string, date: string, f1: seq<string>, f2: seq<string>)
    requires VersionOk(version) && BreakFree(date)
    ensures Aggregate(f1).Valid() && PrintableMap(Aggregate(f1).at) && PrintableMap(CombineAll(f2))
    ensures IsBullet(HeadingLine(version, date))
    ensures NoInnerBracket(version) ==> HeadingOf(HeadingLine(version, date)) == Some(version)
  {
    OrderedValid(CombineAll(f1));
    CombineAllPrintable(f1);
    CombineAllPrintable(f2);
    HeadingIsBullet(version, date);
  }

  lemma LuckyIsEqual(content: string, version: string, date: string, f1: seq<string>, f2: seq<string>, i: nat)
    requires VersionOk(version) && NoInnerBracket(version) && BreakFree(date) && f1 != [] && f2 != []
    requires !PreambleOk(content, version)
    requires Lines(content) != [] && HeadingOf(Glued(content, version, date)) != Some(version)
    requires LuckyAt(Aggregate(f1), CombineAll(f2), version, HeadingLine(version, date), i)
    ensures PromoteText(PromoteText(content, version, date, f1), version, date, f2)
         == PromoteText(content, version, date, f1 + f2)
  {
    BatchesPrintable(version, date, f1, f2);
    LuckyItems(Aggregate(f1), CombineAll(f2), version, HeadingLine(version, date), i);
    var b := LuckyBullet(Aggregate(f1), CombineAll(f2), version, HeadingLine(version, date), i);
    GluedSecond(content, version, date, f1, f2, i, b);
  }

  lemma LuckyBullet(c: Categories, f2: map<string, seq<string>>, version: string, h: string, i: nat) returns (b: nat)
    requires LuckyAt(c, f2, version, h, i)
    ensures i < |c.keys| && b + 1 == |Get(c.at, c.keys[i])|
    ensures Get(c.at, c.keys[i])[b] == h && Unmarked(Names(version), c.keys, c.at, i, b)
  {
    b := |Get(c.at, c.keys[i])| - 1;
  }

  lemma UnluckyDiffers(content: string, version: string, date: string, f1: seq<string>, f2: seq<string>, n: nat)
    requires VersionOk(version) && NoInnerBracket(version) && BreakFree(date) && f1 != [] && f2 != []
    requires !PreambleOk(content, version)
    requires Lines(content) != [] && HeadingOf(Glued(content, version, date)) != Some(version)
    requires forall i: nat :: !LuckyAt(Aggregate(f1), CombineAll(f2), version, HeadingLine(version, date), i)
    requires n < |Aggregate(f1).keys| && !NoneOf(Names(version), Get(Aggregate(f1).at, Aggregate(f1).keys[n]))
    ensures PromoteText(PromoteText(content, version, date, f1), version, date, f2)
         != PromoteText(content, version, date, f1 + f2)
  {
    var c, m, h := Aggregate(f1), CombineAll(f2), HeadingLine(version, date);
    BatchesPrintable(version, date, f1, f2);
    var i, b := FirstMarkedBullet(Names(version), c.keys, c.at, n);
    GluedSecond(content, version, date, f1, f2, i, b);
    if Twice(c, m, h, i, b) == Once(c, m) {
      ItemsLucky(c, m, version, h, i, b);
    }
  }

  /** Exactly when promoting in two batches is promoting together, for non-empty batches: the version has
      no closing bracket inside, and either the section can stand at the start of a line and no bullet of
      the first batch looks like a heading, or the first batch happens to repeat the glued heading. */
  lemma TwoBatchesIff(content: string, version: string, date: string, f1: seq<string>, f2: seq<string>)
    requires VersionOk(version) && BreakFree(date) && f1 != [] && f2 != []
    ensures PromoteText(PromoteText(content, version, date, f1), version, date, f2)
         == PromoteText(content, version, date, f1 + f2)
       <==> && NoInnerBracket(version)
            && if PreambleOk(content, version) then NoHeadingBullets(CombineAll(f1))
               else Lucky(content, version, date, f1, f2)
  {
    if !NoInnerBracket(version) {
      InnerBracketNeverFound(Lines(content), version);
      InnerBracketNeverFound(Lines(PromoteText(content, version, date, f1)), version);
      LostSectionDiffers(content, version, date, f1, f2);
    } else if !PreambleOk(content, version) {
      GluedIff(content, version, date, f1, f2);
    } else if NoHeadingBullets(CombineAll(f1)) {
      TwoBatches(content, version, date, f1, f2);
    } else {
      HeadingBulletsDiffer(content, version, date, f1, f2);
    }
  }
}
