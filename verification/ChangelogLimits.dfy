/** What can go wrong when promoting in two batches, `promote_mode` of scripts/promote_changelogs.py: a
    section that is not found again is written twice. */
module ChangelogLimits {
  import opened Text
  import opened OrderedDict
  import opened ChangelogLines
  import opened ChangelogModel
  import opened ChangelogProofs
  import opened ChangelogPromotion

  // ---------------------------------------------------------------------------
  // Lengths of printed sections
  // ---------------------------------------------------------------------------

  function LinesLength(ls: seq<string>): nat {
    if ls == [] then 0 else |ls[0]| + 1 + LinesLength(ls[1..])
  }

  lemma {:induction false} LinesLengthAppend(a: seq<string>, b: seq<string>)
    ensures LinesLength(a + b) == LinesLength(a) + LinesLength(b)
  {
    if a == [] {
      assert a + b == b;
    } else {
      LinesLengthAppend(a[1..], b);
      assert (a + b)[1..] == a[1..] + b;
    }
  }

  lemma {:induction false} JoinLength(ls: seq<string>, c: char)
    requires ls != []
    ensures |Join(ls, c)| + 1 == LinesLength(ls)
  {
    if |ls| == 1 {
      assert LinesLength(ls[1..]) == 0;
    } else {
      JoinLength(ls[1..], c);
    }
  }

  function KeyLength(k: string, bs: seq<string>): nat {
    |CATEGORY| + |k| + 1 + LinesLength(bs) + 1
  }

  /** The length of the printed categories, whatever their order. */
  ghost function Weight(m: map<string, seq<string>>): nat
    decreases |m|
  {
    if m == map[] then 0
    else
      var k :| k in m;
      SmallerWithout(m, k);
      KeyLength(k, m[k]) + Weight(m - {k})
  }

  lemma SmallerWithout(m: map<string, seq<string>>, k: string)
    requires k in m
    ensures |m - {k}| < |m|
  {
    assert (m - {k}).Keys == m.Keys - {k};
    assert |m.Keys - {k}| == |m.Keys| - 1;
  }

  lemma {:induction false} WeightWithout(m: map<string, seq<string>>, k: string)
    requires k in m
    ensures Weight(m) == KeyLength(k, m[k]) + Weight(m - {k})
    decreases |m|
  {
    var j :| j in m && Weight(m) == KeyLength(j, m[j]) + Weight(m - {j});
    if j != k {
      SmallerWithout(m, j);
      SmallerWithout(m, k);
      WeightWithout(m - {j}, k);
      WeightWithout(m - {k}, j);
      assert m - {j} - {k} == m - {k} - {j};
    }
  }

  lemma {:induction false} CategoryLinesSame(keys: seq<string>, m: map<string, seq<string>>,
                                             m': map<string, seq<string>>)
    requires forall i :: 0 <= i < |keys| ==> Get(m, keys[i]) == Get(m', keys[i])
    ensures CategoryLines(keys, m) == CategoryLines(keys, m')
    decreases |keys|
  {
    if keys != [] {
      CategoryLinesSame(keys[1..], m, m');
    }
  }

  lemma {:induction false} CategoryLinesLength(keys: seq<string>, m: map<string, seq<string>>)
    requires Dict(keys, m).Valid()
    ensures LinesLength(CategoryLines(keys, m)) == Weight(m)
    decreases |keys|
  {
    if keys == [] {
      assert m == map[];
    } else {
      var k, t := keys[0], keys[1..];
      assert keys == [k] + t;
      assert k in keys;
      var m' := m - {k};
      assert Dict(t, m').Valid();
      CategoryLinesSame(t, m, m');
      CategoryLinesLength(t, m');
      WeightWithout(m, k);
      OneCategoryLength(k, m[k], CategoryLines(t, m));
    }
  }

  lemma OneCategoryLength(k: string, bs: seq<string>, rest: seq<string>)
    ensures LinesLength([CATEGORY + k] + bs + [""] + rest) == KeyLength(k, bs) + LinesLength(rest)
  {
    LinesLengthAppend([CATEGORY + k] + bs + [""], rest);
    LinesLengthAppend([CATEGORY + k] + bs, [""]);
    LinesLengthAppend([CATEGORY + k], bs);
    assert [CATEGORY + k][1..] == [] && [""][1..] == [];
  }

  lemma CombineWithout(a: map<string, seq<string>>, b: map<string, seq<string>>, k: string)
    ensures Combine(a - {k}, b - {k}) == Combine(a, b) - {k}
  {
  }

  lemma OneKeyWeight(a: map<string, seq<string>>, b: map<string, seq<string>>, k: string)
    requires k in a || k in b
    ensures KeyLength(k, Get(a, k) + Get(b, k)) + Weight(a - {k}) + Weight(b - {k}) <= Weight(a) + Weight(b)
  {
    LinesLengthAppend(Get(a, k), Get(b, k));
    if k in a { WeightWithout(a, k); } else { assert a - {k} == a; }
    if k in b { WeightWithout(b, k); } else { assert b - {k} == b; }
  }

  /** A merge prints no longer than its parts. */
  lemma {:induction false} CombineWeight(a: map<string, seq<string>>, b: map<string, seq<string>>)
    ensures Weight(Combine(a, b)) <= Weight(a) + Weight(b)
    decreases |Combine(a, b)|
  {
    var m := Combine(a, b);
    if m == map[] {
      assert Weight(m) == 0;
    } else {
      var k :| k in m;
      SmallerWithout(m, k);
      CombineWithout(a, b, k);
      CombineWeight(a - {k}, b - {k});
      WeightWithout(m, k);
      OneKeyWeight(a, b, k);
    }
  }

  lemma SectionLength(version: string, date: string, m: map<string, seq<string>>)
    ensures |BuildSection(version, date, Ordered(m))| + 1 == |HeadingLine(version, date)| + 2 + Weight(m)
  {
    var c := Ordered(m);
    OrderedValid(m);
    var items := CategoryLines(c.keys, c.at);
    assert Dict(c.keys, c.at) == c;
    CategoryLinesLength(c.keys, c.at);
    var h := HeadingLine(version, date);
    LinesLengthAppend([h, ""], items);
    assert [h, ""][1..] == [""] && [""][1..] == [];
    JoinLength(SectionLines(version, date, c), '\n');
  }

  // ---------------------------------------------------------------------------
  // A promotion that does not find its section
  // ---------------------------------------------------------------------------

  lemma InsertLength(content: string, version: string, date: string, fragments: seq<string>)
    requires fragments != [] && !HasVersion(Lines(content), version)
    ensures |PromoteText(content, version, date, fragments)|
            == |content| + |HeadingLine(version, date)| + 2 + Weight(CombineAll(fragments))
  {
    var lines := Lines(content);
    var n := NextHeading(lines, 0);
    assert lines == lines[..n] + lines[n..];
    ConcatAppend(lines[..n], lines[n..]);
    ConcatLines(content);
    CombineEmpty(CombineAll(fragments));
    SectionLength(version, date, CombineAll(fragments));
  }

  /** If the first batch's section is not found again, the second batch adds a second section, and
      the result is longer than one section for both. */
  lemma LostSectionDiffers(content: string, version: string, date: string, f1: seq<string>, f2: seq<string>)
    requires f1 != [] && f2 != [] && !HasVersion(Lines(content), version)
    requires !HasVersion(Lines(PromoteText(content, version, date, f1)), version)
    ensures PromoteText(PromoteText(content, version, date, f1), version, date, f2)
            != PromoteText(content, version, date, f1 + f2)
  {
    InsertLength(content, version, date, f1);
    InsertLength(PromoteText(content, version, date, f1), version, date, f2);
    InsertLength(content, version, date, f1 + f2);
    CombineAllAppend(f1, f2);
    CombineWeight(CombineAll(f1), CombineAll(f2));
  }

  /** A version with a bracket inside is never found. */
  lemma InnerBracketNeverFound(lines: seq<string>, version: string)
    requires version != [] && !NoInnerBracket(version)
    ensures !HasVersion(lines, version)
  {
    var i := FindVersion(lines, version, 0);
    if i < |lines| {
      HeadingShape(lines[i]);
    }
  }

  /** A heading printed behind other text on the same line is not read as the heading of its version. */
  lemma GluedHeading(last: string, version: string, date: string)
    requires last != [] && BreakFree(last) && !IsHeading(last)
    requires VersionOk(version) && ']' !in version && BreakFree(date)
    ensures HeadingOf(last + (HeadingLine(version, date) + NEWLINE)) != Some(version)
  {
    var line := last + (HeadingLine(version, date) + NEWLINE);
    assert HEADING == ['#', '#', ' ', '['];
    if HEADING <= line {
      assert line[|last|] == '#' && line[|last| + 1] == '#';
      assert HEADING == line[..4];
      assert |last| >= 4 by {
        assert line[2] == ' ' && line[3] == '[';
      }
      assert last[..4] == line[..4];
      GluedHeadingLong(last, version, date);
    }
  }

  lemma GluedHeadingLong(last: string, version: string, date: string)
    requires HEADING <= last && BreakFree(last) && !IsHeading(last)
    requires VersionOk(version) && ']' !in version && BreakFree(date)
    ensures HeadingOf(last + (HeadingLine(version, date) + NEWLINE)) != Some(version)
  {
    var rest := last[|HEADING|..];
    var y := rest + HEADING + version;
    assert IsBreak('\n');
    assert '\n' !in y by { HeadingHasNoNewline(); BreakFreeIsItem(last); BreakFreeIsItem(version); }
    assert ']' !in y[1..] by {
      assert HEADING == ['#', '#', ' ', '['];
      if rest == [] {
        assert y == HEADING + version;
      } else {
        assert rest[0] == last[|HEADING|];
        assert ']' !in rest[1..];
        assert y[1..] == rest[1..] + HEADING + version;
      }
    }
    var tail := " - " + date + NEWLINE;
    PrintedHeading(y, tail);
    GluedText(last, version, date);
  }

  lemma GluedText(last: string, version: string, date: string)
    requires HEADING <= last
    ensures last + (HeadingLine(version, date) + NEWLINE)
            == HEADING + (last[|HEADING|..] + HEADING + version) + "]" + (" - " + date + NEWLINE)
  {
    assert last == HEADING + last[|HEADING|..];
  }

  lemma SpliceAtEnd(content: string, version: string, section: string)
    requires SectionStart(Lines(content), version) == SectionEnd(Lines(content), version) == |Lines(content)|
    ensures Splice(content, version, section) == content + (section + NEWLINE)
  {
    var lines := Lines(content);
    assert lines[..|lines|] == lines && lines[|lines|..] == [];
    ConcatLines(content);
  }

  /** Without any heading the section goes to the end of the text. */
  lemma AppendedText(content: string, version: string, date: string, fragments: seq<string>)
    requires VersionOk(version) && BreakFree(date) && fragments != [] && !PreambleOk(content, version)
    ensures NoHeadings(Lines(content)) && !HasVersion(Lines(content), version)
    ensures PromoteText(content, version, date, fragments)
            == content + Concat(SectionPrint(version, date, Promoted(content, version, fragments)))
  {
    NothingToReplace(content, version);
    var c := Promoted(content, version, fragments);
    MergedPrintable(content, version, fragments);
    SectionText(version, date, c);
    PromotesBySplicing(content, version, date, fragments);
    SpliceAtEnd(content, version, BuildSection(version, date, c));
  }

  lemma NothingToReplace(content: string, version: string)
    requires !PreambleOk(content, version)
    ensures NoHeadings(Lines(content)) && !HasVersion(Lines(content), version)
    ensures SectionStart(Lines(content), version) == SectionEnd(Lines(content), version) == |Lines(content)|
  {
    assert NextHeading(Lines(content), 0) == |Lines(content)|;
  }

  lemma PromotesBySplicing(content: string, version: string, date: string, fragments: seq<string>)
    requires fragments != []
    ensures PromoteText(content, version, date, fragments)
            == Splice(content, version, BuildSection(version, date, Promoted(content, version, fragments)))
  {
  }

  lemma LastIsBreakFree(last: string)
    requires IsLine(last) && !EndsWithBreak(last)
    ensures BreakFree(last)
  {
    assert forall i :: 0 <= i < |last| - 1 ==> last[..|last| - 1][i] == last[i];
  }

  /** Appending lines to a text that does not end with a break lengthens its last line. */
  lemma GluedLines(content: string, h: string, body: seq<string>)
    requires content != [] && !EndsWithBreak(content) && AreLines([h] + body) && EndsWithBreak(h)
    ensures Lines(content) != []
    ensures var lines := Lines(content);
            Lines(content + Concat([h] + body)) == lines[..|lines| - 1] + [lines[|lines| - 1] + h] + body
  {
    var lines := Lines(content);
    LinesShape(content);
    LastLineBreak(content);
    ConcatLines(content);
    var init, last := lines[..|lines| - 1], lines[|lines| - 1];
    LastIsBreakFree(last);
    assert lines == init + [last];
    GluedConcat(init, last, h, body);
    GluedAreLines(init, last, h, body);
    LinesConcat(init + ([last + h] + body));
  }

  lemma GluedAreLines(init: seq<string>, last: string, h: string, body: seq<string>)
    requires AreLines(init + [last]) && BreakFree(last) && AreLines([h] + body) && EndsWithBreak(h)
    ensures AreLines(init + ([last + h] + body)) && init + ([last + h] + body) == init + [last + h] + body
  {
    assert AreLines(body) by { assert forall i :: 0 <= i < |body| ==> body[i] == ([h] + body)[i + 1]; }
    assert AreLines(init) by { assert forall i :: 0 <= i < |init| ==> init[i] == (init + [last])[i]; }
    assert IsLine(h) by { assert ([h] + body)[0] == h; }
    GluedLineShape(last, h);
    AreLinesAppend([last + h], body);
    assert init != [] ==> init[|init| - 1] == (init + [last])[|init| - 1];
    AreLinesAppend(init, [last + h] + body);
  }

  lemma GluedConcat(init: seq<string>, last: string, h: string, body: seq<string>)
    ensures Concat(init + [last]) + Concat([h] + body) == Concat(init + ([last + h] + body))
  {
    ConcatAppend(init, [last]);
    ConcatOne(last);
    ConcatAppend([h], body);
    ConcatOne(h);
    ConcatAppend([last + h], body);
    ConcatOne(last + h);
    ConcatAppend(init, [last + h] + body);
    Regroup(Concat(init), last, h, Concat(body));
  }

  lemma Regroup(a: string, b: string, c: string, d: string)
    ensures (a + b) + (c + d) == a + ((b + c) + d)
  {
  }

  lemma GluedLineShape(last: string, h: string)
    requires BreakFree(last) && IsLine(h) && EndsWithBreak(h)
    ensures IsLine(last + h) && EndsWithBreak(last + h)
  {
    var l := last + h;
    assert l[..|l| - 1] == last + h[..|h| - 1];
  }
}
