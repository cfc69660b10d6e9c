/** The loops of scripts/promote_changelogs.py, and the component whose files a promotion changes. */
module ChangelogScript {
  import opened Text
  import opened OrderedDict
  import opened ChangelogLines
  import opened ChangelogModel
  import opened ChangelogProofs
  import opened ChangelogPromotion

  // ---------------------------------------------------------------------------
  // Parsing
  // ---------------------------------------------------------------------------

  lemma ParseNext(lines: seq<string>, i: nat)
    requires i < |lines|
    ensures ParseLines(START, lines[..i + 1]) == StepLine(ParseLines(START, lines[..i]), lines[i])
  {
    assert lines[..i + 1] == lines[..i] + [lines[i]];
    ParseAppend(START, lines[..i], [lines[i]]);
    ParseOne(ParseLines(START, lines[..i]), lines[i]);
  }

  method ParseFragmentText(text: string) returns (categories: Categories)
    ensures categories == ParseFragment(text)
  {
    var lines := StripBreaks(Lines(text));
    categories := NO_CATEGORIES;
    var current: Option<string> := None;
    var i := 0;
    while i < |lines|
      invariant 0 <= i <= |lines|
      invariant Parser(categories, current) == ParseLines(START, lines[..i])
    {
      var line := lines[i];
      ParseNext(lines, i);
      FragmentLine(text, i);
      var name := CategoryOf(line);
      if name.Some? {
        current := name;
        categories := AddKey(categories, name.value);
      } else if current.Some? && !IsBlank(line) {
        categories := AddBullet(categories, current.value, line);
      }
      i := i + 1;
    }
    assert lines[..i] == lines;
  }

  lemma FragmentLine(text: string, i: nat)
    requires i < |Lines(text)|
    ensures DropNewline(StripBreaks(Lines(text))[i]) == StripBreaks(Lines(text))[i]
  {
    LinesShape(text);
    LineIsLineLike(Lines(text)[i]);
  }

  lemma ConcatNext(lines: seq<string>, i: nat)
    requires i < |lines|
    ensures |Concat(lines[..i + 1])| == |Concat(lines[..i])| + |lines[i]|
  {
    assert lines[..i + 1] == lines[..i] + [lines[i]];
    ConcatAppend(lines[..i], [lines[i]]);
    ConcatOne(lines[i]);
  }

  /** The line at the offset returned is the first heading; the offset is the end when there is none. */
  method FindInsertPosition(content: string) returns (offset: nat)
    ensures offset == |Concat(Lines(content)[..NextHeading(Lines(content), 0)])|
  {
    var lines := Lines(content);
    offset := 0;
    var i := 0;
    while i < |lines|
      invariant 0 <= i <= |lines|
      invariant forall j :: 0 <= j < i ==> !IsHeading(lines[j])
      invariant offset == |Concat(lines[..i])|
    {
      if IsHeading(lines[i]) {
        assert NextHeading(lines, 0) == i;
        return;
      }
      ConcatNext(lines, i);
      offset := offset + |lines[i]|;
      i := i + 1;
    }
    assert NextHeading(lines, 0) == |lines|;
  }

  lemma HeadingWithoutBreak(l: string)
    requires IsLine(l)
    ensures HeadingOf(DropBreak(l)) == HeadingOf(l)
  {
    if EndsWithBreak(l) {
      var x, c := l[..|l| - 1], l[|l| - 1];
      assert l == x + [c];
      HeadingIgnoresBreak(x, c);
    }
  }

  lemma HeadingIgnoresBreak(x: string, c: char)
    requires BreakFree(x) && IsBreak(c)
    ensures HeadingOf(x + [c]) == HeadingOf(x)
  {
    assert HEADING == ['#', '#', ' ', '['];
    if |x| < 4 {
      if |x| == 3 {
        assert (x + [c])[..4][3] == c != HEADING[3];
      }
    } else {
      assert (x + [c])[..4] == x[..4];
      var rest := x[4..];
      assert (x + [c])[4..] == rest + [c];
      if rest != [] {
        assert (rest + [c])[1..] == rest[1..] + [c];
        BeforeAppend(rest[1..], ']', [c]);
      } else {
        assert (rest + [c])[1..] == [];
      }
    }
  }

  method ChangelogHasVersion(content: string, version: string) returns (found: bool)
    ensures found == HasVersion(Lines(content), version)
  {
    ghost var full := Lines(content);
    var lines := StripBreaks(Lines(content));
    LinesShape(content);
    var i := 0;
    while i < |lines|
      invariant 0 <= i <= |lines| == |full|
      invariant forall j :: 0 <= j < i ==> HeadingOf(full[j]) != Some(version)
    {
      HeadingWithoutBreak(full[i]);
      if HeadingOf(lines[i]) == Some(version) {
        assert FindVersion(full, version, 0) <= i;
        return true;
      }
      i := i + 1;
    }
    return false;
  }

  method TakeLine(categories: Categories, current: Option<string>, line: string)
    returns (categories': Categories, current': Option<string>)
    ensures Parser(categories', current') == StepLine(Parser(categories, current), line)
  {
    categories', current' := categories, current;
    var name := CategoryOf(line);
    if name.Some? {
      current' := name;
      categories' := AddKey(categories, name.value);
    } else if current.Some? && !IsBlank(line) {
      categories' := AddBullet(categories, current.value, DropNewline(line));
    }
  }

  /** What the scan knows after `i` lines; `s` is the line of the section's heading. */
  ghost predicate Scanned(lines: seq<string>, s: nat, i: nat, inSection: bool, p: Parser, start: nat, offset: nat) {
    && s <= |lines| && i <= |lines|
    && offset == |Concat(lines[..i])|
    && (inSection <==> s < i)
    && (if s < i
        then start == |Concat(lines[..s])| && p == ParseLines(START, lines[s + 1..i])
        else start == 0 && p == START)
    && (forall j :: s < j < i ==> !IsHeading(lines[j]))
  }

  lemma ScanOutside(lines: seq<string>, s: nat, i: nat, p: Parser, start: nat, offset: nat)
    requires Scanned(lines, s, i, false, p, start, offset) && i < |lines| && i != s
    ensures Scanned(lines, s, i + 1, false, p, start, offset + |lines[i]|)
  {
    ConcatNext(lines, i);
  }

  lemma ScanHeading(lines: seq<string>, s: nat, p: Parser, start: nat, offset: nat)
    requires Scanned(lines, s, s, false, p, start, offset) && s < |lines|
    ensures Scanned(lines, s, s + 1, true, p, offset, offset + |lines[s]|)
  {
    ConcatNext(lines, s);
    assert lines[s + 1..s + 1] == [];
  }

  lemma ScanInside(lines: seq<string>, s: nat, i: nat, p: Parser, start: nat, offset: nat)
    requires Scanned(lines, s, i, true, p, start, offset) && i < |lines| && !IsHeading(lines[i])
    ensures Scanned(lines, s, i + 1, true, StepLine(p, lines[i]), start, offset + |lines[i]|)
  {
    ConcatNext(lines, i);
    assert lines[s + 1..i + 1] == lines[s + 1..i] + [lines[i]];
    ParseAppend(START, lines[s + 1..i], [lines[i]]);
    ParseOne(p, lines[i]);
  }

  /** The categories of the section of a version, and the offsets of its first character and of the
      first character after it; nothing and zero offsets when there is no such section. */
  method ParseChangelogSection(content: string, version: string) returns (categories: Categories, start: nat, end: nat)
    ensures categories == Existing(Lines(content), version)
    ensures HasVersion(Lines(content), version) ==>
              && start == |Concat(Lines(content)[..SectionStart(Lines(content), version)])|
              && end == |Concat(Lines(content)[..SectionEnd(Lines(content), version)])|
    ensures !HasVersion(Lines(content), version) ==> start == end == 0
  {
    var lines := Lines(content);
    ghost var s := FindVersion(lines, version, 0);
    categories, start, end := NO_CATEGORIES, 0, 0;
    var current: Option<string> := None;
    var inSection := false;
    var offset: nat, i: nat := 0, 0;
    while i < |lines|
      invariant Scanned(lines, s, i, inSection, Parser(categories, current), start, offset)
      invariant end == 0
    {
      var line := lines[i];
      var heading := HeadingOf(line);
      if heading.Some? && inSection {
        EndFound(lines, version, i, Parser(categories, current), start, offset);
        return categories, start, offset;
      } else if heading.Some? && heading.value == version {
        assert i == s;
        ScanHeading(lines, s, Parser(categories, current), start, offset);
        inSection := true;
        start := offset;
      } else if heading.None? && inSection {
        ScanInside(lines, s, i, Parser(categories, current), start, offset);
        categories, current := TakeLine(categories, current, line);
      } else {
        ScanOutside(lines, s, i, Parser(categories, current), start, offset);
      }
      offset := offset + |line|;
      i := i + 1;
    }
    if inSection {
      EndFound(lines, version, i, Parser(categories, current), start, offset);
      return categories, start, offset;
    }
  }

  lemma EndFound(lines: seq<string>, version: string, i: nat, p: Parser, start: nat, offset: nat)
    requires Scanned(lines, FindVersion(lines, version, 0), i, true, p, start, offset)
    requires i < |lines| ==> IsHeading(lines[i])
    ensures HasVersion(lines, version) && p.categories == Existing(lines, version)
    ensures start == |Concat(lines[..SectionStart(lines, version)])|
    ensures offset == |Concat(lines[..SectionEnd(lines, version)])|
  {
    assert NextHeading(lines, FindVersion(lines, version, 0) + 1) == i;
  }

  // ---------------------------------------------------------------------------
  // Merging and printing
  // ---------------------------------------------------------------------------

  lemma GetExtended(combined: map<string, seq<string>>, r: map<string, seq<string>>, k: string, bs: seq<string>,
                    x: string)
    requires k !in r
    ensures var m := Combine(combined, r);
            Get(Combine(combined, r[k := bs]), x) == Get(m[k := Get(m, k) + bs], x)
  {
    GetCombine(combined, r, x);
    GetCombine(combined, r[k := bs], x);
    assert Get(combined, k) + [] == Get(combined, k);
  }

  lemma CombineNext(combined: map<string, seq<string>>, c: Categories, i: nat)
    requires c.Valid() && i < |c.keys|
    ensures c.keys[i] in c.at
    ensures var m := Combine(combined, Restrict(c.at, c.keys[..i]));
            Combine(combined, Restrict(c.at, c.keys[..i + 1]))
            == m[c.keys[i] := Get(m, c.keys[i]) + c.at[c.keys[i]]]
  {
    RestrictStep(c, i);
    CombineOneMore(combined, Restrict(c.at, c.keys[..i]), c.keys[i], c.at[c.keys[i]]);
  }

  lemma CombineOneMore(combined: map<string, seq<string>>, r: map<string, seq<string>>, k: string, bs: seq<string>)
    requires k !in r
    ensures var m := Combine(combined, r);
            Combine(combined, r[k := bs]) == m[k := Get(m, k) + bs]
  {
    var m, m' := Combine(combined, r), Combine(combined, r[k := bs]);
    var n := m[k := Get(m, k) + bs];
    forall x ensures Get(m', x) == Get(n, x) {
      GetExtended(combined, r, k, bs, x);
    }
    SameGet(m', n);
  }

  /** `setdefault(cat, []).extend(bullets)` for every category of `c`. */
  method ExtendAll(combined: map<string, seq<string>>, c: Categories) returns (m: map<string, seq<string>>)
    requires c.Valid()
    ensures m == Combine(combined, c.at)
  {
    m := combined;
    CombineEmpty(combined);
    RestrictAll(c);
    var i := 0;
    while i < |c.keys|
      invariant 0 <= i <= |c.keys|
      invariant m == Combine(combined, Restrict(c.at, c.keys[..i]))
    {
      CombineNext(combined, c, i);
      var k := c.keys[i];
      m := m[k := Get(m, k) + c.at[k]];
      i := i + 1;
    }
    RestrictAll(c);
  }

  lemma RestrictAll(c: Categories)
    requires c.Valid()
    ensures c.keys[..|c.keys|] == c.keys && Restrict(c.at, c.keys) == c.at
    ensures Restrict(c.at, c.keys[..0]) == map[]
  {
  }

  lemma {:induction false} PresentAppend(a: seq<string>, b: seq<string>, m: map<string, seq<string>>)
    ensures Present(a + b, m) == Present(a, m) + Present(b, m)
  {
    if a == [] {
      assert a + b == b;
    } else {
      PresentAppend(a[1..], b, m);
      assert (a + b)[1..] == a[1..] + b;
      AppendAssociative(if a[0] in m then [a[0]] else [], Present(a[1..], m), Present(b, m));
    }
  }

  lemma PresentNext(order: seq<string>, i: nat, m: map<string, seq<string>>)
    requires i < |order|
    ensures Present(order[..i + 1], m) == Present(order[..i], m) + (if order[i] in m then [order[i]] else [])
  {
    assert order[..i + 1] == order[..i] + [order[i]];
    PresentAppend(order[..i], [order[i]], m);
    assert [order[i]][1..] == [];
  }

  method PresentKeys(order: seq<string>, m: map<string, seq<string>>) returns (keys: seq<string>, rest: set<string>)
    ensures keys == Present(order, m) && rest == m.Keys - Elements(order)
  {
    keys, rest := [], m.Keys;
    var i := 0;
    while i < |order|
      invariant 0 <= i <= |order|
      invariant keys == Present(order[..i], m) && rest == m.Keys - Elements(order[..i])
    {
      PresentNext(order, i, m);
      assert order[..i + 1] == order[..i] + [order[i]];
      if order[i] in m {
        keys := keys + [order[i]];
      }
      rest := rest - {order[i]};
      i := i + 1;
    }
    assert order[..i] == order;
  }

  method OrderCategories(m: map<string, seq<string>>) returns (c: Categories)
    ensures c == Ordered(m)
  {
    var keys, rest := PresentKeys(CATEGORY_ORDER, m);
    var others := SortNames(rest);
    c := Dict(keys + others, m);
  }

  method MergeCategories(existing: Categories, new_: Categories) returns (c: Categories)
    requires existing.Valid() && new_.Valid()
    ensures c == Merge(existing, new_)
  {
    var combined := ExtendAll(map[], existing);
    CombineEmpty(existing.at);
    combined := ExtendAll(combined, new_);
    c := OrderCategories(combined);
  }

  lemma StepValid(p: Parser, line: string)
    requires p.categories.Valid() && (p.current.Some? ==> p.current.value in p.categories.at)
    ensures StepLine(p, line).categories.Valid()
    ensures StepLine(p, line).current.Some? ==> StepLine(p, line).current.value in StepLine(p, line).categories.at
  {
    var name := CategoryOf(line);
    if name.Some? && name.value !in p.categories.at {
      var keys := p.categories.keys;
      assert forall k :: k in keys + [name.value] <==> k in keys || k == name.value;
      assert forall i :: 0 <= i < |keys| ==> keys[i] in keys;
    }
  }

  lemma {:induction false} ParseValid(p: Parser, lines: seq<string>)
    requires p.categories.Valid() && (p.current.Some? ==> p.current.value in p.categories.at)
    ensures ParseLines(p, lines).categories.Valid()
    decreases |lines|
  {
    if lines != [] {
      StepValid(p, lines[0]);
      ParseValid(StepLine(p, lines[0]), lines[1..]);
    }
  }

  lemma ParsedValid(text: string, version: string)
    ensures ParseFragment(text).Valid() && Existing(Lines(text), version).Valid()
  {
    var lines := Lines(text);
    ParseValid(START, StripBreaks(lines));
    if HasVersion(lines, version) {
      ParseValid(START, lines[FindVersion(lines, version, 0) + 1..SectionEnd(lines, version)]);
    }
  }

  lemma NextFragment(fragments: seq<string>, i: nat)
    requires i < |fragments|
    ensures CombineAll(fragments[..i + 1]) == Combine(CombineAll(fragments[..i]), ParseFragment(fragments[i]).at)
  {
    assert fragments[..i + 1] == fragments[..i] + [fragments[i]];
    CombineAllLast(fragments[..i], fragments[i]);
  }

  method AggregateFragments(fragments: seq<string>) returns (c: Categories)
    ensures c == Aggregate(fragments)
  {
    var merged: map<string, seq<string>> := map[];
    var i := 0;
    while i < |fragments|
      invariant 0 <= i <= |fragments|
      invariant merged == CombineAll(fragments[..i])
    {
      var parsed := ParseFragmentText(fragments[i]);
      ParsedValid(fragments[i], "");
      merged := ExtendAll(merged, parsed);
      NextFragment(fragments, i);
      i := i + 1;
    }
    assert fragments[..i] == fragments;
    c := OrderCategories(merged);
  }

  method BuildVersionSection(version: string, date: string, c: Categories) returns (section: string)
    requires c.Valid()
    ensures section == BuildSection(version, date, c)
  {
    var lines := [HeadingLine(version, date), ""];
    var i := 0;
    while i < |c.keys|
      invariant 0 <= i <= |c.keys| && |lines| >= 1
      invariant lines + CategoryLines(c.keys[i..], c.at) == SectionLines(version, date, c)
    {
      assert c.keys[i] in c.keys;
      CategoryLinesStep(c, i);
      var here := [CATEGORY + c.keys[i]] + c.at[c.keys[i]] + [""];
      AppendAssociative(lines, here, CategoryLines(c.keys[i + 1..], c.at));
      lines := lines + here;
      i := i + 1;
    }
    assert CategoryLines(c.keys[i..], c.at) == [];
    assert lines + [] == lines;
    section := Join(lines, '\n');
  }

  // ---------------------------------------------------------------------------
  // The component
  // ---------------------------------------------------------------------------

  /** The text up to a line boundary is the lines before it. */
  lemma OffsetSlices(content: string, i: nat)
    requires i <= |Lines(content)|
    ensures |Concat(Lines(content)[..i])| <= |content|
    ensures content[..|Concat(Lines(content)[..i])|] == Concat(Lines(content)[..i])
    ensures content[|Concat(Lines(content)[..i])|..] == Concat(Lines(content)[i..])
  {
    var lines := Lines(content);
    ConcatLines(content);
    assert lines == lines[..i] + lines[i..];
    ConcatAppend(lines[..i], lines[i..]);
    assert content == Concat(lines[..i]) + Concat(lines[i..]);
  }

  /** Names that `collect_fragments` takes: the suffix of the path is ".md". */
  predicate IsFragmentName(name: string) {
    |name| > 3 && name[|name| - 3..] == ".md"
  }

  /** That is, anything but the bare suffix that ends in it. */
  lemma FragmentNameIff(name: string)
    ensures IsFragmentName(name) <==> exists stem :: stem != "" && name == stem + ".md"
  {
    if IsFragmentName(name) {
      assert name == name[..|name| - 3] + ".md";
    }
    forall stem | stem != "" && name == stem + ".md" ensures IsFragmentName(name) {
      assert name[|stem|..] == ".md";
    }
  }

  ghost function FragmentNames(dir: map<string, string>): set<string> {
    set n | n in dir && IsFragmentName(n)
  }

  ghost function TextsOf(dir: map<string, string>, names: seq<string>): (r: seq<string>)
    requires forall i :: 0 <= i < |names| ==> names[i] in dir
    ensures |r| == |names| && forall i :: 0 <= i < |r| ==> r[i] == dir[names[i]]
  {
    seq(|names|, i requires 0 <= i < |names| => dir[names[i]])
  }

  method ReadTexts(dir: map<string, string>, names: seq<string>) returns (texts: seq<string>)
    requires forall i :: 0 <= i < |names| ==> names[i] in dir
    ensures texts == TextsOf(dir, names)
  {
    texts := [];
    var i := 0;
    while i < |names|
      invariant 0 <= i <= |names| && texts == TextsOf(dir, names)[..i]
    {
      texts := texts + [dir[names[i]]];
      i := i + 1;
    }
  }

  /** The fragment texts in the order in which they are promoted. */
  ghost function Collected(dir: map<string, string>): seq<string> {
    NamesInDir(dir);
    TextsOf(dir, SortedKeys(FragmentNames(dir)))
  }

  lemma NamesInDir(dir: map<string, string>)
    ensures forall i :: 0 <= i < |SortedKeys(FragmentNames(dir))| ==> SortedKeys(FragmentNames(dir))[i] in dir
  {
    var names := SortedKeys(FragmentNames(dir));
    forall i | 0 <= i < |names| ensures names[i] in dir {
      assert names[i] in Elements(names);
    }
  }

  /** Two batches whose names do not interleave are collected one after the other. */
  lemma CollectedBatches(d1: map<string, string>, d2: map<string, string>)
    requires forall x, y :: x in FragmentNames(d1) && y in FragmentNames(d2) ==> Less(x, y)
    ensures Collected(d1 + d2) == Collected(d1) + Collected(d2)
  {
    var n1, n2 := FragmentNames(d1), FragmentNames(d2);
    assert FragmentNames(d1 + d2) == n1 + n2;
    SortedKeysUnion(n1, n2);
    NamesInDir(d1);
    NamesInDir(d2);
    NamesInDir(d1 + d2);
    var k1, k2 := SortedKeys(n1), SortedKeys(n2);
    forall i | 0 <= i < |k1| ensures k1[i] !in d2 || !IsFragmentName(k1[i]) {
      assert k1[i] in Elements(k1);
      LessIrreflexive(k1[i]);
    }
    FragmentNamesOnly(d1);
    TextsAppend(d1, d2, k1, k2);
  }

  lemma FragmentNamesOnly(dir: map<string, string>)
    ensures forall i :: 0 <= i < |SortedKeys(FragmentNames(dir))| ==> IsFragmentName(SortedKeys(FragmentNames(dir))[i])
  {
    var names := SortedKeys(FragmentNames(dir));
    forall i | 0 <= i < |names| ensures IsFragmentName(names[i]) {
      assert names[i] in Elements(names);
    }
  }

  lemma TextsAppend(d1: map<string, string>, d2: map<string, string>, k1: seq<string>, k2: seq<string>)
    requires forall i :: 0 <= i < |k1| ==> k1[i] in d1 && k1[i] !in d2
    requires forall i :: 0 <= i < |k2| ==> k2[i] in d2
    ensures forall i :: 0 <= i < |k1 + k2| ==> (k1 + k2)[i] in d1 + d2
    ensures TextsOf(d1 + d2, k1 + k2) == TextsOf(d1, k1) + TextsOf(d2, k2)
  {
  }

  class Component {
    var changelog: string
    var unreleased: map<string, string>

    constructor (changelog: string, unreleased: map<string, string>)
      ensures this.changelog == changelog && this.unreleased == unreleased
    {
      this.changelog := changelog;
      this.unreleased := unreleased;
    }

    method CollectFragments() returns (names: seq<string>)
      ensures names == SortedKeys(FragmentNames(unreleased))
    {
      names := SortNames(set n | n in unreleased && IsFragmentName(n));
    }

    method InsertNewSection(version: string, section: string)
      requires !HasVersion(Lines(changelog), version)
      modifies this`changelog
      ensures changelog == Splice(old(changelog), version, section)
    {
      var pos := FindInsertPosition(changelog);
      OffsetSlices(changelog, NextHeading(Lines(changelog), 0));
      changelog := changelog[..pos] + (section + NEWLINE) + changelog[pos..];
    }

    method ReplaceSection(version: string, section: string)
      requires HasVersion(Lines(changelog), version)
      modifies this`changelog
      ensures changelog == Splice(old(changelog), version, section)
    {
      var _, start, end := ParseChangelogSection(changelog, version);
      OffsetSlices(changelog, SectionStart(Lines(changelog), version));
      OffsetSlices(changelog, SectionEnd(Lines(changelog), version));
      changelog := changelog[..start] + (section + NEWLINE) + changelog[end..];
    }

    method PromoteTexts(version: string, date: string, texts: seq<string>)
      requires texts != []
      modifies this`changelog
      ensures changelog == PromoteText(old(changelog), version, date, texts)
    {
      var newCategories := AggregateFragments(texts);
      OrderedValid(CombineAll(texts));
      var found := ChangelogHasVersion(changelog, version);
      var merged := newCategories;
      CombineEmpty(newCategories.at);
      if found {
        var existing, _, _ := ParseChangelogSection(changelog, version);
        ParsedValid(changelog, version);
        merged := MergeCategories(existing, newCategories);
        OrderedValid(Combine(existing.at, newCategories.at));
      }
      var section := BuildVersionSection(version, date, merged);
      if found {
        ReplaceSection(version, section);
      } else {
        InsertNewSection(version, section);
      }
    }

    /** One pass of `promote_mode` over this component: the fragments go into the changelog and are
        removed; everything else in the directory stays. */
    method Promote(version: string, date: string)
      modifies this`changelog, this`unreleased
      ensures version == "" ==> changelog == old(changelog) && unreleased == old(unreleased)
      ensures version != "" ==>
                && changelog == PromoteText(old(changelog), version, date, Collected(old(unreleased)))
                && unreleased == old(unreleased) - FragmentNames(old(unreleased))
    {
      if version == "" {
        return;
      }
      var dir := unreleased;
      var names := CollectFragments();
      NamesInDir(dir);
      NoElements(names);
      if names == [] {
        assert dir - FragmentNames(dir) == dir;
        return;
      }
      var texts := ReadTexts(dir, names);
      PromoteTexts(version, date, texts);
      unreleased := dir - (set n | n in names);
    }
  }

  /** Two promotions of named batches, on one day, against one promotion of both. */
  lemma TwoNamedBatches(content: string, version: string, date: string, d1: map<string, string>,
                        d2: map<string, string>)
    requires VersionOk(version) && NoInnerBracket(version) && BreakFree(date) && PreambleOk(content, version)
    requires NoHeadingBullets(CombineAll(Collected(d1)))
    requires forall x, y :: x in FragmentNames(d1) && y in FragmentNames(d2) ==> Less(x, y)
    ensures PromoteText(PromoteText(content, version, date, Collected(d1)), version, date, Collected(d2))
            == PromoteText(content, version, date, Collected(d1 + d2))
  {
    CollectedBatches(d1, d2);
    TwoBatches(content, version, date, Collected(d1), Collected(d2));
  }
}
