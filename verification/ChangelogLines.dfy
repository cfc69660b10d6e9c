/** Lines of text as Python's `str.splitlines` cuts them, and the two patterns of
    scripts/promote_changelogs.py. Texts are what `read_text` returns, so carriage returns have been
    translated to newlines already. */
module ChangelogLines {
  import opened Text

  const NEWLINE: string := "\n"

  /** The characters `splitlines` breaks lines at. */
  predicate IsBreak(c: char) {
    c == '\n' || c == '\U{000B}' || c == '\U{000C}' || c == '\U{001C}' || c == '\U{001D}' || c == '\U{001E}'
    || c == '\U{0085}' || c == '\U{2028}' || c == '\U{2029}'
  }

  /** The characters `strip` removes. */
  predicate IsSpace(c: char) {
    || IsBreak(c) || c == '\t' || c == '\r' || c == ' ' || c == '\U{001F}' || c == '\U{00A0}' || c == '\U{1680}'
    || '\U{2000}' <= c <= '\U{200A}' || c == '\U{202F}' || c == '\U{205F}' || c == '\U{3000}'
  }

  /** By code points: line feed, vertical tab, form feed, the file, group and record separators, next line, and the
      line and paragraph separators. */
  lemma BreakCodes(c: char)
    ensures IsBreak(c) <==> c as int in {10, 11, 12, 28, 29, 30, 133, 8232, 8233}
  {
  }

  /** Besides these: tab, carriage return, the unit separator, and the spaces of Unicode. */
  lemma SpaceCodes(c: char)
    ensures IsSpace(c) <==> IsBreak(c) || 8192 <= c as int <= 8202
                            || c as int in {9, 13, 31, 32, 160, 5760, 8239, 8287, 12288}
  {
  }

  /** Whether `line.strip()` is empty. */
  predicate IsBlank(line: string) {
    forall i :: 0 <= i < |line| ==> IsSpace(line[i])
  }

  lemma BlankIff(line: string)
    ensures IsBlank(line) <==> forall c :: c in line ==> IsSpace(c)
  {
  }

  predicate BreakFree(s: string) {
    forall i :: 0 <= i < |s| ==> !IsBreak(s[i])
  }

  predicate EndsWithBreak(s: string) {
    s != [] && IsBreak(s[|s| - 1])
  }

  /** The length of the first line, its break included. */
  function FirstLine(s: string): (n: nat)
    ensures n <= |s|
    ensures s != [] ==> n > 0
  {
    if s == [] then 0 else if IsBreak(s[0]) then 1 else 1 + FirstLine(s[1..])
  }

  /** `s.splitlines(keepends=True)`. */
  function Lines(s: string): seq<string>
    decreases |s|
  {
    if s == [] then [] else [s[..FirstLine(s)]] + Lines(s[FirstLine(s)..])
  }

  function Concat(ls: seq<string>): string {
    if ls == [] then [] else ls[0] + Concat(ls[1..])
  }

  /** A line as `splitlines` makes it: nothing follows a break. */
  predicate IsLine(l: string) {
    l != [] && BreakFree(l[..|l| - 1])
  }

  /** The lines of some text: all are lines, and all but the last end with a break. */
  predicate AreLines(ls: seq<string>) {
    && (forall i :: 0 <= i < |ls| ==> IsLine(ls[i]))
    && (forall i :: 0 <= i < |ls| - 1 ==> EndsWithBreak(ls[i]))
  }

  lemma {:induction false} FirstLineShape(s: string)
    requires s != []
    ensures IsLine(s[..FirstLine(s)])
    ensures FirstLine(s) < |s| ==> EndsWithBreak(s[..FirstLine(s)])
  {
    if !IsBreak(s[0]) && s[1..] != [] {
      FirstLineShape(s[1..]);
      var n := FirstLine(s[1..]);
      var l := s[1..][..n];
      assert s[..n + 1] == [s[0]] + l;
      assert s[..n + 1][..n] == [s[0]] + l[..n - 1];
      assert s[..n + 1][n] == l[n - 1];
    }
  }

  lemma {:induction false} LinesShape(s: string)
    ensures AreLines(Lines(s))
    decreases |s|
  {
    if s != [] {
      FirstLineShape(s);
      LinesShape(s[FirstLine(s)..]);
    }
  }

  lemma {:induction false} ConcatLines(s: string)
    ensures Concat(Lines(s)) == s
    decreases |s|
  {
    if s != [] {
      ConcatLines(s[FirstLine(s)..]);
      assert Lines(s)[1..] == Lines(s[FirstLine(s)..]);
    }
  }

  lemma {:induction false} FirstLineOf(l: string, rest: string)
    requires IsLine(l) && (EndsWithBreak(l) || rest == [])
    ensures FirstLine(l + rest) == |l|
  {
    if |l| > 1 {
      assert l[0] == l[..|l| - 1][0];
      assert (l + rest)[1..] == l[1..] + rest;
      assert l[1..][..|l[1..]| - 1] == l[..|l| - 1][1..];
      FirstLineOf(l[1..], rest);
    } else if rest == [] {
      assert (l + rest)[1..] == [];
    }
  }

  /** Lines put together and cut again: the round trip in the other direction. */
  lemma {:induction false} LinesConcat(ls: seq<string>)
    requires AreLines(ls)
    ensures Lines(Concat(ls)) == ls
  {
    if ls != [] {
      var rest := Concat(ls[1..]);
      LinesConcat(ls[1..]);
      assert |ls| == 1 ==> rest == [];
      FirstLineOf(ls[0], rest);
      var s := ls[0] + rest;
      assert s[..|ls[0]|] == ls[0] && s[|ls[0]|..] == rest;
    }
  }

  lemma {:induction false} ConcatAppend(a: seq<string>, b: seq<string>)
    ensures Concat(a + b) == Concat(a) + Concat(b)
  {
    if a == [] {
      assert a + b == b;
    } else {
      ConcatAppend(a[1..], b);
      assert (a + b)[0] == a[0] && (a + b)[1..] == a[1..] + b;
      AppendAssociative(a[0], Concat(a[1..]), Concat(b));
    }
  }

  /** Lists of lines may be joined when the first ends with a break. */
  lemma AreLinesAppend(a: seq<string>, b: seq<string>)
    requires AreLines(a) && AreLines(b)
    requires a == [] || b == [] || EndsWithBreak(a[|a| - 1])
    ensures AreLines(a + b)
  {
  }

  // ---------------------------------------------------------------------------
  // Patterns
  // ---------------------------------------------------------------------------

  const HEADING: string := "## ["
  const CATEGORY: string := "### "

  /** Group 1 of the heading pattern: at least one character up to the next closing bracket. */
  function HeadingOf(line: string): Option<string> {
    if !(HEADING <= line) then None
    else
      var rest := line[|HEADING|..];
      if rest != [] && rest[0] != '\n' && ']' in rest[1..] then Some([rest[0]] + Before(rest[1..], ']')) else None
  }

  /** Group 1 of the category pattern: the rest of the line, when there is any. */
  function CategoryOf(line: string): Option<string> {
    if !(CATEGORY <= line) then None
    else
      var name := Before(line[|CATEGORY|..], '\n');
      if name == [] then None else Some(name)
  }

  predicate IsHeading(line: string) {
    HeadingOf(line).Some?
  }

  /** `line.rstrip("\n")`, for a line, which has at most one newline. */
  function DropNewline(line: string): string {
    if line != [] && line[|line| - 1] == '\n' then line[..|line| - 1] else line
  }

  /** The line without its break, as `splitlines()` gives it. */
  function DropBreak(line: string): string {
    if EndsWithBreak(line) then line[..|line| - 1] else line
  }

  /** What a changelog line can be printed from: no newline in it, and a break of another kind only at
      its end. */
  predicate IsItem(l: string) {
    '\n' !in l && (l == [] || IsLine(l))
  }

  lemma HeadingHasNoNewline()
    ensures '\n' !in HEADING && '\n' !in CATEGORY
  {
    assert HEADING == ['#', '#', ' ', '['] && CATEGORY == ['#', '#', '#', ' '];
  }

  /** A prefix without newline is not completed by a newline put at the end. */
  lemma PrefixNewline(p: string, l: string)
    requires '\n' !in p
    ensures p <= l + NEWLINE <==> p <= l
  {
    assert (l + NEWLINE)[|l|] == '\n';
    assert p <= l + NEWLINE ==> forall i :: 0 <= i < |p| ==> (l + NEWLINE)[i] == p[i];
    if |p| <= |l| {
      assert (l + NEWLINE)[..|p|] == l[..|p|];
    }
  }

  lemma BeforeAppend(s: string, c: char, t: string)
    requires c in s || c !in t
    ensures c in s ==> Before(s + t, c) == Before(s, c)
    ensures c in s + t <==> c in s
  {
    if c in s {
      var h, r := Before(s, c), After(s, c);
      assert s + t == h + [c] + (r + t);
      BeforeUnique(h, c, r + t);
      assert (s + t)[|h|] == c;
    }
  }

  /** The patterns do not see the newline at the end of a line. */
  lemma PatternsIgnoreNewline(l: string)
    requires '\n' !in l
    ensures HeadingOf(l + NEWLINE) == HeadingOf(l)
    ensures CategoryOf(l + NEWLINE) == CategoryOf(l)
    ensures IsBlank(l + NEWLINE) <==> IsBlank(l)
    ensures DropNewline(l + NEWLINE) == l && DropNewline(l) == l
  {
    HeadingHasNoNewline();
    PrefixNewline(HEADING, l);
    PrefixNewline(CATEGORY, l);
    HeadingIgnoresNewline(l);
    CategoryIgnoresNewline(l);
    assert (l + NEWLINE)[|l|] == '\n';
    assert forall i :: 0 <= i < |l| ==> (l + NEWLINE)[i] == l[i];
  }

  lemma HeadingIgnoresNewline(l: string)
    requires '\n' !in l && (HEADING <= l + NEWLINE <==> HEADING <= l)
    ensures HeadingOf(l + NEWLINE) == HeadingOf(l)
  {
    if HEADING <= l {
      var rest := l[|HEADING|..];
      assert (l + NEWLINE)[|HEADING|..] == rest + NEWLINE;
      if rest == [] {
        assert (rest + NEWLINE)[0] == '\n';
      } else {
        assert (rest + NEWLINE)[1..] == rest[1..] + NEWLINE;
        assert ']' !in NEWLINE;
        BeforeAppend(rest[1..], ']', NEWLINE);
        assert rest[0] in l;
      }
    }
  }

  lemma CategoryIgnoresNewline(l: string)
    requires '\n' !in l && (CATEGORY <= l + NEWLINE <==> CATEGORY <= l)
    ensures CategoryOf(l + NEWLINE) == CategoryOf(l)
  {
    if CATEGORY <= l {
      var rest := l[|CATEGORY|..];
      assert (l + NEWLINE)[|CATEGORY|..] == rest + ['\n'] + [];
      BeforeUnique(rest, '\n', []);
    }
  }

  /** A category line names the category, with or without its line break. */
  lemma PrintedCategory(name: string)
    requires name != [] && '\n' !in name
    ensures CategoryOf("### " + name) == Some(name) == CategoryOf("### " + name + NEWLINE)
  {
    assert ("### " + name)[|CATEGORY|..] == name;
    assert ("### " + name + NEWLINE)[|CATEGORY|..] == name + ['\n'] + [];
    BeforeUnique(name, '\n', []);
  }

  /** The heading of a printed section names its version, exactly when no closing bracket occurs in the
      version after its first character. */
  lemma PrintedHeading(version: string, tail: string)
    requires version != [] && '\n' !in version
    ensures var h := HeadingOf("## [" + version + "]" + tail);
            h.Some? && (h == Some(version) <==> ']' !in version[1..])
  {
    var line, r := HEADING + version + "]" + tail, version[1..];
    var rest := line[|HEADING|..];
    assert line[..|HEADING|] == HEADING;
    assert rest == [version[0]] + (r + [']'] + tail);
    assert version[0] in version;
    FirstBracket(r, tail);
    assert rest[1..] == r + [']'] + tail;
    assert version == [version[0]] + r;
  }

  lemma FirstBracket(r: string, tail: string)
    ensures ']' in r + [']'] + tail
    ensures Before(r + [']'] + tail, ']') == r <==> ']' !in r
  {
    assert (r + [']'] + tail)[|r|] == ']';
    if ']' in r {
      BeforeAppend(r, ']', [']'] + tail);
      assert r + ([']'] + tail) == r + [']'] + tail;
    } else {
      BeforeUnique(r, ']', tail);
    }
  }

  /** A heading pattern never yields a closing bracket after the first character. */
  lemma HeadingShape(line: string)
    ensures HeadingOf(line).Some? ==> HeadingOf(line).value != [] && ']' !in HeadingOf(line).value[1..]
  {
    if HeadingOf(line).Some? {
      var rest := line[|HEADING|..];
      assert HeadingOf(line).value[1..] == Before(rest[1..], ']');
    }
  }
}
