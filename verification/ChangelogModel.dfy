/** Parsing, merging, printing and splicing of changelog sections: scripts/promote_changelogs.py. */
module ChangelogModel {
  import opened Text
  import opened OrderedDict
  import opened ChangelogLines

  // ---------------------------------------------------------------------------
  // Categories
  // ---------------------------------------------------------------------------

  /** An ordered dictionary from category names to bullet lines. */
  type Categories = Dict<seq<string>>

  const NO_CATEGORIES: Categories := Dict([], map[])

  function Get(m: map<string, seq<string>>, k: string): seq<string> {
    if k in m then m[k] else []
  }

  function AddKey(c: Categories, k: string): Categories {
    if k in c.at then c else Dict(c.keys + [k], c.at[k := []])
  }

  function AddBullet(c: Categories, k: string, line: string): Categories {
    c.(at := c.at[k := Get(c.at, k) + [line]])
  }

  /** What the line loops carry: the dictionary and the category that is open. */
  datatype Parser = Parser(categories: Categories, current: Option<string>)

  const START: Parser := Parser(NO_CATEGORIES, None)

  function StepLine(p: Parser, line: string): Parser {
    var name := CategoryOf(line);
    if name.Some? then Parser(AddKey(p.categories, name.value), name)
    else if p.current.Some? && !IsBlank(line)
    then p.(categories := AddBullet(p.categories, p.current.value, DropNewline(line)))
    else p
  }

  function ParseLines(p: Parser, lines: seq<string>): Parser
    decreases |lines|
  {
    if lines == [] then p else ParseLines(StepLine(p, lines[0]), lines[1..])
  }

  function StripBreaks(lines: seq<string>): (r: seq<string>)
    ensures |r| == |lines|
    ensures forall i :: 0 <= i < |r| ==> r[i] == DropBreak(lines[i])
  {
    seq(|lines|, i requires 0 <= i < |lines| => DropBreak(lines[i]))
  }

  function ParseFragment(text: string): Categories {
    ParseLines(START, StripBreaks(Lines(text))).categories
  }

  // ---------------------------------------------------------------------------
  // Merging
  // ---------------------------------------------------------------------------

  const CATEGORY_ORDER: seq<string> := ["Added", "Changed", "Fixed", "Removed"]

  /** Bullets of both, those of `a` first. */
  function Combine(a: map<string, seq<string>>, b: map<string, seq<string>>): map<string, seq<string>> {
    map k | k in a.Keys + b.Keys :: Get(a, k) + Get(b, k)
  }

  function Present(order: seq<string>, m: map<string, seq<string>>): seq<string> {
    if order == [] then []
    else (if order[0] in m then [order[0]] else []) + Present(order[1..], m)
  }

  /** The standard categories in their order, then the others sorted. */
  ghost function Ordered(m: map<string, seq<string>>): Categories {
    Dict(Present(CATEGORY_ORDER, m) + SortedKeys(m.Keys - Elements(CATEGORY_ORDER)), m)
  }

  ghost function Merge(existing: Categories, new_: Categories): Categories {
    Ordered(Combine(existing.at, new_.at))
  }

  function CombineAll(fragments: seq<string>): map<string, seq<string>> {
    if fragments == [] then map[]
    else
      Combine(CombineAll(fragments[..|fragments| - 1]), ParseFragment(fragments[|fragments| - 1]).at)
  }

  ghost function Aggregate(fragments: seq<string>): Categories {
    Ordered(CombineAll(fragments))
  }

  // ---------------------------------------------------------------------------
  // Printing
  // ---------------------------------------------------------------------------

  function CategoryLines(keys: seq<string>, m: map<string, seq<string>>): seq<string> {
    if keys == [] then []
    else [CATEGORY + keys[0]] + Get(m, keys[0]) + [""] + CategoryLines(keys[1..], m)
  }

  function HeadingLine(version: string, date: string): string {
    HEADING + version + "]" + (" - " + date)
  }

  function SectionLines(version: string, date: string, c: Categories): seq<string> {
    [HeadingLine(version, date), ""] + CategoryLines(c.keys, c.at)
  }

  function BuildSection(version: string, date: string, c: Categories): string {
    Join(SectionLines(version, date, c), '\n')
  }

  // ---------------------------------------------------------------------------
  // Locating and splicing
  // ---------------------------------------------------------------------------

  /** The first line from `from` on that is a heading of the version; the number of lines if none. */
  function FindVersion(lines: seq<string>, version: string, from: nat): (i: nat)
    requires from <= |lines|
    ensures from <= i <= |lines|
    ensures forall j :: from <= j < i ==> HeadingOf(lines[j]) != Some(version)
    ensures i < |lines| ==> HeadingOf(lines[i]) == Some(version)
    decreases |lines| - from
  {
    if from == |lines| || HeadingOf(lines[from]) == Some(version) then from
    else FindVersion(lines, version, from + 1)
  }

  /** The first heading from `from` on; the number of lines if none. */
  function NextHeading(lines: seq<string>, from: nat): (i: nat)
    requires from <= |lines|
    ensures from <= i <= |lines|
    ensures forall j :: from <= j < i ==> !IsHeading(lines[j])
    ensures i < |lines| ==> IsHeading(lines[i])
    decreases |lines| - from
  {
    if from == |lines| || IsHeading(lines[from]) then from else NextHeading(lines, from + 1)
  }

  predicate HasVersion(lines: seq<string>, version: string) {
    FindVersion(lines, version, 0) < |lines|
  }

  /** The lines a promotion replaces: the section of the version, or nothing, where it will go. */
  function SectionStart(lines: seq<string>, version: string): (i: nat)
    ensures i <= |lines|
  {
    if HasVersion(lines, version) then FindVersion(lines, version, 0) else NextHeading(lines, 0)
  }

  function SectionEnd(lines: seq<string>, version: string): (j: nat)
    ensures SectionStart(lines, version) <= j <= |lines|
  {
    if HasVersion(lines, version) then NextHeading(lines, FindVersion(lines, version, 0) + 1) else NextHeading(lines, 0)
  }

  function Existing(lines: seq<string>, version: string): Categories {
    if HasVersion(lines, version)
    then ParseLines(START, lines[FindVersion(lines, version, 0) + 1..SectionEnd(lines, version)]).categories
    else NO_CATEGORIES
  }

  function Splice(content: string, version: string, section: string): string {
    var lines := Lines(content);
    Concat(lines[..SectionStart(lines, version)]) + (section + NEWLINE) + Concat(lines[SectionEnd(lines, version)..])
  }

  /** The changelog after promoting the fragments, given in the order in which they are collected. */
  ghost function PromoteText(content: string, version: string, date: string, fragments: seq<string>): string {
    if fragments == [] then content
    else
      Splice(content, version,
             BuildSection(version, date, Merge(Existing(Lines(content), version), Aggregate(fragments))))
  }
}
