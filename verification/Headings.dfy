// Cutting a document into sections at its heading lines.
module Headings {
  import opened Wrappers
  import opened Text

  /** Whether a line equals its upper-case form; case mapping is Unicode's, so a parameter. */
  type Case = string -> bool

  /** Which lines are headings, and what text a heading line leaves. */
  datatype Rule = Rule(isHeading: string -> bool, textOf: string -> string)

  function TrimmedText(line: string): string {
    HeadingText(Trim(line))
  }

  function HeadingRule(upper: Case): Rule {
    Rule(line => IsHeading(upper, Trim(line)), TrimmedText)
  }

  datatype Section = Section(heading: Option<string>, text: string)

  function HashRun(s: string): (n: nat)
    ensures n <= |s|
  {
    if s != "" && s[0] == '#' then HashRun(s[1..]) + 1 else 0
  }

  predicate HasUpper(s: string) {
    exists i :: 0 <= i < |s| && 'A' <= s[i] <= 'Z'
  }

  predicate HasLower(s: string) {
    exists i :: 0 <= i < |s| && 'a' <= s[i] <= 'z'
  }

  /** /^#{1,6}\s+\S/ */
  predicate IsMarkdownHeading(line: string) {
    var rest := line[HashRun(line)..];
    1 <= HashRun(line) <= 6 && 0 < SpaceRun(rest) < |rest|
  }

  predicate IsHeading(upper: Case, line: string) {
    || IsMarkdownHeading(line)
    || (|line| >= 3 && upper(line) && HasUpper(line) && !HasLower(line))
  }

  /** line.replace(/^#+\s*\/, '') */
  function HeadingText(line: string): string {
    if HashRun(line) == 0 then line else TrimStart(line[HashRun(line)..])
  }

  lemma {:induction false} KeepsUpper(s: string)
    requires HasUpper(s)
    ensures HasUpper(TrimStart(s)) && HasUpper(s[HashRun(s)..])
  {
    var i :| 0 <= i < |s| && 'A' <= s[i] <= 'Z';
    if IsSpace(s[0]) {
      assert s[1..][i - 1] == s[i];
      KeepsUpper(s[1..]);
    } else if s[0] == '#' {
      assert s[1..][i - 1] == s[i];
      KeepsUpper(s[1..]);
      assert s[HashRun(s)..] == s[1..][HashRun(s[1..])..];
    } else {
      assert s[0..] == s;
    }
  }

  lemma TextNotEmpty(upper: Case, line: string)
    requires IsHeading(upper, line)
    ensures HeadingText(line) != ""
  {
    var rest := line[HashRun(line)..];
    if IsMarkdownHeading(line) {
      TrimStartIs(rest);
    } else {
      KeepsUpper(line);
      if HashRun(line) > 0 {
        KeepsUpper(rest);
      }
    }
  }

  /** A heading line never leaves an empty heading. */
  lemma HeadingNotEmpty(upper: Case, line: string)
    requires HeadingRule(upper).isHeading(line)
    ensures HeadingRule(upper).textOf(line) != ""
  {
    TextNotEmpty(upper, Trim(line));
  }

  // ---------------------------------------------------------------- which lines are headings

  predicate Hashes(s: string) {
    forall i :: 0 <= i < |s| ==> s[i] == '#'
  }

  /** One to six hash marks, white space and more. */
  predicate MarkdownParts(t: string, hashes: string, space: string, text: string) {
    && t == hashes + space + text && Hashes(hashes) && 1 <= |hashes| <= 6
    && AllSpace(space) && space != "" && text != "" && !IsSpace(text[0])
  }

  ghost predicate Markdown(t: string) {
    exists hashes, space, text :: MarkdownParts(t, hashes, space, text)
  }

  lemma {:induction false} HashRunIs(s: string)
    ensures Hashes(s[..HashRun(s)]) && (HashRun(s) < |s| ==> s[HashRun(s)] != '#')
  {
    if s != "" && s[0] == '#' {
      HashRunIs(s[1..]);
      assert s[..HashRun(s)] == [s[0]] + s[1..][..HashRun(s[1..])];
    }
  }

  lemma {:induction false} HashRunOf(hashes: string, rest: string)
    requires Hashes(hashes) && (rest != "" ==> rest[0] != '#')
    ensures HashRun(hashes + rest) == |hashes| && (hashes + rest)[|hashes|..] == rest
  {
    if hashes == "" {
      assert hashes + rest == rest;
    } else {
      HashRunOf(hashes[1..], rest);
      assert (hashes + rest)[1..] == hashes[1..] + rest;
    }
  }

  lemma {:induction false} SpaceRunOf(space: string, rest: string)
    requires AllSpace(space) && (rest != "" ==> !IsSpace(rest[0]))
    ensures SpaceRun(space + rest) == |space| && (space + rest)[|space|..] == rest
  {
    if space == "" {
      assert space + rest == rest;
    } else {
      SpaceRunOf(space[1..], rest);
      assert (space + rest)[1..] == space[1..] + rest;
    }
  }

  lemma PartsOf(t: string, hashes: string, space: string, text: string)
    requires MarkdownParts(t, hashes, space, text)
    ensures IsMarkdownHeading(t) && HeadingText(t) == text
  {
    assert t == hashes + (space + text);
    assert IsSpace(space[0]) && (space + text)[0] == space[0];
    HashRunOf(hashes, space + text);
    SpaceRunOf(space, text);
    TrimStartIs(space + text);
  }

  lemma HasParts(t: string)
    requires IsMarkdownHeading(t)
    ensures Markdown(t)
  {
    var n := HashRun(t);
    var rest := t[n..];
    HashRunIs(t);
    RunIsSpace(rest);
    assert MarkdownParts(t, t[..n], rest[..SpaceRun(rest)], rest[SpaceRun(rest)..]);
  }

  lemma MarkdownIff(t: string)
    ensures IsMarkdownHeading(t) <==> Markdown(t)
  {
    hide IsMarkdownHeading, MarkdownParts, HeadingText;
    if IsMarkdownHeading(t) {
      HasParts(t);
    }
    if Markdown(t) {
      var hashes, space, text :| MarkdownParts(t, hashes, space, text);
      PartsOf(t, hashes, space, text);
    }
  }

  /** Three characters at least, all its letters from A to Z or the like. */
  ghost predicate Capitals(upper: Case, t: string) {
    && |t| >= 3 && upper(t)
    && (exists i :: 0 <= i < |t| && 'A' <= t[i] <= 'Z') && !exists i :: 0 <= i < |t| && 'a' <= t[i] <= 'z'
  }

  /** A line is a heading exactly if, trimmed, it is one to six hash marks, white space and more, or all
      in capitals. */
  lemma HeadingIff(upper: Case, line: string)
    ensures HeadingRule(upper).isHeading(line) <==> Markdown(Trim(line)) || Capitals(upper, Trim(line))
  {
    hide Trim, IsMarkdownHeading, Markdown;
    MarkdownIff(Trim(line));
  }

  /** The text is what is behind all the hash marks and the white space after them. */
  predicate TextBehind(t: string, hashes: string, space: string, text: string) {
    && t == hashes + space + text && Hashes(hashes) && AllSpace(space)
    && (hashes == "" ==> space == "" && (text != "" ==> text[0] != '#'))
    && (hashes != "" && text != "" ==> !IsSpace(text[0]) && (space == "" ==> text[0] != '#'))
  }

  lemma TextParts(t: string) returns (hashes: string, space: string)
    ensures TextBehind(t, hashes, space, HeadingText(t))
  {
    hide HashRun, SpaceRun, TrimStart, IsSpace;
    var n := HashRun(t);
    HashRunIs(t);
    hashes, space := t[..n], "";
    if n > 0 {
      var rest := t[n..];
      TrimStartIs(rest);
      RunIsSpace(rest);
      space := rest[..SpaceRun(rest)];
      assert rest == space + TrimStart(rest);
      assert t == hashes + rest;
    }
  }

  /** The text of a heading line, and of any other: the trimmed line without hash marks in front. */
  lemma HeadingTextIs(upper: Case, line: string) returns (hashes: string, space: string)
    ensures TextBehind(Trim(line), hashes, space, HeadingRule(upper).textOf(line))
  {
    hide Trim, HeadingText, TextBehind;
    hashes, space := TextParts(Trim(line));
  }

  ghost predicate NoEmptyHeading(r: Rule) {
    forall line :: r.isHeading(line) ==> r.textOf(line) != ""
  }

  function Lines(s: string): (lines: seq<string>)
    ensures lines != []
  {
    SplitOn(s, '\n')
  }

  /** A section for the lines collected under a heading, if there are any. */
  function Closed(heading: Option<string>, current: seq<string>): seq<Section> {
    if current != [] then [Section(heading, Join(current, "\n"))] else []
  }

  predicate Truthy(heading: Option<string>) {
    heading.Some? && heading.value != ""
  }

  /** The sections of `lines`, with `current` collected under `heading` so far. */
  function SectionsFrom(r: Rule, lines: seq<string>, heading: Option<string>, current: seq<string>): seq<Section> {
    if lines == [] then
      if current != [] || Truthy(heading) then [Section(heading, Join(current, "\n"))] else []
    else if r.isHeading(lines[0]) then
      Closed(heading, current) + SectionsFrom(r, lines[1..], Some(r.textOf(lines[0])), [])
    else SectionsFrom(r, lines[1..], heading, current + [lines[0]])
  }

  function Sections(r: Rule, text: string): (sections: seq<Section>)
    ensures sections != []
  {
    var found := SectionsFrom(r, Lines(text), None, []);
    if found == [] then [Section(None, text)] else found
  }

  method SplitIntoSections(r: Rule, text: string) returns (sections: seq<Section>)
    ensures sections == Sections(r, text)
  {
    var lines := Lines(text);
    var heading: Option<string> := None;
    var current: seq<string> := [];
    sections := [];
    for i := 0 to |lines|
      invariant SectionsFrom(r, lines, None, []) == sections + SectionsFrom(r, lines[i..], heading, current)
    {
      assert lines[i..][0] == lines[i] && lines[i..][1..] == lines[i + 1..];
      if r.isHeading(lines[i]) {
        if |current| > 0 {
          sections := sections + [Section(heading, Join(current, "\n"))];
        }
        heading := Some(r.textOf(lines[i]));
        current := [];
      } else {
        current := current + [lines[i]];
      }
    }
    if |current| > 0 || Truthy(heading) {
      sections := sections + [Section(heading, Join(current, "\n"))];
    }
    if |sections| == 0 {
      sections := [Section(None, text)];
    }
  }

  // ---------------------------------------------------------------- what the sections keep

  /** Headings are never empty, so the fallback for a text without sections is never needed. */
  lemma {:induction false} AlwaysSections(r: Rule, lines: seq<string>, heading: Option<string>, current: seq<string>)
    requires NoEmptyHeading(r)
    requires lines != [] || current != [] || Truthy(heading)
    ensures SectionsFrom(r, lines, heading, current) != []
  {
    if lines != [] {
      if r.isHeading(lines[0]) {
        AlwaysSections(r, lines[1..], Some(r.textOf(lines[0])), []);
      } else {
        AlwaysSections(r, lines[1..], heading, current + [lines[0]]);
      }
    }
  }

  /** The lines that are no headings. */
  function BodyLines(r: Rule, lines: seq<string>): seq<string> {
    if lines == [] then []
    else (if r.isHeading(lines[0]) then [] else [lines[0]]) + BodyLines(r, lines[1..])
  }

  function Bodies(sections: seq<Section>): seq<string> {
    if sections == [] then [] else [sections[0].text] + Bodies(sections[1..])
  }

  /** All the text in `parts`, without white space. */
  function All(parts: seq<string>): string {
    Squash(Concat(parts))
  }

  lemma AllOf(part: string, parts: seq<string>)
    ensures All([part] + parts) == Squash(part) + All(parts)
  {
    SquashFirstPart(part, parts);
  }

  lemma AllOne(parts: seq<string>, part: string)
    ensures All(parts + [part]) == All(parts) + Squash(part)
  {
    ConcatAppend(parts, [part]);
    SquashAppend(Concat(parts), Concat([part]));
    SquashFirstPart(part, []);
    assert [part] + [] == [part];
  }

  lemma ClosedBody(heading: Option<string>, current: seq<string>, rest: seq<Section>)
    ensures All(Bodies(Closed(heading, current) + rest)) == All(current) + All(Bodies(rest))
  {
    SquashJoin(current, "\n");
    if current != [] {
      var section := Section(heading, Join(current, "\n"));
      assert ([section] + rest)[0] == section && ([section] + rest)[1..] == rest;
      AllOf(section.text, Bodies(rest));
    } else {
      assert [] + rest == rest;
    }
  }

  lemma LastBody(heading: Option<string>, current: seq<string>)
    ensures All(Bodies([Section(heading, Join(current, "\n"))])) == All(current)
  {
    var last := Section(heading, Join(current, "\n"));
    SquashJoin(current, "\n");
    assert [last][1..] == [] && [last.text] + [] == [last.text];
    AllOf(last.text, []);
  }

  /** Every line that is no heading is in the sections, in order and once. */
  lemma {:induction false} BodiesKept(r: Rule, lines: seq<string>, heading: Option<string>, current: seq<string>)
    ensures All(Bodies(SectionsFrom(r, lines, heading, current))) == All(current) + All(BodyLines(r, lines))
  {
    if lines == [] {
      LastBody(heading, current);
    } else if r.isHeading(lines[0]) {
      var next := Some(r.textOf(lines[0]));
      BodiesKept(r, lines[1..], next, []);
      ClosedBody(heading, current, SectionsFrom(r, lines[1..], next, []));
      assert BodyLines(r, lines) == BodyLines(r, lines[1..]);
    } else {
      BodiesKept(r, lines[1..], heading, current + [lines[0]]);
      AllOne(current, lines[0]);
      AllOf(lines[0], BodyLines(r, lines[1..]));
    }
  }

  // ---------------------------------------------------------------- which headings survive

  /** The heading of every section, in order: of the lines collected so far, and of every heading
      line that no other heading follows at once. */
  function Survivors(r: Rule, lines: seq<string>): seq<Option<string>> {
    if lines == [] then []
    else Survivor(r, lines) + Survivors(r, lines[1..])
  }

  function Survivor(r: Rule, lines: seq<string>): seq<Option<string>>
    requires lines != []
  {
    var heading := Some(r.textOf(lines[0]));
    if r.isHeading(lines[0]) && Opens(r, heading, lines[1..]) then [heading] else []
  }

  /** A line that is no heading comes next, or nothing does. */
  predicate Opens(r: Rule, heading: Option<string>, lines: seq<string>) {
    if lines == [] then Truthy(heading) else !r.isHeading(lines[0])
  }

  function HeadingsOf(sections: seq<Section>): seq<Option<string>> {
    if sections == [] then [] else [sections[0].heading] + HeadingsOf(sections[1..])
  }

  /** A heading line becomes the heading of a section exactly if no other heading follows at once. */
  lemma {:induction false} HeadingSurvives(r: Rule, lines: seq<string>, heading: Option<string>, current: seq<string>)
    ensures HeadingsOf(SectionsFrom(r, lines, heading, current))
         == (if current != [] || Opens(r, heading, lines) then [heading] else []) + Survivors(r, lines)
  {
    if lines != [] {
      if r.isHeading(lines[0]) {
        var next := Some(r.textOf(lines[0]));
        HeadingSurvives(r, lines[1..], next, []);
        ClosedHeading(heading, current, SectionsFrom(r, lines[1..], next, []));
      } else {
        HeadingSurvives(r, lines[1..], heading, current + [lines[0]]);
      }
    }
  }

  lemma ClosedHeading(heading: Option<string>, current: seq<string>, rest: seq<Section>)
    ensures HeadingsOf(Closed(heading, current) + rest) == (if current != [] then [heading] else []) + HeadingsOf(rest)
  {
    if current != [] {
      var section := Section(heading, Join(current, "\n"));
      assert ([section] + rest)[0] == section && ([section] + rest)[1..] == rest;
    } else {
      assert [] + rest == rest;
    }
  }

  /** A section with its heading in front; blank sections are dropped. */
  function Content(s: Section): string {
    if Truthy(s.heading) then s.heading.value + "\n\n" + Trim(s.text) else Trim(s.text)
  }

  predicate Blank(s: Section) {
    Trim(s.text) == ""
  }

  /** The headings and bodies of all sections that are not blank, without white space. */
  function AllContents(sections: seq<Section>): string {
    if sections == [] then ""
    else
      var last := sections[|sections| - 1];
      AllContents(sections[..|sections| - 1]) + if Blank(last) then "" else Squash(Content(last))
  }

  function TextIn(heading: Option<string>): string {
    if Truthy(heading) then Squash(heading.value) else ""
  }

  function ContentIn(s: Section): string {
    if Blank(s) then "" else TextIn(s.heading) + Squash(s.text)
  }

  lemma SquashContent(s: Section)
    ensures Squash(Content(s)) == TextIn(s.heading) + Squash(s.text)
  {
    SquashTrim(s.text);
    if Truthy(s.heading) {
      SquashAppend(s.heading.value + "\n\n", Trim(s.text));
      SquashAppend(s.heading.value, "\n\n");
      SquashSpace("\n\n");
    }
  }

  lemma {:induction false} ContentsOfFirst(first: Section, rest: seq<Section>)
    ensures AllContents([first] + rest) == ContentIn(first) + AllContents(rest)
  {
    SquashContent(first);
    if rest == [] {
      assert ([first] + rest)[..0] == [] && [first] + rest == [first];
    } else {
      var last := |rest| - 1;
      ContentsOfFirst(first, rest[..last]);
      assert ([first] + rest)[..|rest|] == [first] + rest[..last] && ([first] + rest)[|rest|] == rest[last];
      Associative(ContentIn(first), AllContents(rest[..last]), if Blank(rest[last]) then "" else Squash(Content(rest[last])));
    }
  }

  /** What a section made of these lines adds to the contents. */
  lemma MadeOf(heading: Option<string>, lines: seq<string>)
    ensures ContentIn(Section(heading, Join(lines, "\n"))) == if All(lines) == "" then "" else TextIn(heading) + All(lines)
  {
    SquashJoin(lines, "\n");
    BlankIff(Join(lines, "\n"));
  }

  lemma BlankIff(s: string)
    ensures Trim(s) == "" <==> Squash(s) == ""
  {
    SquashTrim(s);
    TrimEnds(s);
  }

  /** Some line before the next heading is not blank. */
  predicate HasBody(r: Rule, lines: seq<string>) {
    lines != [] && !r.isHeading(lines[0]) && (Squash(lines[0]) != "" || HasBody(r, lines[1..]))
  }

  /** The lines of a text without white space: a heading line counts with its text, and only if
      some line before the next heading is not blank. */
  function LinesKept(r: Rule, lines: seq<string>): string {
    if lines == [] then "" else LineKept(r, lines) + LinesKept(r, lines[1..])
  }

  function LineKept(r: Rule, lines: seq<string>): string
    requires lines != []
  {
    if !r.isHeading(lines[0]) then Squash(lines[0])
    else if HasBody(r, lines[1..]) then Squash(r.textOf(lines[0]))
    else ""
  }

  /** What the lines collected under a heading add, if more lines follow. */
  function Collected(r: Rule, lines: seq<string>, heading: Option<string>, current: seq<string>): string {
    (if All(current) != "" || HasBody(r, lines) then TextIn(heading) else "") + All(current)
  }

  /** So the text of a heading is in the contents exactly if some line before the next heading is
      not blank, and every other line always is. */
  lemma {:induction false} ContentsOfLines(r: Rule, lines: seq<string>, heading: Option<string>, current: seq<string>)
    ensures AllContents(SectionsFrom(r, lines, heading, current)) == Collected(r, lines, heading, current) + LinesKept(r, lines)
  {
    if lines == [] {
      LastContent(heading, current);
    } else if r.isHeading(lines[0]) {
      var next := Some(r.textOf(lines[0]));
      ContentsOfLines(r, lines[1..], next, []);
      ClosedContent(heading, current, SectionsFrom(r, lines[1..], next, []));
      NothingCollected(r, lines, heading, current);
    } else {
      ContentsOfLines(r, lines[1..], heading, current + [lines[0]]);
      OneCollected(r, lines, heading, current);
    }
  }

  lemma NothingCollected(r: Rule, lines: seq<string>, heading: Option<string>, current: seq<string>)
    requires lines != [] && r.isHeading(lines[0])
    ensures Collected(r, lines, heading, current) == if All(current) == "" then "" else TextIn(heading) + All(current)
    ensures Collected(r, lines[1..], Some(r.textOf(lines[0])), []) == LineKept(r, lines)
  {
    assert All([]) == "";
  }

  lemma OneCollected(r: Rule, lines: seq<string>, heading: Option<string>, current: seq<string>)
    requires lines != [] && !r.isHeading(lines[0])
    ensures Collected(r, lines[1..], heading, current + [lines[0]]) + LinesKept(r, lines[1..])
         == Collected(r, lines, heading, current) + LinesKept(r, lines)
  {
    AllOne(current, lines[0]);
    var front := if All(current) != "" || HasBody(r, lines) then TextIn(heading) else "";
    Associative(front, All(current), Squash(lines[0]));
    Associative(front + All(current), Squash(lines[0]), LinesKept(r, lines[1..]));
  }

  lemma LastContent(heading: Option<string>, current: seq<string>)
    ensures
      var last := if current != [] || Truthy(heading) then [Section(heading, Join(current, "\n"))] else [];
      AllContents(last) == if All(current) == "" then "" else TextIn(heading) + All(current)
  {
    var last := Section(heading, Join(current, "\n"));
    MadeOf(heading, current);
    ContentsOfFirst(last, []);
    assert [last] + [] == [last];
  }

  lemma ClosedContent(heading: Option<string>, current: seq<string>, rest: seq<Section>)
    ensures AllContents(Closed(heading, current) + rest)
         == (if All(current) == "" then "" else TextIn(heading) + All(current)) + AllContents(rest)
  {
    if current != [] {
      MadeOf(heading, current);
      ContentsOfFirst(Section(heading, Join(current, "\n")), rest);
    } else {
      assert [] + rest == rest;
    }
  }

  /** The contents of a text's sections, line by line. */
  lemma ContentsOfText(r: Rule, text: string)
    requires NoEmptyHeading(r)
    ensures AllContents(Sections(r, text)) == LinesKept(r, Lines(text))
  {
    AlwaysSections(r, Lines(text), None, []);
    ContentsOfLines(r, Lines(text), None, []);
    assert All([]) == "";
  }

  // ---------------------------------------------------------------- a text cut into sections once more

  lemma {:induction false} SquashLines(s: string)
    ensures All(SplitOn(s, '\n')) == Squash(s)
  {
    if s == "" {
      assert Concat([""]) == "";
    } else {
      SquashLines(s[1..]);
      var rest := SplitOn(s[1..], '\n');
      SquashFirst(s);
      if s[0] == '\n' {
        AllOf("", rest);
        assert [""] + rest == SplitOn(s, '\n');
      } else {
        PrependConcat(s[0], rest);
        SquashAppend([s[0]], Concat(rest));
      }
    }
  }

  /** The text a heading line leaves is no longer than the line, white space aside. */
  ghost predicate TextsShorten(r: Rule) {
    forall line :: |Squash(r.textOf(line))| <= |Squash(line)|
  }

  lemma {:induction false} SquashSuffix(s: string, k: nat)
    requires k <= |s|
    ensures |Squash(s[k..])| <= |Squash(s)|
  {
    SquashAppend(s[..k], s[k..]);
    assert s[..k] + s[k..] == s;
  }

  lemma TextShortens(line: string)
    ensures |Squash(TrimmedText(line))| <= |Squash(line)|
  {
    hide Squash, Trim, TrimStart, HashRun;
    var trimmed := Trim(line);
    SquashTrim(line);
    SquashSuffix(trimmed, HashRun(trimmed));
    SquashTrimStart(trimmed[HashRun(trimmed)..]);
  }

  lemma AllShorten()
    ensures forall line :: |Squash(TrimmedText(line))| <= |Squash(line)|
  {
    hide Squash, TrimmedText;
    forall line ensures |Squash(TrimmedText(line))| <= |Squash(line)| {
      TextShortens(line);
    }
  }

  lemma TrimmedShortens(r: Rule)
    requires r.textOf == TrimmedText
    ensures TextsShorten(r)
  {
    hide Squash, TrimmedText;
    AllShorten();
  }

  lemma HeadingRuleShortens(upper: Case)
    ensures TextsShorten(HeadingRule(upper))
  {
    hide TextsShorten;
    TrimmedShortens(HeadingRule(upper));
  }

  /** Every heading line leaves all of itself, and has a line that is not blank before the next one. */
  predicate HeadingsStay(r: Rule, lines: seq<string>) {
    lines == [] || (LineKept(r, lines) == Squash(lines[0]) && HeadingsStay(r, lines[1..]))
  }

  lemma {:induction false} LinesKeptIff(r: Rule, lines: seq<string>)
    requires TextsShorten(r)
    ensures if HeadingsStay(r, lines) then LinesKept(r, lines) == All(lines) else |LinesKept(r, lines)| <= |All(lines)|
    ensures LinesKept(r, lines) == All(lines) ==> HeadingsStay(r, lines)
  {
    if lines != [] {
      LinesKeptIff(r, lines[1..]);
      AllOf(lines[0], lines[1..]);
      assert [lines[0]] + lines[1..] == lines;
      LineNoLonger(r, lines);
      if LinesKept(r, lines) == All(lines) {
        SamePrefix(LineKept(r, lines), LinesKept(r, lines[1..]), Squash(lines[0]), All(lines[1..]));
      }
    }
  }

  lemma LineNoLonger(r: Rule, lines: seq<string>)
    requires TextsShorten(r) && lines != []
    ensures |LineKept(r, lines)| <= |Squash(lines[0])|
  {
  }

  lemma SamePrefix(a: string, b: string, c: string, d: string)
    requires a + b == c + d && |a| <= |c| && |b| <= |d|
    ensures a == c && b == d
  {
    assert |a| + |b| == |c| + |d|;
    assert a == (a + b)[..|a|] && c == (c + d)[..|c|] && b == (a + b)[|a|..] && d == (c + d)[|c|..];
  }

  /** A text cut into sections holds all of it exactly if its headings stay. */
  lemma ContentsWholeIff(r: Rule, text: string)
    requires NoEmptyHeading(r) && TextsShorten(r)
    ensures |AllContents(Sections(r, text))| <= |Squash(text)|
    ensures AllContents(Sections(r, text)) == Squash(text) <==> HeadingsStay(r, Lines(text))
  {
    ContentsOfText(r, text);
    SquashLines(text);
    LinesKeptIff(r, Lines(text));
  }
}
