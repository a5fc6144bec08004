// Text as the chunker sees it: white space, words, paragraphs, and what is left of a text when
// its white space is dropped.
module Text {

  /** The characters `\s` and `trim` take for white space. */
  predicate IsSpace(c: char) {
    var n := c as int;
    || 9 <= n <= 13 || n == 0x20 || n == 0xA0 || n == 0x1680 || 0x2000 <= n <= 0x200A
    || n == 0x2028 || n == 0x2029 || n == 0x202F || n == 0x205F || n == 0x3000 || n == 0xFEFF
  }

  predicate AllSpace(s: string) {
    forall i :: 0 <= i < |s| ==> IsSpace(s[i])
  }

  /** The text without its white space. */
  function Squash(s: string): string {
    if s == "" then "" else (if IsSpace(s[0]) then "" else [s[0]]) + Squash(s[1..])
  }

  lemma {:induction false} SquashAppend(s: string, t: string)
    ensures Squash(s + t) == Squash(s) + Squash(t)
  {
    if s == "" {
      assert s + t == t;
    } else {
      SquashFirst(s);
      SquashFirst(s + t);
      SquashAppend(s[1..], t);
      assert (s + t)[0] == s[0] && (s + t)[1..] == s[1..] + t;
    }
  }

  lemma SquashFirst(s: string)
    requires s != ""
    ensures Squash(s) == Squash([s[0]]) + Squash(s[1..])
  {
    assert [s[0]][1..] == "";
  }

  lemma {:induction false} SquashSpace(s: string)
    requires AllSpace(s)
    ensures Squash(s) == ""
  {
    if s != "" {
      SquashSpace(s[1..]);
    }
  }

  // ---------------------------------------------------------------- trimming

  function TrimStart(s: string): string {
    if s != "" && IsSpace(s[0]) then TrimStart(s[1..]) else s
  }

  function TrimEnd(s: string): string {
    if s != "" && IsSpace(s[|s| - 1]) then TrimEnd(s[..|s| - 1]) else s
  }

  function Trim(s: string): string {
    TrimEnd(TrimStart(s))
  }

  lemma {:induction false} SquashTrimStart(s: string)
    ensures Squash(TrimStart(s)) == Squash(s)
  {
    if s != "" && IsSpace(s[0]) {
      SquashTrimStart(s[1..]);
    }
  }

  lemma {:induction false} SquashTrimEnd(s: string)
    ensures Squash(TrimEnd(s)) == Squash(s)
  {
    if s != "" && IsSpace(s[|s| - 1]) {
      var front, last := s[..|s| - 1], s[|s| - 1..];
      SquashTrimEnd(front);
      SquashAppend(front, last);
      SquashSpace(last);
      assert s == front + last;
    }
  }

  /** Trimming takes nothing but white space. */
  lemma SquashTrim(s: string)
    ensures Squash(Trim(s)) == Squash(s)
  {
    SquashTrimStart(s);
    SquashTrimEnd(TrimStart(s));
  }

  // ---------------------------------------------------------------- words

  /** How many characters of white space the text starts with. */
  function SpaceRun(s: string): (n: nat)
    ensures n <= |s| && (s != "" && IsSpace(s[0]) ==> n > 0)
  {
    if s != "" && IsSpace(s[0]) then SpaceRun(s[1..]) + 1 else 0
  }

  lemma {:induction false} RunIsSpace(s: string)
    ensures AllSpace(s[..SpaceRun(s)])
    ensures SpaceRun(s) < |s| ==> !IsSpace(s[SpaceRun(s)])
  {
    if s != "" && IsSpace(s[0]) {
      RunIsSpace(s[1..]);
      assert s[..SpaceRun(s)] == [s[0]] + s[1..][..SpaceRun(s[1..])];
    }
  }

  function Prepend(c: char, parts: seq<string>): (r: seq<string>)
    requires parts != []
    ensures |r| == |parts|
  {
    [[c] + parts[0]] + parts[1..]
  }

  /** s.split(/\s+/) */
  function Words(s: string): (w: seq<string>)
    ensures w != []
    decreases |s|
  {
    if s == "" then [""]
    else if IsSpace(s[0]) then [""] + Words(s[SpaceRun(s)..])
    else Prepend(s[0], Words(s[1..]))
  }

  /** Leading white space counts as one more, empty, word. */
  lemma DropLeadingSpace(s: string)
    ensures |Words(s[SpaceRun(s)..])| <= |Words(s)|
  {
  }

  lemma PlainFirst(s: string, t: string)
    requires s != "" && !IsSpace(s[0])
    ensures |Words(s)| == |Words(s[1..])| && |Words(s + t)| == |Words(s[1..] + t)|
  {
    assert (s + t)[0] == s[0] && (s + t)[1..] == s[1..] + t;
  }

  lemma SpaceFirst(s: string, t: string)
    requires s != "" && IsSpace(s[0]) && SpaceRun(s) < |s|
    ensures
      var rest := s[SpaceRun(s)..];
      |Words(s)| == 1 + |Words(rest)| && |Words(s + t)| == 1 + |Words(rest + t)|
  {
    RunStops(s, t);
    assert (s + t)[0] == s[0] && (s + t)[SpaceRun(s)..] == s[SpaceRun(s)..] + t;
  }

  lemma OnlySpace(s: string, t: string)
    requires s != "" && IsSpace(s[0]) && SpaceRun(s) == |s|
    ensures |Words(s)| == 2 && |Words(s + t)| <= 1 + |Words(t)| && |Words(s + t)| >= 2
  {
    var u, n := s + t, SpaceRun(t);
    RunThrough(s, t);
    AfterSpace(s);
    assert s[SpaceRun(s)..] == "";
    assert u[0] == s[0];
    AfterSpace(u);
    assert u[|s| + n..] == t[n..];
    DropLeadingSpace(t);
  }

  lemma AfterSpace(s: string)
    requires s != "" && IsSpace(s[0])
    ensures |Words(s)| == 1 + |Words(s[SpaceRun(s)..])|
  {
  }

  /** Joining two texts makes no more words than they have apart. */
  lemma {:induction false} WordsOfAppend(s: string, t: string)
    ensures |Words(s + t)| <= |Words(s)| + |Words(t)| - 1
    decreases |s|
  {
    if s == "" {
      assert s + t == t;
    } else if !IsSpace(s[0]) {
      PlainFirst(s, t);
      WordsOfAppend(s[1..], t);
    } else if SpaceRun(s) == |s| {
      OnlySpace(s, t);
    } else {
      SpaceFirst(s, t);
      WordsOfAppend(s[SpaceRun(s)..], t);
    }
  }

  lemma {:induction false} RunThrough(s: string, t: string)
    requires SpaceRun(s) == |s|
    ensures SpaceRun(s + t) == |s| + SpaceRun(t)
  {
    if s == "" {
      assert s + t == t;
    } else {
      RunThrough(s[1..], t);
      assert (s + t)[0] == s[0] && (s + t)[1..] == s[1..] + t;
    }
  }

  lemma {:induction false} RunStops(s: string, t: string)
    requires SpaceRun(s) < |s|
    ensures SpaceRun(s + t) == SpaceRun(s)
  {
    assert (s + t)[1..] == s[1..] + t;
    if IsSpace(s[0]) {
      RunStops(s[1..], t);
    }
  }

  lemma {:induction false} TrimStartWords(s: string)
    ensures |Words(TrimStart(s))| <= |Words(s)|
  {
    TrimStartIs(s);
    DropLeadingSpace(s);
  }

  lemma {:induction false} TrimStartIs(s: string)
    ensures TrimStart(s) == s[SpaceRun(s)..]
  {
    if s != "" && IsSpace(s[0]) {
      TrimStartIs(s[1..]);
    }
  }

  lemma {:induction false} FewerWordsInFront(s: string, t: string)
    ensures |Words(s)| <= |Words(s + t)|
    decreases |s|
  {
    if s == "" {
    } else if !IsSpace(s[0]) {
      PlainFirst(s, t);
      FewerWordsInFront(s[1..], t);
    } else if SpaceRun(s) == |s| {
      OnlySpace(s, t);
    } else {
      SpaceFirst(s, t);
      FewerWordsInFront(s[SpaceRun(s)..], t);
    }
  }

  lemma {:induction false} TrimEndIsFront(s: string)
    ensures TrimEnd(s) <= s
  {
    if s != "" && IsSpace(s[|s| - 1]) {
      TrimEndIsFront(s[..|s| - 1]);
    }
  }

  /** Trimming makes no new words. */
  lemma TrimWords(s: string)
    ensures |Words(Trim(s))| <= |Words(s)|
  {
    var t := TrimStart(s);
    TrimStartWords(s);
    TrimEndIsFront(t);
    FewerWordsInFront(TrimEnd(t), t[|TrimEnd(t)|..]);
    assert t == TrimEnd(t) + t[|TrimEnd(t)|..];
  }

  /** s.split(c) */
  function SplitOn(s: string, c: char): (parts: seq<string>)
    ensures parts != []
  {
    if s == "" then [""]
    else if s[0] == c then [""] + SplitOn(s[1..], c)
    else Prepend(s[0], SplitOn(s[1..], c))
  }

  // ---------------------------------------------------------------- joining

  function Concat(parts: seq<string>): string {
    if parts == [] then "" else parts[0] + Concat(parts[1..])
  }

  function Join(parts: seq<string>, sep: string): string {
    if parts == [] then ""
    else if |parts| == 1 then parts[0]
    else parts[0] + sep + Join(parts[1..], sep)
  }

  lemma Associative(a: string, b: string, c: string)
    ensures (a + b) + c == a + (b + c)
  {
  }

  lemma {:induction false} ConcatAppend(a: seq<string>, b: seq<string>)
    ensures Concat(a + b) == Concat(a) + Concat(b)
  {
    if a == [] {
      assert a + b == b;
    } else {
      ConcatAppend(a[1..], b);
      assert (a + b)[0] == a[0] && (a + b)[1..] == a[1..] + b;
      Associative(a[0], Concat(a[1..]), Concat(b));
    }
  }

  lemma SquashFirstPart(part: string, parts: seq<string>)
    ensures Squash(Concat([part] + parts)) == Squash(part) + Squash(Concat(parts))
  {
    assert ([part] + parts)[0] == part && ([part] + parts)[1..] == parts;
    SquashAppend(part, Concat(parts));
  }

  lemma EmptyFirst(parts: seq<string>)
    ensures Concat([""] + parts) == Concat(parts)
  {
    assert ([""] + parts)[1..] == parts && "" + Concat(parts) == Concat(parts);
  }

  /** White space between the parts does not show. */
  lemma {:induction false} SquashJoin(parts: seq<string>, sep: string)
    requires AllSpace(sep)
    ensures Squash(Join(parts, sep)) == Squash(Concat(parts))
  {
    SquashSpace(sep);
    if |parts| == 1 {
      assert parts[1..] == [] && parts[0] + "" == parts[0];
    } else if |parts| > 1 {
      SquashJoin(parts[1..], sep);
      SquashAppend(parts[0] + sep, Join(parts[1..], sep));
      SquashAppend(parts[0], sep);
      SquashAppend(parts[0], Concat(parts[1..]));
    }
  }

  /** The words of a text hold everything but its white space. */
  lemma {:induction false} SquashWords(s: string)
    ensures Squash(Concat(Words(s))) == Squash(s)
    decreases |s|
  {
    if s == "" {
      assert Words(s) == [""] && Concat([""]) == "" + Concat([]);
    } else if IsSpace(s[0]) {
      var n := SpaceRun(s);
      SquashWords(s[n..]);
      RunIsSpace(s);
      SquashSpace(s[..n]);
      SquashAppend(s[..n], s[n..]);
      assert s == s[..n] + s[n..];
      EmptyFirst(Words(s[n..]));
    } else {
      SquashWords(s[1..]);
      PrependConcat(s[0], Words(s[1..]));
      SquashAppend([s[0]], Concat(Words(s[1..])));
      assert Squash([s[0]]) == [s[0]];
    }
  }

  lemma PrependConcat(c: char, parts: seq<string>)
    requires parts != []
    ensures Concat(Prepend(c, parts)) == [c] + Concat(parts)
  {
    assert Prepend(c, parts)[1..] == parts[1..];
    assert [c] + parts[0] + Concat(parts[1..]) == [c] + (parts[0] + Concat(parts[1..]));
  }

  // ---------------------------------------------------------------- paragraphs

  function NewlineRun(s: string): (n: nat)
    ensures n <= |s|
  {
    if s != "" && s[0] == '\n' then NewlineRun(s[1..]) + 1 else 0
  }

  lemma {:induction false} NewlinesAreSpace(s: string)
    ensures AllSpace(s[..NewlineRun(s)])
  {
    if s != "" && s[0] == '\n' {
      NewlinesAreSpace(s[1..]);
      assert s[..NewlineRun(s)] == [s[0]] + s[1..][..NewlineRun(s[1..])];
    }
  }

  /** s.split(/\n{2,}/) */
  function Paragraphs(s: string): (p: seq<string>)
    ensures p != []
    decreases |s|
  {
    if s == "" then [""]
    else if NewlineRun(s) >= 2 then [""] + Paragraphs(s[NewlineRun(s)..])
    else Prepend(s[0], Paragraphs(s[1..]))
  }

  /** The paragraphs of a text hold everything but its white space. */
  lemma {:induction false} SquashParagraphs(s: string)
    ensures Squash(Concat(Paragraphs(s))) == Squash(s)
    decreases |s|
  {
    if s == "" {
      assert Paragraphs(s) == [""] && Concat([""]) == "" + Concat([]);
    } else if NewlineRun(s) >= 2 {
      var n := NewlineRun(s);
      SquashParagraphs(s[n..]);
      NewlinesAreSpace(s);
      SquashSpace(s[..n]);
      SquashAppend(s[..n], s[n..]);
      assert s == s[..n] + s[n..];
      EmptyFirst(Paragraphs(s[n..]));
    } else {
      SquashParagraphs(s[1..]);
      PrependConcat(s[0], Paragraphs(s[1..]));
      SquashAppend([s[0]], Concat(Paragraphs(s[1..])));
      SquashAppend([s[0]], s[1..]);
      assert s == [s[0]] + s[1..];
    }
  }

  /** Only the first paragraph can be empty, unless the text ends with a line break. */
  lemma {:induction false} LaterParagraphs(s: string)
    requires s == "" || s[|s| - 1] != '\n'
    ensures forall k :: 1 <= k < |Paragraphs(s)| ==> Paragraphs(s)[k] != ""
    decreases |s|
  {
    if s == "" {
    } else if NewlineRun(s) >= 2 {
      var rest := s[NewlineRun(s)..];
      AfterNewlines(s);
      LaterParagraphs(rest);
    } else {
      LaterParagraphs(s[1..]);
    }
  }

  lemma {:induction false} AfterNewlines(s: string)
    requires s != "" && s[|s| - 1] != '\n'
    ensures
      var n := NewlineRun(s);
      n < |s| && s[n] != '\n' && s[n..][|s[n..]| - 1] != '\n'
  {
    if s[0] == '\n' {
      AfterNewlines(s[1..]);
    }
  }

  /** A text that neither starts nor ends with white space has no empty paragraph. */
  lemma NoEmptyParagraph(s: string)
    requires s != "" && !IsSpace(s[0]) && !IsSpace(s[|s| - 1])
    ensures forall k :: 0 <= k < |Paragraphs(s)| ==> Paragraphs(s)[k] != ""
  {
    LaterParagraphs(s);
    assert NewlineRun(s) == 0;
  }

  lemma {:induction false} TrimEnds(s: string)
    ensures Trim(s) != "" ==> !IsSpace(Trim(s)[0]) && !IsSpace(Trim(s)[|Trim(s)| - 1])
  {
    TrimStartPlain(s);
    TrimEndIsFront(TrimStart(s));
    TrimEndPlain(TrimStart(s));
  }

  lemma {:induction false} TrimStartPlain(s: string)
    ensures TrimStart(s) != "" ==> !IsSpace(TrimStart(s)[0])
  {
    if s != "" && IsSpace(s[0]) {
      TrimStartPlain(s[1..]);
    }
  }

  lemma {:induction false} TrimEndPlain(s: string)
    ensures TrimEnd(s) != "" ==> !IsSpace(TrimEnd(s)[|TrimEnd(s)| - 1])
  {
    if s != "" && IsSpace(s[|s| - 1]) {
      TrimEndPlain(s[..|s| - 1]);
    }
  }
}
