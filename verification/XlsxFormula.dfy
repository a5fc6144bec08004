// The prefixes that newer function names carry in XLSX files: added on export, stripped on
// import.
module XlsxFormula {
  import opened Wrappers
  import opened Text

  // ---------------------------------------------------------------- names

  predicate NameChar(c: char) {
    'A' <= c <= 'Z' || '0' <= c <= '9' || c == '.'
  }

  predicate WordChar(c: char) {
    'A' <= c <= 'Z' || 'a' <= c <= 'z' || '0' <= c <= '9' || c == '_'
  }

  predicate AllName(s: string) {
    s == "" || (NameChar(s[0]) && AllName(s[1..]))
  }

  /** A function name: capital letters, digits and dots, starting with a letter. */
  predicate IsName(s: string) {
    s != "" && 'A' <= s[0] <= 'Z' && AllName(s)
  }

  /** The functions that take the prefix `_xlfn.`, and those of them that take `_xlfn._xlws.`. */
  datatype Names = Names(xlfn: set<string>, xlws: set<string>)

  predicate WellNamed(l: Names) {
    forall n :: n in l.xlfn ==> IsName(n)
  }

  const XLFN: string := "_xlfn."
  const XLWS: string := "_xlws."

  function PrefixFor(l: Names, name: string): string {
    if name in l.xlws then XLFN + XLWS else XLFN
  }

  // ---------------------------------------------------------------- adding

  function NameRun(s: string): (n: nat)
    ensures n <= |s| && AllName(s[..(n)])
    ensures n < |s| ==> !NameChar(s[n])
  {
    if s != "" && NameChar(s[0]) then
      var n := NameRun(s[1..]);
      assert s[..n + 1][0] == s[0] && s[..n + 1][1..] == s[1..][..n];
      n + 1
    else 0
  }

  predicate ParenFollows(s: string) {
    SpaceRun(s) < |s| && s[SpaceRun(s)] == '('
  }

  /** No dot and no word character before. */
  predicate AtStart(prev: Option<char>) {
    prev.None? || (prev.value != '.' && !WordChar(prev.value))
  }

  /** A listed name starts here and is followed by white space and a parenthesis. */
  predicate Matches(l: Names, prev: Option<char>, s: string) {
    AtStart(prev) && s[..NameRun(s)] in l.xlfn && ParenFollows(s[NameRun(s)..])
  }

  /** The matched name, and what comes after its parenthesis. */
  function Name(s: string): string {
    s[..NameRun(s)]
  }

  function AfterParen(s: string): (rest: string)
    requires ParenFollows(s[NameRun(s)..])
    ensures |rest| < |s|
  {
    s[NameRun(s)..][SpaceRun(s[NameRun(s)..]) + 1..]
  }

  /** `prev` is the character before `s` in the formula. */
  function AddFrom(l: Names, prev: Option<char>, s: string): string
    decreases |s|
  {
    if s == "" then ""
    else if Matches(l, prev, s) then
      PrefixFor(l, Name(s)) + (Name(s) + "(" + AddFrom(l, Some('('), AfterParen(s)))
    else [s[0]] + AddFrom(l, Some(s[0]), s[1..])
  }

  function AddPrefixes(l: Names, formula: string): string {
    AddFrom(l, None, formula)
  }

  // ---------------------------------------------------------------- stripping

  predicate StartsWith(s: string, p: string) {
    |p| <= |s| && s[..|p|] == p
  }

  function StripPrefixes(s: string): string
    decreases |s|
  {
    if s == "" then ""
    else if StartsWith(s, XLFN) then StripPrefixes(AfterPrefix(s))
    else [s[0]] + StripPrefixes(s[1..])
  }

  /** What follows the prefix that `s` starts with. */
  function AfterPrefix(s: string): (rest: string)
    requires StartsWith(s, XLFN)
    ensures |rest| < |s|
  {
    s[PrefixLength(s)..]
  }

  function PrefixLength(s: string): (n: nat)
    requires StartsWith(s, XLFN)
    ensures 0 < n <= |s|
  {
    if StartsWith(s[|XLFN|..], XLWS) then |XLFN| + |XLWS| else |XLFN|
  }

  predicate NoPrefix(s: string) {
    s == "" || (!StartsWith(s, XLFN) && NoPrefix(s[1..]))
  }

  /** A formula without prefixes passes through unchanged. */
  lemma {:induction false} StripClean(s: string)
    requires NoPrefix(s)
    ensures StripPrefixes(s) == s
  {
    if s != "" {
      StripClean(s[1..]);
    }
  }

  // ---------------------------------------------------------------- what is added

  /** The text starts with a listed name, white space and a parenthesis. */
  predicate Listed(l: Names, s: string, name: string, gap: string, rest: string) {
    name in l.xlfn && AllSpace(gap) && s == name + gap + "(" + rest
  }

  /** A name can start behind this character: not behind a dot or within a word. */
  predicate NoneBefore(prev: Option<char>) {
    prev.None? || !(prev.value == '.' || prev.value == '_' || 'A' <= prev.value <= 'Z' || 'a' <= prev.value <= 'z'
                    || '0' <= prev.value <= '9')
  }

  lemma {:induction false} NameRunOf(name: string, rest: string)
    requires AllName(name) && (rest != "" ==> !NameChar(rest[0]))
    ensures NameRun(name + rest) == |name|
  {
    if name == "" {
      assert name + rest == rest;
    } else {
      NameRunOf(name[1..], rest);
      assert (name + rest)[0] == name[0] && (name + rest)[1..] == name[1..] + rest;
    }
  }

  lemma {:induction false} SpaceRunOf(gap: string, rest: string)
    requires AllSpace(gap) && (rest != "" ==> !IsSpace(rest[0]))
    ensures SpaceRun(gap + rest) == |gap|
  {
    if gap == "" {
      assert gap + rest == rest;
    } else {
      SpaceRunOf(gap[1..], rest);
      assert (gap + rest)[0] == gap[0] && (gap + rest)[1..] == gap[1..] + rest;
    }
  }

  lemma ListedMatches(l: Names, prev: Option<char>, s: string, name: string, gap: string, rest: string)
    requires WellNamed(l) && Listed(l, s, name, gap, rest) && NoneBefore(prev)
    ensures s != "" && Matches(l, prev, s) && Name(s) == name && AfterParen(s) == rest
  {
    var more := gap + ("(" + rest);
    assert s == name + more && IsName(name);
    assert more[0] == if gap == "" then '(' else gap[0];
    NameRunOf(name, more);
    assert s[|name|..] == more && s[..|name|] == name;
    SpaceRunOf(gap, "(" + rest);
    assert more[|gap| + 1..] == rest;
  }

  lemma MatchesListed(l: Names, prev: Option<char>, s: string)
    requires Matches(l, prev, s)
    ensures NoneBefore(prev)
    ensures Listed(l, s, Name(s), s[NameRun(s)..][..SpaceRun(s[NameRun(s)..])], AfterParen(s))
  {
    var more := s[NameRun(s)..];
    RunIsSpace(more);
    var gap := more[..SpaceRun(more)];
    assert more == gap + "(" + AfterParen(s);
    assert s == Name(s) + more;
  }

  /** Where a listed name with its parenthesis can start, it gets its prefix and loses the white space
      before the parenthesis. */
  lemma PrefixedAt(l: Names, prev: Option<char>, s: string, name: string, gap: string, rest: string)
    requires WellNamed(l) && Listed(l, s, name, gap, rest) && NoneBefore(prev)
    ensures AddFrom(l, prev, s) ==
      (if name in l.xlws then "_xlfn._xlws." else "_xlfn.") + (name + "(" + AddFrom(l, Some('('), rest))
  {
    ListedMatches(l, prev, s, name, gap, rest);
    assert XLFN + XLWS == "_xlfn._xlws.";
  }

  /** Everywhere else the character is copied. */
  lemma CopiedAt(l: Names, prev: Option<char>, s: string)
    requires s != "" && (!NoneBefore(prev) || forall name, gap, rest :: !Listed(l, s, name, gap, rest))
    ensures AddFrom(l, prev, s) == [s[0]] + AddFrom(l, Some(s[0]), s[1..])
  {
    if Matches(l, prev, s) {
      MatchesListed(l, prev, s);
    }
  }

  // ---------------------------------------------------------------- what the scan sees

  lemma {:induction false} NameSplit(a: string)
    requires a != "" && AllName(a)
    ensures NameChar(a[0]) && AllName(a[1..])
  {
  }

  lemma NoNameNoMatch(l: Names, prev: Option<char>, s: string)
    requires WellNamed(l) && (s == "" || !NameChar(s[0]) || !AtStart(prev))
    ensures !Matches(l, prev, s)
  {
    if s != "" && !NameChar(s[0]) {
      assert NameRun(s) == 0 && s[..0] == "";
    }
  }

  lemma CopyOne(l: Names, prev: Option<char>, c: char, rest: string)
    requires WellNamed(l) && (!NameChar(c) || !AtStart(prev))
    ensures AddFrom(l, prev, [c] + rest) == [c] + AddFrom(l, Some(c), rest)
  {
    NoNameNoMatch(l, prev, [c] + rest);
    assert ([c] + rest)[1..] == rest;
  }

  /** A match starts with a capital letter and comes out with an underscore in front. */
  lemma MatchFirst(l: Names, prev: Option<char>, s: string)
    requires WellNamed(l) && s != ""
    ensures AddFrom(l, prev, s) != ""
    ensures Matches(l, prev, s) ==> 'A' <= s[0] <= 'Z' && AddFrom(l, prev, s)[0] == '_'
    ensures !Matches(l, prev, s) ==> AddFrom(l, prev, s)[0] == s[0]
  {
    if Matches(l, prev, s) {
      assert IsName(Name(s));
    }
  }

  /** Inside a name nothing is added, so the run of name characters stays. */
  lemma {:induction false} RunKept(l: Names, c: char, s: string)
    requires WellNamed(l) && NameChar(c)
    ensures
      var t, n := AddFrom(l, Some(c), s), NameRun(s);
      && n <= |t| && NameRun(t) == n && t[..n] == s[..n]
      && exists last :: t[n..] == AddFrom(l, Some(last), s[n..])
    decreases |s|
  {
    if s == "" {
      assert AddFrom(l, Some(c), s)[0..] == AddFrom(l, Some(c), s[0..]);
    } else {
      NoNameNoMatch(l, Some(c), s);
      var t, u := AddFrom(l, Some(c), s), AddFrom(l, Some(s[0]), s[1..]);
      assert t[0] == s[0] && t[1..] == u;
      if NameChar(s[0]) {
        RunKept(l, s[0], s[1..]);
        SameFront(t, u, s, NameRun(s[1..]));
      } else {
        assert NameRun(t) == 0;
        assert t[0..] == t && s[0..] == s;
        assert t[0..] == AddFrom(l, Some(c), s[0..]);
      }
    }
  }

  lemma SameFront(t: string, u: string, s: string, n: nat)
    requires s != "" && t == [s[0]] + u && n <= |u| && n <= |s| - 1 && u[..n] == s[1..][..n]
    ensures t[..n + 1] == s[..n + 1] && t[n + 1..] == u[n..] && s[n + 1..] == s[1..][n..]
  {
    assert t[..n + 1] == [s[0]] + u[..n];
    assert s[..n + 1] == [s[0]] + s[1..][..n];
  }

  /** A parenthesis follows in the result exactly where it did before. */
  lemma {:induction false} ParenKept(l: Names, prev: Option<char>, s: string)
    requires WellNamed(l)
    ensures ParenFollows(AddFrom(l, prev, s)) <==> ParenFollows(s)
    decreases |s|
  {
    if s != "" {
      MatchFirst(l, prev, s);
      var t := AddFrom(l, prev, s);
      if IsSpace(s[0]) {
        ParenKept(l, Some(s[0]), s[1..]);
        assert t[1..] == AddFrom(l, Some(s[0]), s[1..]);
        ParenAfterSpace(s);
        ParenAfterSpace(t);
      } else {
        assert !IsSpace(t[0]) && (t[0] == '(' <==> s[0] == '(');
      }
    }
  }

  lemma ParenAfterSpace(s: string)
    requires s != "" && IsSpace(s[0])
    ensures ParenFollows(s) <==> ParenFollows(s[1..])
  {
  }

  // ---------------------------------------------------------------- adding twice

  lemma CopyXlfn(l: Names, prev: Option<char>, rest: string)
    requires WellNamed(l)
    ensures AddFrom(l, prev, XLFN + rest) == XLFN + AddFrom(l, Some('.'), rest)
  {
    CopySix(l, prev, '_', 'x', 'l', 'f', 'n', rest);
    assert XLFN == ['_', 'x', 'l', 'f', 'n', '.'];
  }

  lemma CopyXlws(l: Names, prev: Option<char>, rest: string)
    requires WellNamed(l)
    ensures AddFrom(l, prev, XLWS + rest) == XLWS + AddFrom(l, Some('.'), rest)
  {
    CopySix(l, prev, '_', 'x', 'l', 'w', 's', rest);
    assert XLWS == ['_', 'x', 'l', 'w', 's', '.'];
  }

  lemma CopySix(l: Names, prev: Option<char>, a: char, b: char, c: char, d: char, e: char, rest: string)
    requires WellNamed(l) && !NameChar(a) && !NameChar(b) && !NameChar(c) && !NameChar(d) && !NameChar(e) && WordChar(e)
    ensures AddFrom(l, prev, [a, b, c, d, e, '.'] + rest) == [a, b, c, d, e, '.'] + AddFrom(l, Some('.'), rest)
  {
    CopyOne(l, Some(e), '.', rest);
    CopyOne(l, Some(d), e, ['.'] + rest);
    CopyOne(l, Some(c), d, [e] + (['.'] + rest));
    CopyOne(l, Some(b), c, [d] + ([e] + (['.'] + rest)));
    CopyOne(l, Some(a), b, [c] + ([d] + ([e] + (['.'] + rest))));
    CopyOne(l, prev, a, [b] + ([c] + ([d] + ([e] + (['.'] + rest)))));
    SixApart(a, b, c, d, e, rest);
    SixApart(a, b, c, d, e, AddFrom(l, Some('.'), rest));
  }

  lemma SixApart(a: char, b: char, c: char, d: char, e: char, rest: string)
    ensures [a] + ([b] + ([c] + ([d] + ([e] + (['.'] + rest))))) == [a, b, c, d, e, '.'] + rest
  {
  }

  /** A name behind a dot, or behind one of its own characters, is copied. */
  lemma {:induction false} CopyName(l: Names, c: char, name: string, rest: string)
    requires WellNamed(l) && NameChar(c) && AllName(name)
    ensures AddFrom(l, Some(c), name + "(" + rest) == name + "(" + AddFrom(l, Some('('), rest)
    decreases |name|
  {
    if name == "" {
      CopyOne(l, Some(c), '(', rest);
      assert "" + "(" + rest == ['('] + rest;
      assert "" + "(" + AddFrom(l, Some('('), rest) == ['('] + AddFrom(l, Some('('), rest);
    } else {
      CopyName(l, name[0], name[1..], rest);
      CopyOne(l, Some(c), name[0], name[1..] + "(" + rest);
      FirstApart(name, rest);
      FirstApart(name, AddFrom(l, Some('('), rest));
    }
  }

  lemma FirstApart(name: string, rest: string)
    requires name != ""
    ensures name + "(" + rest == [name[0]] + (name[1..] + "(" + rest)
  {
  }

  lemma CopyBoth(l: Names, prev: Option<char>, body: string)
    requires WellNamed(l)
    ensures AddFrom(l, prev, (XLFN + XLWS) + body) == (XLFN + XLWS) + AddFrom(l, Some('.'), body)
  {
    CopyXlfn(l, prev, XLWS + body);
    CopyXlws(l, Some('.'), body);
    Associative(XLFN, XLWS, body);
    Associative(XLFN, XLWS, AddFrom(l, Some('.'), body));
  }

  lemma AddedAgain(l: Names, prev: Option<char>, name: string, rest: string)
    requires WellNamed(l) && AllName(name)
    ensures
      var p := PrefixFor(l, name);
      AddFrom(l, prev, p + (name + "(" + rest)) == p + (name + "(" + AddFrom(l, Some('('), rest))
  {
    var body := name + "(" + rest;
    if name in l.xlws {
      CopyBoth(l, prev, body);
    } else {
      CopyXlfn(l, prev, body);
    }
    CopyName(l, '.', name, rest);
  }

  lemma CopiesFirst(l: Names, prev: Option<char>, s: string)
    requires s != "" && !Matches(l, prev, s)
    ensures AddFrom(l, prev, s) == [s[0]] + AddFrom(l, Some(s[0]), s[1..])
  {
  }

  lemma StillNoMatch(l: Names, prev: Option<char>, s: string)
    requires WellNamed(l) && s != "" && !Matches(l, prev, s)
    ensures !Matches(l, prev, AddFrom(l, prev, s))
  {
    hide AddFrom, SpaceRun, IsName;
    var t, u := AddFrom(l, prev, s), AddFrom(l, Some(s[0]), s[1..]);
    CopiesFirst(l, prev, s);
    assert t[0] == s[0] && t[1..] == u;
    if NameChar(s[0]) {
      RunKept(l, s[0], s[1..]);
      var n := NameRun(s[1..]);
      var last :| u[n..] == AddFrom(l, Some(last), s[1..][n..]);
      ParenKept(l, Some(last), s[1..][n..]);
      assert NameRun(t) == n + 1 && NameRun(s) == n + 1;
      assert t[n + 1..] == u[n..] && s[n + 1..] == s[1..][n..];
      assert t[..n + 1] == [s[0]] + u[..n] && s[..n + 1] == [s[0]] + s[1..][..n];
    } else {
      NoNameNoMatch(l, prev, t);
    }
  }

  lemma {:induction false} AddTwice(l: Names, prev: Option<char>, s: string)
    requires WellNamed(l)
    ensures AddFrom(l, prev, AddFrom(l, prev, s)) == AddFrom(l, prev, s)
    decreases |s|
  {
    if s == "" {
    } else if Matches(l, prev, s) {
      AddTwice(l, Some('('), AfterParen(s));
      AddedAgain(l, prev, Name(s), AddFrom(l, Some('('), AfterParen(s)));
    } else {
      var t := AddFrom(l, prev, s);
      StillNoMatch(l, prev, s);
      AddTwice(l, Some(s[0]), s[1..]);
      assert t[0] == s[0] && t[1..] == AddFrom(l, Some(s[0]), s[1..]);
    }
  }

  /** Adding the prefixes a second time changes nothing. */
  lemma AddIdempotent(l: Names, formula: string)
    requires WellNamed(l)
    ensures AddPrefixes(l, AddPrefixes(l, formula)) == AddPrefixes(l, formula)
  {
    AddTwice(l, None, formula);
  }

  // ---------------------------------------------------------------- stripping what was added

  /** The formula with the white space between a listed name and its parenthesis removed. */
  function Tight(l: Names, prev: Option<char>, s: string): string
    decreases |s|
  {
    if s == "" then ""
    else if Matches(l, prev, s) then Name(s) + "(" + Tight(l, Some('('), AfterParen(s))
    else [s[0]] + Tight(l, Some(s[0]), s[1..])
  }

  /** No listed name has white space before its parenthesis. */
  predicate NoGaps(l: Names, prev: Option<char>, s: string)
    decreases |s|
  {
    s == "" ||
    if Matches(l, prev, s) then SpaceRun(s[NameRun(s)..]) == 0 && NoGaps(l, Some('('), AfterParen(s))
    else NoGaps(l, Some(s[0]), s[1..])
  }

  lemma MatchLength(s: string)
    requires ParenFollows(s[NameRun(s)..])
    ensures |Name(s)| + SpaceRun(s[NameRun(s)..]) + 1 + |AfterParen(s)| == |s|
    ensures SpaceRun(s[NameRun(s)..]) == 0 ==> s == Name(s) + "(" + AfterParen(s)
  {
    hide NameRun, SpaceRun;
  }

  lemma {:induction false} TightLength(l: Names, prev: Option<char>, s: string)
    ensures |Tight(l, prev, s)| <= |s|
    ensures |Tight(l, prev, s)| == |s| <==> NoGaps(l, prev, s)
    ensures NoGaps(l, prev, s) ==> Tight(l, prev, s) == s
    decreases |s|
  {
    hide NameRun, SpaceRun, Name, AfterParen;
    if s == "" {
    } else if Matches(l, prev, s) {
      TightLength(l, Some('('), AfterParen(s));
      MatchLength(s);
    } else {
      TightLength(l, Some(s[0]), s[1..]);
    }
  }

  lemma {:induction false} NoPrefixSuffix(s: string, k: nat)
    requires NoPrefix(s) && k <= |s|
    ensures NoPrefix(s[k..])
  {
    if k > 0 {
      NoPrefixSuffix(s[1..], k - 1);
      assert s[1..][k - 1..] == s[k..];
    } else {
      assert s[0..] == s;
    }
  }

  lemma NothingAdded(l: Names, prev: Option<char>)
    ensures AddFrom(l, prev, "") == ""
  {
  }

  /** Text without an underscore that the result starts with was there before. */
  lemma {:induction false} PatternKept(l: Names, prev: Option<char>, s: string, q: string)
    requires WellNamed(l) && '_' !in q && StartsWith(AddFrom(l, prev, s), q)
    ensures StartsWith(s, q)
    decreases |q|
  {
    hide AddFrom, Matches;
    if q != "" {
      assert AddFrom(l, prev, "") == "" by { NothingAdded(l, prev); }
      MatchFirst(l, prev, s);
      var t := AddFrom(l, prev, s);
      assert t[0] == q[0] && q[0] in q;
      CopiesFirst(l, prev, s);
      var u := AddFrom(l, Some(s[0]), s[1..]);
      assert t[1..] == u;
      assert u[..|q| - 1] == q[1..];
      PatternKept(l, Some(s[0]), s[1..], q[1..]);
      assert s[..|q|] == [s[0]] + s[1..][..|q| - 1];
    }
  }

  lemma {:induction false} StripName(name: string, rest: string)
    requires AllName(name)
    ensures StripPrefixes(name + "(" + rest) == name + "(" + StripPrefixes(rest)
    decreases |name|
  {
    if name == "" {
      StripOne('(', rest);
      assert "" + "(" + rest == ['('] + rest;
      assert "" + "(" + StripPrefixes(rest) == ['('] + StripPrefixes(rest);
    } else {
      StripName(name[1..], rest);
      StripOne(name[0], name[1..] + "(" + rest);
      FirstApart(name, rest);
      FirstApart(name, StripPrefixes(rest));
    }
  }

  lemma StripOne(c: char, rest: string)
    requires c != '_'
    ensures StripPrefixes([c] + rest) == [c] + StripPrefixes(rest)
  {
    var s := [c] + rest;
    assert s[1..] == rest;
    FirstOf(s, XLFN);
  }

  lemma FirstOf(s: string, p: string)
    requires p != ""
    ensures StartsWith(s, p) ==> s != "" && s[0] == p[0]
  {
    if StartsWith(s, p) {
      assert s[..|p|][0] == s[0];
    }
  }

  lemma StripPrefix(l: Names, name: string, rest: string)
    requires IsName(name)
    ensures
      var body := name + "(" + rest;
      StripPrefixes(PrefixFor(l, name) + body) == StripPrefixes(body)
  {
    var body := name + "(" + rest;
    assert body[0] == name[0];
    FirstOf(body, XLWS);
    if name in l.xlws {
      Associative(XLFN, XLWS, body);
      assert (XLFN + (XLWS + body))[6..] == XLWS + body && (XLWS + body)[6..] == body;
      assert StartsWith(XLFN + (XLWS + body), XLFN) && StartsWith(XLWS + body, XLWS);
    } else {
      assert (XLFN + body)[6..] == body && StartsWith(XLFN + body, XLFN);
    }
  }

  /** A prefix at a place where nothing was added was there before. */
  lemma OldPrefix(l: Names, prev: Option<char>, s: string)
    requires WellNamed(l) && s != "" && !Matches(l, prev, s) && StartsWith(AddFrom(l, prev, s), XLFN)
    ensures StartsWith(s, XLFN)
  {
    var t, u, q := AddFrom(l, prev, s), AddFrom(l, Some(s[0]), s[1..]), XLFN[1..];
    assert t[..6][0] == s[0] && t[1..] == u;
    assert u[..5] == t[..6][1..] && '_' !in q;
    PatternKept(l, Some(s[0]), s[1..], q);
    assert s[..6] == [s[0]] + s[1..][..5];
    assert XLFN == ['_'] + q;
  }

  lemma {:induction false} StripAdded(l: Names, prev: Option<char>, s: string)
    requires WellNamed(l) && NoPrefix(s)
    ensures StripPrefixes(AddFrom(l, prev, s)) == Tight(l, prev, s)
    decreases |s|
  {
    if s == "" {
    } else if Matches(l, prev, s) {
      var n, w := NameRun(s), SpaceRun(s[NameRun(s)..]);
      assert AfterParen(s) == s[n + w + 1..];
      NoPrefixSuffix(s, n + w + 1);
      StripAdded(l, Some('('), AfterParen(s));
      var added := AddFrom(l, Some('('), AfterParen(s));
      StripPrefix(l, Name(s), added);
      StripName(Name(s), added);
    } else {
      StripAdded(l, Some(s[0]), s[1..]);
      var t := AddFrom(l, prev, s);
      if StartsWith(t, XLFN) {
        OldPrefix(l, prev, s);
      }
      assert t[0] == s[0] && t[1..] == AddFrom(l, Some(s[0]), s[1..]);
    }
  }

  /** Exporting and importing a formula without prefixes gives it back up to the white space
      between a listed name and its parenthesis, and unchanged exactly if there is none. */
  lemma RoundTrip(l: Names, formula: string)
    requires WellNamed(l) && NoPrefix(formula)
    ensures StripPrefixes(AddPrefixes(l, formula)) == Tight(l, None, formula)
    ensures StripPrefixes(AddPrefixes(l, formula)) == formula <==> NoGaps(l, None, formula)
  {
    StripAdded(l, None, formula);
    TightLength(l, None, formula);
  }

  // ---------------------------------------------------------------- stripping twice

  /** With the prefixes in it left out, `s` starts with the characters of a prefix from `j` on. */
  predicate Spells(s: string, j: nat)
    requires j <= |XLFN|
    decreases |s|
  {
    j == |XLFN| ||
    (s != "" &&
     if StartsWith(s, XLFN) then Spells(AfterPrefix(s), j) else s[0] == XLFN[j] && Spells(s[1..], j + 1))
  }

  lemma {:induction false} SpellsIff(s: string, j: nat)
    requires j <= |XLFN|
    ensures Spells(s, j) <==> StartsWith(StripPrefixes(s), XLFN[j..])
    decreases |s|
  {
    if s != "" && j < |XLFN| {
      if StartsWith(s, XLFN) {
        SpellsIff(AfterPrefix(s), j);
      } else {
        SpellsIff(s[1..], j + 1);
        var t := StripPrefixes(s);
        assert t[0] == s[0] && t[1..] == StripPrefixes(s[1..]);
        StartsApart(t, XLFN[j..]);
        assert XLFN[j..][0] == XLFN[j] && XLFN[j..][1..] == XLFN[j + 1..];
      }
    }
  }

  lemma StartsApart(t: string, q: string)
    requires t != "" && q != ""
    ensures StartsWith(t, q) <==> t[0] == q[0] && StartsWith(t[1..], q[1..])
  {
    assert q == [q[0]] + q[1..];
    if |q| <= |t| {
      assert t[..|q|] == [t[0]] + t[1..][..|q| - 1];
      if t[..|q|] == q {
        assert t[0] == q[0] && t[1..][..|q| - 1] == q[1..];
      }
    }
  }

  /** The prefix at `i` has the first `k` characters of a prefix on its left, and on its right, with
      further prefixes left out, the others. */
  predicate Rejoins(s: string, i: int, k: int) {
    && 1 <= k < |XLFN| && k <= i <= |s| && s[i - k..i] == XLFN[..k]
    && StartsWith(s[i..], XLFN) && Spells(AfterPrefix(s[i..]), k)
  }

  lemma Underscore(s: string, k: nat)
    requires StartsWith(s, XLFN) && 1 <= k < |XLFN|
    ensures s[0] == '_' && s[k] != '_' && s[k] == XLFN[k] && XLFN[k] != '_'
    ensures !StartsWith(s[k..], XLFN)
  {
    assert XLFN == ['_', 'x', 'l', 'f', 'n', '.'];
    assert s[..6][0] == '_' && s[..6][k] == XLFN[k];
    StartsAt(s, k);
  }

  lemma StartsAt(s: string, k: nat)
    requires k <= |s|
    ensures StartsWith(s[k..], XLFN) ==> k < |s| && s[k] == '_'
  {
    FirstOf(s[k..], XLFN);
  }

  /** Spelled without a break. */
  predicate Plain(s: string, j: nat)
    requires j <= |XLFN|
    decreases |XLFN| - j
  {
    j == |XLFN| || (s != "" && s[0] == XLFN[j] && Plain(s[1..], j + 1))
  }

  /** Spelled, and a removed prefix is in between. */
  predicate Torn(s: string, j: nat)
    requires j <= |XLFN|
    decreases |XLFN| - j
  {
    j < |XLFN| && s != "" &&
    if StartsWith(s, XLFN) then Spells(AfterPrefix(s), j) else s[0] == XLFN[j] && Torn(s[1..], j + 1)
  }

  lemma {:induction false} PlainOrTorn(s: string, j: nat)
    requires j <= |XLFN| && (j == 0 ==> !StartsWith(s, XLFN))
    ensures Spells(s, j) <==> Plain(s, j) || Torn(s, j)
    decreases |XLFN| - j
  {
    if j < |XLFN| && s != "" {
      if StartsWith(s, XLFN) {
        Underscore(s, j);
      } else {
        PlainOrTorn(s[1..], j + 1);
      }
    }
  }

  lemma {:induction false} PlainIff(s: string, j: nat)
    requires j <= |XLFN|
    ensures Plain(s, j) <==> StartsWith(s, XLFN[j..])
    decreases |XLFN| - j
  {
    if j < |XLFN| && s != "" {
      PlainIff(s[1..], j + 1);
      StartsApart(s, XLFN[j..]);
      assert XLFN[j..][0] == XLFN[j] && XLFN[j..][1..] == XLFN[j + 1..];
    }
  }

  /** A prefix is removed after `m` more characters that belong to the one being spelled. */
  predicate TornAt(s: string, j: nat, m: nat)
    requires j + m < |XLFN|
  {
    && m <= |s| && s[..m] == XLFN[j..j + m]
    && StartsWith(s[m..], XLFN) && Spells(AfterPrefix(s[m..]), j + m)
  }

  lemma TornAtNext(s: string, j: nat, m: nat)
    requires s != "" && 1 <= m && j + m < |XLFN|
    ensures TornAt(s, j, m) <==> s[0] == XLFN[j] && TornAt(s[1..], j + 1, m - 1)
  {
    if m <= |s| {
      assert s[m..] == s[1..][m - 1..];
      assert s[..m] == [s[0]] + s[1..][..m - 1];
      assert XLFN[j..j + m] == [XLFN[j]] + XLFN[j + 1..j + m];
      if s[..m] == XLFN[j..j + m] {
        assert s[..m][0] == XLFN[j..j + m][0] && s[..m][1..] == XLFN[j..j + m][1..];
      }
    }
  }

  lemma {:induction false} TornWhere(s: string, j: nat) returns (m: nat)
    requires j <= |XLFN| && Torn(s, j)
    ensures j + m < |XLFN| && TornAt(s, j, m)
    decreases |XLFN| - j
  {
    if StartsWith(s, XLFN) {
      m := 0;
      assert s[0..] == s && s[..0] == XLFN[j..j];
    } else {
      m := TornWhere(s[1..], j + 1);
      m := m + 1;
      TornAtNext(s, j, m);
    }
  }

  /** The characters up to the tear belong to no prefix that is removed. */
  lemma NoneBetween(s: string, j: nat, m: nat)
    requires j + m < |XLFN| && TornAt(s, j, m) && m > 1
    ensures !StartsWith(s[1..], XLFN)
  {
    assert XLFN == ['_', 'x', 'l', 'f', 'n', '.'];
    assert s[..m][1] == s[1] && XLFN[j..j + m][1] == XLFN[j + 1];
    StartsAt(s, 1);
  }

  lemma {:induction false} TornThere(s: string, j: nat, m: nat)
    requires j + m < |XLFN| && TornAt(s, j, m) && (m > 0 ==> !StartsWith(s, XLFN))
    ensures Torn(s, j)
    decreases m
  {
    if m == 0 {
      assert s[0..] == s;
    } else {
      TornAtNext(s, j, m);
      if m > 1 {
        NoneBetween(s, j, m);
      }
      TornThere(s[1..], j + 1, m - 1);
    }
  }

  ghost predicate JoinsHere(s: string) {
    exists k: nat :: Rejoins(s, k, k)
  }

  /** A prefix that the kept text starts with was put together there. */
  lemma JoinedHere(s: string)
    requires s != "" && !StartsWith(s, XLFN)
    ensures StartsWith(StripPrefixes(s), XLFN) <==> JoinsHere(s)
  {
    SpellsIff(s, 0);
    PlainOrTorn(s, 0);
    PlainIff(s, 0);
    assert XLFN[0..] == XLFN;
    if Torn(s, 0) {
      var m := TornWhere(s, 0);
      assert s[0..] == s;
      assert Rejoins(s, m, m);
    }
    if k: nat :| Rejoins(s, k, k) {
      TornThere(s, 0, k);
    }
  }

  /** The same place further on in the text. */
  lemma RejoinsShift(s: string, d: nat, t: string, i: int, k: int)
    requires d <= |s| && t == s[d..] && i >= k
    ensures Rejoins(t, i, k) <==> Rejoins(s, i + d, k)
  {
    if 1 <= k && i + d <= |s| {
      assert t[i - k..i] == s[i + d - k..i + d];
      assert t[i..] == s[i + d..];
    }
  }

  /** No place where a prefix is put together overlaps a prefix that is removed. */
  lemma NotAcross(s: string, i: int, k: int)
    requires StartsWith(s, XLFN) && Rejoins(s, i, k)
    ensures i - k >= PrefixLength(s)
  {
    if i < PrefixLength(s) {
      SecondPart(s, i);
    } else {
      PrefixChars(s);
      assert s[i - k] == XLFN[..k][0] == '_';
    }
  }

  /** A removed prefix ends with a dot and has underscores only where its parts start. */
  lemma PrefixChars(s: string)
    requires StartsWith(s, XLFN)
    ensures
      var d := PrefixLength(s);
      && (d == 6 || d == 12) && s[d - 1] == '.'
      && (forall i :: 1 <= i < d && i != 6 ==> s[i] != '_')
      && (d == 12 ==> s[9] == 'w')
  {
    var rest := s[6..];
    assert XLFN == ['_', 'x', 'l', 'f', 'n', '.'] && XLWS == ['_', 'x', 'l', 'w', 's', '.'];
    assert s[..6] == XLFN;
    assert forall i :: 0 <= i < 6 ==> s[i] == s[..6][i];
    if StartsWith(rest, XLWS) {
      assert rest[..6] == XLWS;
      assert forall i :: 0 <= i < 6 ==> s[6 + i] == rest[i] == rest[..6][i];
    }
  }

  lemma PrefixAt(s: string, i: nat)
    requires i <= |s|
    ensures StartsWith(s[i..], XLFN) ==> i + 6 <= |s| && s[i] == '_' && s[i + 3] == 'f'
  {
    assert XLFN == ['_', 'x', 'l', 'f', 'n', '.'];
    if StartsWith(s[i..], XLFN) {
      assert s[i..][..6] == XLFN;
      assert forall k :: 0 <= k < 6 ==> s[i + k] == s[i..][..6][k];
    }
  }

  /** Inside a removed prefix no other one starts. */
  lemma SecondPart(s: string, i: int)
    requires StartsWith(s, XLFN) && 1 <= i < PrefixLength(s)
    ensures !StartsWith(s[i..], XLFN)
  {
    PrefixChars(s);
    PrefixAt(s, i);
  }

  ghost predicate SomewhereRejoins(s: string) {
    exists i, k :: Rejoins(s, i, k)
  }

  lemma {:induction false} PutTogetherIff(s: string)
    ensures NoPrefix(StripPrefixes(s)) <==> !SomewhereRejoins(s)
    decreases |s|
  {
    if s == "" {
    } else if StartsWith(s, XLFN) {
      PutTogetherIff(AfterPrefix(s));
      RejoinsBehind(s);
    } else {
      PutTogetherIff(s[1..]);
      JoinedHere(s);
      RejoinsAhead(s);
      var t := StripPrefixes(s);
      assert t[1..] == StripPrefixes(s[1..]);
    }
  }

  lemma RejoinsInRest(s: string, d: nat, t: string, i: int, k: int)
    requires d <= |s| && t == s[d..] && i >= k && Rejoins(s, i + d, k)
    ensures SomewhereRejoins(t)
  {
    RejoinsShift(s, d, t, i, k);
  }

  lemma RejoinsInAll(s: string, d: nat, t: string)
    requires d <= |s| && t == s[d..] && SomewhereRejoins(t)
    ensures SomewhereRejoins(s)
  {
    var i, k :| Rejoins(t, i, k);
    RejoinsShift(s, d, t, i, k);
  }

  lemma RejoinsBehind(s: string)
    requires StartsWith(s, XLFN)
    ensures SomewhereRejoins(s) <==> SomewhereRejoins(AfterPrefix(s))
  {
    if SomewhereRejoins(s) {
      var i, k :| Rejoins(s, i, k);
      NotAcross(s, i, k);
      RejoinsInRest(s, PrefixLength(s), AfterPrefix(s), i - PrefixLength(s), k);
    }
    if SomewhereRejoins(AfterPrefix(s)) {
      RejoinsInAll(s, PrefixLength(s), AfterPrefix(s));
    }
  }

  lemma HereOrAhead(s: string, i: int, k: int)
    requires s != "" && Rejoins(s, i, k)
    ensures JoinsHere(s) || SomewhereRejoins(s[1..])
  {
    if i > k {
      RejoinsInRest(s, 1, s[1..], i - 1, k);
    }
  }

  lemma RejoinsAhead(s: string)
    requires s != ""
    ensures SomewhereRejoins(s) <==> SomewhereRejoins(s[1..]) || JoinsHere(s)
  {
    if SomewhereRejoins(s) {
      var i, k :| Rejoins(s, i, k);
      HereOrAhead(s, i, k);
    }
    if SomewhereRejoins(s[1..]) {
      RejoinsInAll(s, 1, s[1..]);
    }
  }

  lemma {:induction false} StripShortens(s: string)
    ensures |StripPrefixes(s)| <= |s|
    ensures !NoPrefix(s) ==> |StripPrefixes(s)| < |s|
    decreases |s|
  {
    if s != "" {
      if StartsWith(s, XLFN) {
        StripShortens(AfterPrefix(s));
      } else {
        StripShortens(s[1..]);
      }
    }
  }

  /** Stripping twice changes the result of stripping once exactly if somewhere a removed prefix has
      the beginning of a prefix on its left and, further prefixes left out, the rest of it on its
      right. */
  lemma StripTwiceIff(s: string)
    ensures StripPrefixes(StripPrefixes(s)) == StripPrefixes(s) <==> !SomewhereRejoins(s)
  {
    PutTogetherIff(s);
    StripShortens(StripPrefixes(s));
    if NoPrefix(StripPrefixes(s)) {
      StripClean(StripPrefixes(s));
    }
  }

  lemma StripInner()
    ensures StripPrefixes("_xlfn.n.") == "n."
  {
    var s := "_xlfn.n.";
    assert s[6..] == "n." && s[..6] == XLFN;
    StripOne('n', ".");
    StripOne('.', "");
    assert ['n'] + "." == "n." && ['.'] + "" == ".";
  }

  const TORN := "_xlf_xlfn.n."

  lemma StripTail()
    ensures StripPrefixes("xlf_xlfn.n.") == "xlfn."
  {
    var a, b, c, d := "xlf_xlfn.n.", "lf_xlfn.n.", "f_xlfn.n.", "_xlfn.n.";
    assert a == ['x'] + b && b == ['l'] + c && c == ['f'] + d;
    StripInner();
    StripOne('f', d);
    StripOne('l', c);
    StripOne('x', b);
  }

  /** Such a text: what is stripped leaves a prefix, so stripping is not idempotent. */
  lemma StripNotIdempotent()
    ensures StripPrefixes(TORN) == "_xlfn."
  {
    hide StripPrefixes;
    StripTail();
    NoPrefixHere("xlf_xlfn.n.");
    assert ['_'] + "xlf_xlfn.n." == TORN && ['_'] + "xlfn." == "_xlfn.";
  }

  lemma FifthChar(s: string)
    ensures StartsWith(s, XLFN) ==> |s| >= 6 && s[4] == 'n'
  {
    if StartsWith(s, XLFN) {
      assert s[..6][4] == 'n';
    }
  }

  lemma NoPrefixHere(rest: string)
    requires |rest| >= 4 && rest[3] != 'n'
    ensures StripPrefixes(['_'] + rest) == ['_'] + StripPrefixes(rest)
  {
    var s := ['_'] + rest;
    assert s[1..] == rest;
    FifthChar(s);
  }

  lemma TornRejoins()
    ensures Rejoins(TORN, 4, 4)
  {
    assert TORN[4..] == "_xlfn.n." && "_xlfn.n."[..6] == XLFN && AfterPrefix("_xlfn.n.") == "n.";
    assert Spells("", 6) && Spells(".", 5) && "n."[1..] == "." && Spells("n.", 4);
    assert TORN[0..4] == XLFN[..4];
  }
}
