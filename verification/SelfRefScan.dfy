// Shrinking the ranges of a whole formula: what is between the ranges stays, every range is replaced
// by its shrunk form, and reading the result again finds just these.
module SelfRefScan {
  import opened Wrappers
  import opened Decimal
  import opened CellRefs
  import opened SelfRefs

  // ---------------------------------------------------------------- what a formula holds

  /** Its ranges, from left to right. */
  function Ranges(s: string): seq<Groups>
    decreases |s|
  {
    if s == "" then []
    else
      match ReadRange(s)
      case None => Ranges(s[1..])
      case Some((g, rest)) => [g] + Ranges(rest)
  }

  /** The rest of it, with None in the place of every range. */
  function Skeleton(s: string): seq<Option<char>>
    decreases |s|
  {
    if s == "" then []
    else
      match ReadRange(s)
      case None => [Some(s[0])] + Skeleton(s[1..])
      case Some((g, rest)) => [None] + Skeleton(rest)
  }

  predicate AllMatched(gs: seq<Groups>) {
    forall k :: 0 <= k < |gs| ==> Matched(gs[k])
  }

  lemma {:induction false} RangesMatched(s: string)
    ensures AllMatched(Ranges(s))
    decreases |s|
  {
    hide ReadRange, Matched;
    if s != "" {
      match ReadRange(s)
      case None => RangesMatched(s[1..]);
      case Some((g, rest)) => RangesMatched(rest);
    }
  }

  function Shrunk(gs: seq<Groups>, row: int, col: int): (r: seq<Groups>)
    requires AllMatched(gs)
    ensures |r| == |gs|
  {
    seq(|gs|, k requires 0 <= k < |gs| => NewGroups(gs[k], row, col))
  }

  // ---------------------------------------------------------------- the first character

  /** The rewritten text starts with the same character, or both start with a letter. */
  lemma FirstKept(s: string, row: int, col: int)
    requires s != ""
    ensures
      var r := Rewrite(s, row, col);
      r != "" && (r[0] == s[0] || (IsUpper(r[0]) && IsUpper(s[0])))
  {
    match ReadRange(s)
    case None =>
    case Some((g, rest)) =>
      ReplacementShrinks(g, row, col);
      ColumnStart(g.c1);
      ColumnStart(NewGroups(g, row, col).c1);
      TextStart(g);
      TextStart(NewGroups(g, row, col));
  }

  lemma ColumnStart(c: string)
    requires IsColumn(c)
    ensures c != "" && (c[0] == '$' || IsUpper(c[0]))
  {
  }

  lemma TextStart(g: Groups)
    requires g.c1 != ""
    ensures Text(g) != "" && Text(g)[0] == g.c1[0]
  {
  }

  lemma NoDigitKept(s: string, row: int, col: int)
    requires s == "" || !IsDigit(s[0])
    ensures var r := Rewrite(s, row, col); r == "" || !IsDigit(r[0])
  {
    if s != "" {
      FirstKept(s, row, col);
    }
  }

  // ---------------------------------------------------------------- ends of ranges

  lemma NoColumnNoRange(s: string)
    requires s != "" && ColumnLength(s) == 0
    ensures ReadEnd(s).None? && ReadRange(s).None?
  {
  }

  /** A column read from its second character on. */
  lemma ColumnDrop(s: string)
    requires ColumnLength(s) > 1
    ensures ColumnLength(s[1..]) == ColumnLength(s) - 1
  {
    if s[0] == '$' {
      assert s[1..][0..] == s[1..];
    } else {
      assert s[0..] == s;
      assert UpperRun(s) == UpperRun(s[1..]) + 1;
      assert s[1..][0..] == s[1..];
    }
  }

  /** What a column, the `$` of the row and the row are read from. */
  lemma EndParts(s: string)
    ensures
      var c := ColumnLength(s);
      var tail := s[c..];
      var d := DollarLength(tail);
      var n := DigitRun(tail[d..]);
      && (ReadEnd(s).None? <==> c == 0 || n == 0)
      && (ReadEnd(s).Some? ==> ReadEnd(s).value == (s[..c], tail[..d], tail[d..][..n], tail[d..][n..]))
  {
    hide ColumnLength, DigitRun;
    var c := ColumnLength(s);
    var tail := s[c..];
    var d := DollarLength(tail);
    var n := DigitRun(tail[d..]);
    assert tail[d..] == s[c + d..] && s[c + d + n..] == tail[d..][n..];
  }

  /** So what follows it is the same. */
  lemma EndDrop(s: string)
    requires ColumnLength(s) > 1
    ensures ReadEnd(s).None? <==> ReadEnd(s[1..]).None?
    ensures ReadEnd(s).Some? ==> ReadEnd(s).value.3 == ReadEnd(s[1..]).value.3
  {
    hide ReadEnd, ColumnLength, DigitRun;
    ColumnDrop(s);
    var c := ColumnLength(s);
    assert s[1..][c - 1..] == s[c..];
    EndParts(s);
    EndParts(s[1..]);
  }

  lemma RangeDrop(s: string)
    requires ColumnLength(s) > 1 && ReadRange(s).None?
    ensures ReadRange(s[1..]).None?
  {
    hide ReadEnd, ColumnLength;
    EndDrop(s);
  }

  lemma OneCopied(s: string, row: int, col: int)
    requires s != "" && ReadRange(s).None?
    ensures Rewrite(s, row, col) == [s[0]] + Rewrite(s[1..], row, col)
  {
    hide ReadRange;
  }

  /** Where no range starts, a column is copied. */
  lemma {:induction false} ColumnCopied(s: string, row: int, col: int)
    requires ColumnLength(s) > 0 && ReadRange(s).None?
    ensures Rewrite(s, row, col) == s[..ColumnLength(s)] + Rewrite(s[ColumnLength(s)..], row, col)
    decreases |s|
  {
    hide ColumnLength, ReadRange, Rewrite;
    var c := ColumnLength(s);
    OneCopied(s, row, col);
    if c > 1 {
      ColumnDrop(s);
      RangeDrop(s);
      ColumnCopied(s[1..], row, col);
      assert s[1..][c - 1..] == s[c..] && s[..c] == [s[0]] + s[1..][..c - 1];
    } else {
      assert s[..1] == [s[0]];
    }
  }

  lemma {:induction false} DigitsCopied(s: string, row: int, col: int)
    ensures Rewrite(s, row, col) == s[..DigitRun(s)] + Rewrite(s[DigitRun(s)..], row, col)
    decreases |s|
  {
    hide ReadRange, Rewrite, ColumnLength;
    if s != "" && IsDigit(s[0]) {
      DigitNoColumn(s);
      NoColumnNoRange(s);
      OneCopied(s, row, col);
      DigitsCopied(s[1..], row, col);
      var n := DigitRun(s);
      assert s[1..][n - 1..] == s[n..] && s[..n] == [s[0]] + s[1..][..n - 1];
    } else {
      assert s[..0] == "" && s[0..] == s;
    }
  }

  lemma DigitNoColumn(s: string)
    requires s != "" && !IsUpper(s[0]) && s[0] != '$'
    ensures ColumnLength(s) == 0
  {
    assert s[0..] == s;
  }

  // ---------------------------------------------------------------- what is no range stays none

  /** Three letters stay three letters. */
  lemma ThreeStay(g: Groups, row: int, col: int)
    requires Matched(g) && |Bare(g.c1)| == 3
    ensures Matched(NewGroups(g, row, col)) && |Bare(NewGroups(g, row, col).c1)| == 3
  {
    ReplacementShrinks(g, row, col);
    var s := Bare(g.c1);
    ColumnsUpTo3(s);
    ColumnsUpTo3(Bare(g.c2));
    ThreeLetters(s);
    if In(RangeOf(g), row, col) && CutFor(RangeOf(g), row, col).FirstCol? {
      LettersOfThree(Column(s) + 1);
      NewColumn(g.c1, Column(s) + 1);
      var letters := Letters(Column(s) + 1);
      assert ("$" + letters)[1..] == letters;
    }
  }

  lemma ThreeLetters(s: string)
    requires AllUpper(s) && |s| == 3
    ensures Column(s) >= 702
  {
    var a := s[..2];
    var b := a[..1];
    assert LetterValue(b) == LetterValue(b[..0]) * 26 + (b[0] as int - 64) && b[..0] == "";
    assert LetterValue(a) >= 27;
  }

  lemma LettersOfThree(n: int)
    requires 702 <= n <= 18277
    ensures |Letters(n)| == 3
  {
    var a := n / 26 - 1;
    var b := a / 26 - 1;
    assert |Letters(n)| == |Letters(a)| + 1 && |Letters(a)| == |Letters(b)| + 1;
    assert b >= 0 && b / 26 - 1 == -1 && |Letters(b)| == 1;
  }

  /** At least as many letters as before, up to three. */
  lemma RunOfThree(s: string, row: int, col: int)
    requires UpperRun(s) == 3
    ensures UpperRun(Rewrite(s, row, col)) >= 3
  {
    hide NewGroups, Text;
    assert s[0] != '$' && s[0..] == s;
    assert ColumnLength(s) == 3;
    match ReadRange(s)
    case None =>
      ColumnCopied(s, row, col);
      FrontRun(s[..3], Rewrite(s[3..], row, col));
    case Some((g, rest)) =>
      FirstColumn(s);
      assert g.c1 == s[..3];
      ThreeStay(g, row, col);
      StartRun(g, NewGroups(g, row, col), Rewrite(rest, row, col), row, col);
  }

  lemma StartRun(g: Groups, n: Groups, more: string, row: int, col: int)
    requires Matched(g) && n == NewGroups(g, row, col) && Matched(n) && g.c1[0] != '$' && |Bare(n.c1)| == 3
    ensures UpperRun(Text(n) + more) >= 3
  {
    ReplacementShrinks(g, row, col);
    hide NewGroups;
    var behind := (n.d1 + n.r1) + ":" + (n.c2 + n.d2 + n.r2);
    assert Text(n) == n.c1 + behind;
    Joined(n.c1, behind, more);
    FrontRun(n.c1, behind + more);
  }

  lemma Joined(a: string, b: string, c: string)
    ensures (a + b) + c == a + (b + c)
  {
  }

  lemma {:induction false} FrontRun(a: string, b: string)
    requires AllUpper(a)
    ensures UpperRun(a + b) >= |a|
  {
    if a != "" {
      FrontRun(a[1..], b);
      assert (a + b)[1..] == a[1..] + b;
    }
  }

  lemma FirstColumn(s: string)
    requires ReadRange(s).Some?
    ensures ReadRange(s).value.0.c1 == s[..ColumnLength(s)]
  {
  }

  lemma {:induction false} LongRun(s: string, row: int, col: int)
    requires UpperRun(s) > 3
    ensures UpperRun(Rewrite(s, row, col)) > 3
    decreases |s|
  {
    hide ReadRange, Rewrite;
    assert s[0] != '$' && s[0..] == s && ColumnLength(s) == 0;
    NoColumnNoRange(s);
    OneCopied(s, row, col);
    var r := Rewrite(s, row, col);
    assert r[1..] == Rewrite(s[1..], row, col);
    if UpperRun(s) == 4 {
      RunOfThree(s[1..], row, col);
    } else {
      LongRun(s[1..], row, col);
    }
  }

  /** Where no column starts, none starts afterwards. */
  lemma NoColumnStays(s: string, row: int, col: int)
    requires s != "" && ColumnLength(s) == 0
    ensures ColumnLength(Rewrite(s, row, col)) == 0
  {
    hide ReadRange, Rewrite;
    NoColumnNoRange(s);
    OneCopied(s, row, col);
    var r := Rewrite(s, row, col);
    if s[0] == '$' {
      assert r[1..] == Rewrite(s[1..], row, col);
      LettersStay(s[1..], row, col);
    } else {
      assert s[0..] == s && r[0..] == r;
      LettersStay(s, row, col);
    }
  }

  lemma LettersStay(s: string, row: int, col: int)
    requires UpperRun(s) == 0 || UpperRun(s) > 3
    ensures UpperRun(Rewrite(s, row, col)) == 0 || UpperRun(Rewrite(s, row, col)) > 3
  {
    hide ReadRange;
    if UpperRun(s) > 3 {
      LongRun(s, row, col);
    } else if s != "" {
      FirstKept(s, row, col);
    }
  }

  /** Where no end of a range can be read, none can be read afterwards. */
  lemma NoEndStays(s: string, row: int, col: int)
    requires ReadEnd(s).None?
    ensures ReadEnd(Rewrite(s, row, col)).None?
  {
    if s != "" {
      if ColumnLength(s) == 0 {
        NoColumnStays(s, row, col);
      } else {
        NoRowStays(s, row, col);
      }
    }
  }

  lemma ColumnThen(c: string, rest: string)
    requires IsColumn(c) && (rest == "" || !IsUpper(rest[0]))
    ensures ColumnLength(c + rest) == |c| && (c + rest)[|c|..] == rest
  {
    if rest == "" {
      UpperRunOf(Bare(c), "");
      assert c + "" == c && Bare(c) + "" == Bare(c);
      if c[0] == '$' {
        assert c[1..] == Bare(c);
      } else {
        assert c[0..] == Bare(c);
      }
    } else {
      ColumnLengthOf(c, rest);
    }
  }

  lemma {:induction false} RunStops(s: string)
    ensures UpperRun(s) < |s| ==> !IsUpper(s[UpperRun(s)])
  {
    if s != "" && IsUpper(s[0]) {
      RunStops(s[1..]);
    }
  }

  lemma ColumnStops(s: string)
    requires ColumnLength(s) > 0
    ensures var c := ColumnLength(s); IsColumn(s[..c]) && (c < |s| ==> !IsUpper(s[c]))
  {
    var dollar := if s[0] == '$' then 1 else 0;
    RunStops(s[dollar..]);
  }

  /** A column, but no row behind it. */
  lemma NoRowStays(s: string, row: int, col: int)
    requires ReadEnd(s).None? && ColumnLength(s) > 0
    ensures ReadEnd(Rewrite(s, row, col)).None?
  {
    var c := ColumnLength(s);
    var tail, r := s[c..], Rewrite(s, row, col);
    ColumnStops(s);
    assert ReadRange(s).None?;
    ColumnCopied(s, row, col);
    var t := Rewrite(tail, row, col);
    if tail != "" {
      FirstKept(tail, row, col);
    }
    ColumnThen(s[..c], t);
    NoDigitBehind(tail, row, col);
    assert s[c + DollarLength(tail)..] == tail[DollarLength(tail)..];
    assert r[c + DollarLength(t)..] == t[DollarLength(t)..];
  }

  lemma NoDigitBehind(tail: string, row: int, col: int)
    requires DigitRun(tail[DollarLength(tail)..]) == 0
    ensures var t := Rewrite(tail, row, col); DigitRun(t[DollarLength(t)..]) == 0
  {
    hide Rewrite, ReadRange;
    var t := Rewrite(tail, row, col);
    if tail == "" {
      assert t == "" by { EmptyKept(row, col); }
    } else if tail[0] == '$' {
      NoDigitAfterDollar(tail, row, col);
    } else {
      assert tail[0..] == tail;
      FirstKept(tail, row, col);
      assert t[0..] == t;
    }
  }

  lemma EmptyKept(row: int, col: int)
    ensures Rewrite("", row, col) == ""
  {
  }

  lemma NoDigitAfterDollar(tail: string, row: int, col: int)
    requires tail != "" && tail[0] == '$' && DigitRun(tail[1..]) == 0
    ensures
      var t := Rewrite(tail, row, col);
      t != "" && t[0] == '$' && (|t| == 1 || !IsDigit(t[1]))
  {
    FirstKept(tail, row, col);
    if ReadRange(tail).None? {
      hide ReadRange, Rewrite;
      OneCopied(tail, row, col);
      assert Rewrite(tail, row, col)[1..] == Rewrite(tail[1..], row, col);
      NoDigitKept(tail[1..], row, col);
    } else {
      FirstColumn(tail);
      LetterBehind(ReadRange(tail).value.0, ReadRange(tail).value.1, row, col);
    }
  }

  lemma LetterBehind(g: Groups, rest: string, row: int, col: int)
    requires Matched(g) && g.c1[0] == '$'
    ensures
      var t := Text(NewGroups(g, row, col)) + Rewrite(rest, row, col);
      |t| > 1 && IsUpper(t[1])
  {
    ReplacementShrinks(g, row, col);
    hide NewGroups, Rewrite;
    var n := NewGroups(g, row, col);
    assert n.c1[0] == '$' && IsUpper(n.c1[1]);
    assert Text(n)[1] == n.c1[1];
  }

  lemma BeforeEnd(s: string)
    requires ReadEnd(s).Some? && ReadRange(s).None? && ReadEnd(s).value.3 != "" && ReadEnd(s).value.3[0] == ':'
    ensures ReadEnd(ReadEnd(s).value.3[1..]).None?
  {
  }

  /** A column and a row with no range are copied, and read again as they are. */
  lemma EndCopied(s: string, row: int, col: int)
    requires ReadEnd(s).Some? && ReadRange(s).None?
    ensures
      var (c, d, n, rest) := ReadEnd(s).value;
      && Rewrite(s, row, col) == (c + d + n) + Rewrite(rest, row, col)
      && ReadEnd(Rewrite(s, row, col)) == Some((c, d, n, Rewrite(rest, row, col)))
  {
    hide ReadEnd, ReadRange, Rewrite, ColumnLength, DigitRun;
    var (c, d, n, rest) := ReadEnd(s).value;
    EndParts(s);
    ColumnCopied(s, row, col);
    var tail := s[ColumnLength(s)..];
    DollarCopied(tail, d, row, col);
    DigitsCopied(tail[|d|..], row, col);
    FourJoined(c, d, n, Rewrite(rest, row, col));
    NoDigitKept(rest, row, col);
    ReadOfEnd(c, d, n, Rewrite(rest, row, col));
  }

  lemma FourJoined(a: string, b: string, c: string, d: string)
    ensures a + (b + (c + d)) == (a + b + c) + d
  {
  }

  lemma DollarNoColumn(s: string)
    requires s != "" && s[0] == '$' && DigitRun(s[1..]) > 0
    ensures ColumnLength(s) == 0
  {
    var rest := s[1..];
    assert IsDigit(rest[0]) && UpperRun(rest) == 0;
  }

  lemma DollarCopied(tail: string, d: string, row: int, col: int)
    requires |d| == DollarLength(tail) && d == tail[..|d|] && DigitRun(tail[|d|..]) > 0
    ensures Rewrite(tail, row, col) == d + Rewrite(tail[|d|..], row, col)
  {
    hide Rewrite, ReadRange, ReadEnd;
    if d != "" {
      DollarNoColumn(tail);
      NoColumnNoRange(tail);
      OneCopied(tail, row, col);
    } else {
      assert tail[0..] == tail;
    }
  }

  /** Where no range can be read, none can be read afterwards. */
  lemma NoRangeStays(s: string, row: int, col: int)
    requires ReadRange(s).None?
    ensures ReadRange(Rewrite(s, row, col)).None?
  {
    if ReadEnd(s).None? {
      NoEndStays(s, row, col);
    } else {
      EndCopied(s, row, col);
      var rest := ReadEnd(s).value.3;
      if rest != "" {
        FirstKept(rest, row, col);
        if rest[0] == ':' {
          BeforeEnd(s);
          DigitNoColumn(rest);
          NoColumnNoRange(rest);
          OneCopied(rest, row, col);
          assert Rewrite(rest, row, col)[1..] == Rewrite(rest[1..], row, col);
          NoEndStays(rest[1..], row, col);
        }
      }
    }
  }

  // ---------------------------------------------------------------- the results

  lemma ShrunkFirst(g: Groups, gs: seq<Groups>, row: int, col: int)
    requires Matched(g) && AllMatched(gs)
    ensures AllMatched([g] + gs) && Shrunk([g] + gs, row, col) == [NewGroups(g, row, col)] + Shrunk(gs, row, col)
  {
    hide NewGroups, Matched;
    assert forall k :: 0 <= k < |gs| ==> ([g] + gs)[k + 1] == gs[k];
  }

  lemma RangeRead(g: Groups, rest: string, row: int, col: int)
    requires Matched(g) && (rest == "" || !IsDigit(rest[0]))
    ensures ReadRange(Text(NewGroups(g, row, col)) + Rewrite(rest, row, col))
         == Some((NewGroups(g, row, col), Rewrite(rest, row, col)))
    ensures Text(NewGroups(g, row, col)) != ""
  {
    ReplacementShrinks(g, row, col);
    hide NewGroups;
    NoDigitKept(rest, row, col);
    ReadOfText(NewGroups(g, row, col), Rewrite(rest, row, col));
  }

  /** In the rewritten formula of any cell stand exactly the ranges that stood in it, each shrunk, and
      between them exactly what stood between them. */
  lemma {:induction false} RewritesRanges(s: string, row: int, col: int)
    ensures AllMatched(Ranges(s)) && Ranges(Rewrite(s, row, col)) == Shrunk(Ranges(s), row, col)
    ensures Skeleton(Rewrite(s, row, col)) == Skeleton(s)
    decreases |s|
  {
    hide ReadRange, NewGroups, Text, Matched;
    RangesMatched(s);
    if s != "" {
      match ReadRange(s)
      case None =>
        OneCopied(s, row, col);
        NoRangeStays(s, row, col);
        RewritesRanges(s[1..], row, col);
        assert Rewrite(s, row, col)[1..] == Rewrite(s[1..], row, col);
      case Some((g, rest)) =>
        RangeRead(g, rest, row, col);
        RewritesRanges(rest, row, col);
        ShrunkFirst(g, Ranges(rest), row, col);
    }
  }

  lemma NewGroupsTwice(g: Groups, row: int, col: int)
    requires Matched(g)
    ensures Matched(NewGroups(g, row, col))
    ensures NewGroups(NewGroups(g, row, col), row, col) == NewGroups(g, row, col)
  {
    ReplacementShrinks(g, row, col);
    ShrinkOnce(RangeOf(g), row, col);
    if In(RangeOf(g), row, col) {
      NewRow(Value(g.r1));
      NewRow(Value(g.r2));
    }
  }

  /** Rewriting a formula for its cell a second time changes nothing. */
  lemma {:induction false} RewriteTwice(s: string, row: int, col: int)
    ensures Rewrite(Rewrite(s, row, col), row, col) == Rewrite(s, row, col)
    decreases |s|
  {
    hide ReadRange, NewGroups, Text, Matched;
    if s != "" {
      match ReadRange(s)
      case None =>
        OneCopied(s, row, col);
        NoRangeStays(s, row, col);
        RewriteTwice(s[1..], row, col);
        var r := Rewrite(s, row, col);
        assert r[0] == s[0] && r[1..] == Rewrite(s[1..], row, col);
        OneCopied(r, row, col);
      case Some((g, rest)) =>
        RangeRead(g, rest, row, col);
        RewriteTwice(rest, row, col);
        NewGroupsTwice(g, row, col);
    }
  }
}
