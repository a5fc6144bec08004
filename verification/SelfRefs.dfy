// Shrinking the ranges of a cell's formula that contain the cell itself.
module SelfRefs {
  import opened Wrappers
  import opened Decimal
  import opened CellRefs

  // ---------------------------------------------------------------- ranges as values

  /** Rows and columns from 0, both ends included. */
  datatype Range = Range(startRow: int, endRow: int, startCol: int, endCol: int)

  predicate In(g: Range, row: int, col: int) {
    g.startRow <= row <= g.endRow && g.startCol <= col <= g.endCol
  }

  /** Which boundary line goes. */
  datatype Cut = NoCut | LastRow | FirstRow | LastCol | FirstCol

  /** One boundary line through the cell: a row if possible, the last before the first, otherwise
      a column. */
  function CutFor(g: Range, row: int, col: int): Cut {
    if row < g.startRow || row > g.endRow || col < g.startCol || col > g.endCol then NoCut
    else if row == g.endRow && g.endRow > g.startRow then LastRow
    else if row == g.startRow && g.startRow < g.endRow then FirstRow
    else if col == g.endCol && g.endCol > g.startCol then LastCol
    else if col == g.startCol && g.startCol < g.endCol then FirstCol
    else NoCut
  }

  function Shrink(g: Range, row: int, col: int): Range {
    match CutFor(g, row, col)
    case NoCut => g
    case LastRow => g.(endRow := g.endRow - 1)
    case FirstRow => g.(startRow := g.startRow + 1)
    case LastCol => g.(endCol := g.endCol - 1)
    case FirstCol => g.(startCol := g.startCol + 1)
  }

  /** On this axis the cell is on no boundary that can go. */
  predicate Inner(first: int, last: int, x: int) {
    first == last || first < x < last
  }

  /** A range with the cell loses exactly the boundary line through the cell, never all its cells;
      it stays as it is exactly if it does not contain the cell, or the cell is inner on both axes. */
  lemma ShrinkExactly(g: Range, row: int, col: int)
    ensures
      var s := Shrink(g, row, col);
      && (s == g <==> !In(g, row, col) || (Inner(g.startRow, g.endRow, row) && Inner(g.startCol, g.endCol, col)))
      && (s != g ==> !In(s, row, col) && s.startRow <= s.endRow && s.startCol <= s.endCol)
      && (s != g && !Inner(g.startRow, g.endRow, row) ==>
            forall r, c :: In(s, r, c) <==> In(g, r, c) && r != row)
      && (s != g && Inner(g.startRow, g.endRow, row) ==>
            forall r, c :: In(s, r, c) <==> In(g, r, c) && c != col)
  {
  }

  /** Once shrunk, a range is not shrunk again. */
  lemma ShrinkOnce(g: Range, row: int, col: int)
    ensures Shrink(Shrink(g, row, col), row, col) == Shrink(g, row, col)
  {
  }

  // ---------------------------------------------------------------- ranges as text

  /** The groups of a match: columns with an optional '$', the '$' of the rows, and the rows. */
  datatype Groups = Groups(c1: string, d1: string, r1: string, c2: string, d2: string, r2: string)

  function Bare(c: string): string {
    if c != "" && c[0] == '$' then c[1..] else c
  }

  predicate IsColumn(c: string) {
    1 <= |Bare(c)| <= 3 && AllUpper(Bare(c))
  }

  predicate IsDollar(d: string) {
    d == "" || d == "$"
  }

  predicate IsRow(r: string) {
    r != "" && AllDigits(r)
  }

  predicate Matched(g: Groups) {
    && IsColumn(g.c1) && IsDollar(g.d1) && IsRow(g.r1)
    && IsColumn(g.c2) && IsDollar(g.d2) && IsRow(g.r2)
  }

  function Text(g: Groups): string {
    (g.c1 + g.d1 + g.r1) + ":" + (g.c2 + g.d2 + g.r2)
  }

  function RangeOf(g: Groups): Range
    requires Matched(g)
  {
    Range(Value(g.r1) - 1, Value(g.r2) - 1, Column(Bare(g.c1)), Column(Bare(g.c2)))
  }

  function WithDollarOf(c: string, letters: string): string {
    if c != "" && c[0] == '$' then "$" + letters else letters
  }

  function NewC1(g: Groups, cut: Cut): string
    requires Matched(g)
  {
    if cut.FirstCol? then WithDollarOf(g.c1, Letters(Column(Bare(g.c1)) + 1)) else g.c1
  }

  function NewC2(g: Groups, cut: Cut): string
    requires Matched(g) && (cut.LastCol? ==> Column(Bare(g.c2)) >= 0)
  {
    if cut.LastCol? then WithDollarOf(g.c2, Letters(Column(Bare(g.c2)) - 1)) else g.c2
  }

  /** Rows are printed anew, from 1. */
  function NewR1(g: Groups, cut: Cut): string
    requires Matched(g)
  {
    Print(if cut.FirstRow? then Value(g.r1) + 1 else Value(g.r1))
  }

  function NewR2(g: Groups, cut: Cut): string
    requires Matched(g) && (cut.LastRow? ==> Value(g.r2) > 0)
  {
    Print(if cut.LastRow? then Value(g.r2) - 1 else Value(g.r2))
  }

  /** The replacement for a match in the formula of the cell in `row` and `col`. */
  function NewGroups(g: Groups, row: int, col: int): Groups
    requires Matched(g)
  {
    if !In(RangeOf(g), row, col) then g
    else
      ColumnsUpTo3(Bare(g.c2));
      var cut := CutFor(RangeOf(g), row, col);
      Groups(NewC1(g, cut), g.d1, NewR1(g, cut), NewC2(g, cut), g.d2, NewR2(g, cut))
  }

  lemma ColumnsUpTo3(s: string)
    requires AllUpper(s) && 1 <= |s| <= 3
    ensures 0 <= Column(s) <= 18277
  {
    var a := s[..|s| - 1];
    assert LetterValue(s) <= 26 * LetterValue(a) + 26;
    if a != "" {
      var b := a[..|a| - 1];
      assert LetterValue(a) <= 26 * LetterValue(b) + 26;
      if b != "" {
        assert b[..|b| - 1] == "" && LetterValue(b) <= 26;
      }
    }
  }

  lemma LettersUpTo3(n: int)
    requires 0 <= n <= 18277
    ensures 1 <= |Letters(n)| <= 3
  {
    var a := n / 26 - 1;
    var b := a / 26 - 1;
    assert a >= 0 ==> |Letters(a)| == |Letters(b)| + 1;
    assert b >= 0 ==> b / 26 - 1 == -1 && |Letters(b)| == 1;
  }

  lemma NewColumn(c: string, n: int)
    requires IsColumn(c) && 0 <= n <= 18277
    ensures
      var d := WithDollarOf(c, Letters(n));
      IsColumn(d) && Column(Bare(d)) == n && (d[0] == '$' <==> c[0] == '$')
  {
    LettersUpTo3(n);
    ColumnOfLetters(n);
    var letters := Letters(n);
    assert IsUpper(letters[0]);
    assert ("$" + letters)[1..] == letters;
  }

  /** A row number printed again reads the same. */
  lemma NewRow(n: int)
    requires n >= 0
    ensures IsRow(Print(n)) && Value(Print(n)) == n
  {
    ValueOfPrint(n);
  }

  predicate SameDollars(a: Groups, b: Groups)
    requires Matched(a) && Matched(b)
  {
    a.d1 == b.d1 && a.d2 == b.d2 && (a.c1[0] == '$' <==> b.c1[0] == '$') && (a.c2[0] == '$' <==> b.c2[0] == '$')
  }

  lemma NewStart(g: Groups, row: int, col: int)
    requires Matched(g) && In(RangeOf(g), row, col)
    ensures
      var c := NewC1(g, CutFor(RangeOf(g), row, col));
      IsColumn(c) && Column(Bare(c)) == Shrink(RangeOf(g), row, col).startCol && (c[0] == '$' <==> g.c1[0] == '$')
  {
    ColumnsUpTo3(Bare(g.c1));
    ColumnsUpTo3(Bare(g.c2));
    if CutFor(RangeOf(g), row, col).FirstCol? {
      NewColumn(g.c1, Column(Bare(g.c1)) + 1);
    }
  }

  lemma NewEnd(g: Groups, row: int, col: int)
    requires Matched(g) && In(RangeOf(g), row, col)
    ensures CutFor(RangeOf(g), row, col).LastCol? ==> Column(Bare(g.c2)) >= 0
    ensures
      var c := NewC2(g, CutFor(RangeOf(g), row, col));
      IsColumn(c) && Column(Bare(c)) == Shrink(RangeOf(g), row, col).endCol && (c[0] == '$' <==> g.c2[0] == '$')
  {
    ColumnsUpTo3(Bare(g.c1));
    ColumnsUpTo3(Bare(g.c2));
    if CutFor(RangeOf(g), row, col).LastCol? {
      NewColumn(g.c2, Column(Bare(g.c2)) - 1);
    }
  }

  lemma NewRows(g: Groups, row: int, col: int)
    requires Matched(g) && In(RangeOf(g), row, col)
    ensures
      var cut, s := CutFor(RangeOf(g), row, col), Shrink(RangeOf(g), row, col);
      && (cut.LastRow? ==> Value(g.r2) > 0)
      && IsRow(NewR1(g, cut)) && Value(NewR1(g, cut)) - 1 == s.startRow
      && IsRow(NewR2(g, cut)) && Value(NewR2(g, cut)) - 1 == s.endRow
  {
    NewRow(Value(g.r1));
    NewRow(Value(g.r2));
    match CutFor(RangeOf(g), row, col)
    case FirstRow => NewRow(Value(g.r1) + 1);
    case LastRow => NewRow(Value(g.r2) - 1);
    case _ =>
  }

  /** The replacement is again a range in the same notation, with every '$' kept, and it is the
      shrunk range. */
  lemma ReplacementShrinks(g: Groups, row: int, col: int)
    requires Matched(g)
    ensures Matched(NewGroups(g, row, col)) && SameDollars(g, NewGroups(g, row, col))
    ensures RangeOf(NewGroups(g, row, col)) == Shrink(RangeOf(g), row, col)
  {
    if In(RangeOf(g), row, col) {
      NewStart(g, row, col);
      NewEnd(g, row, col);
      NewRows(g, row, col);
    }
  }

  // ---------------------------------------------------------------- formulas

  function UpperRun(s: string): (n: nat)
    ensures n <= |s|
    ensures forall i :: 0 <= i < n ==> IsUpper(s[i])
  {
    if s != "" && IsUpper(s[0]) then UpperRun(s[1..]) + 1 else 0
  }

  /** `\$?[A-Z]{1,3}` followed by something that is no letter: its length, or 0. */
  function ColumnLength(s: string): (n: nat)
    ensures n <= |s| && (n > 0 ==> IsColumn(s[..(n)]))
  {
    var dollar := if s != "" && s[0] == '$' then 1 else 0;
    var letters := UpperRun(s[dollar..]);
    if 1 <= letters <= 3 then
      var c := s[..dollar + letters];
      assert dollar == 1 ==> Bare(c) == s[dollar..][..letters];
      assert dollar == 0 ==> Bare(c) == s[dollar..][..letters];
      dollar + letters
    else 0
  }

  function DollarLength(s: string): (n: nat)
    ensures n <= |s| && IsDollar(s[..(n)])
  {
    if s != "" && s[0] == '$' then 1 else 0
  }

  /** A column and a row at the start of a text: column, '$', digits and what follows. */
  function ReadEnd(s: string): (r: Option<(string, string, string, string)>)
    ensures r.Some? ==>
      var (c, d, n, rest) := r.value;
      IsColumn(c) && IsDollar(d) && IsRow(n) && s == (c + d + n) + rest && (rest == "" || !IsDigit(rest[0]))
  {
    var c := ColumnLength(s);
    var d := DollarLength(s[c..]);
    var n := DigitRun(s[c + d..]);
    if c == 0 || n == 0 then None
    else
      DigitRunStops(s[c + d..]);
      Slices(s, c, d, n);
      Some((s[..c], s[c..][..d], s[c + d..][..n], s[c + d + n..]))
  }

  lemma Slices(s: string, c: nat, d: nat, n: nat)
    requires c + d + n <= |s|
    ensures s == (s[..c] + s[c..][..d] + s[c + d..][..n]) + s[c + d + n..]
  {
  }

  lemma {:induction false} DigitRunStops(s: string)
    ensures DigitRun(s) < |s| ==> !IsDigit(s[DigitRun(s)])
  {
    if s != "" && IsDigit(s[0]) {
      DigitRunStops(s[1..]);
    }
  }

  /** A range at the start of a text, and what follows. */
  function ReadRange(s: string): (r: Option<(Groups, string)>)
    ensures r.Some? ==>
      var (g, rest) := r.value;
      Matched(g) && s == Text(g) + rest && |rest| < |s| && (rest == "" || !IsDigit(rest[0]))
  {
    match ReadEnd(s)
    case None => None
    case Some((c1, d1, r1, more)) =>
      if more == "" || more[0] != ':' then None
      else
        match ReadEnd(more[1..])
        case None => None
        case Some((c2, d2, r2, rest)) =>
          var g := Groups(c1, d1, r1, c2, d2, r2);
          Glue(c1 + d1 + r1, c2 + d2 + r2, rest);
          assert more == ":" + more[1..];
          Some((g, rest))
  }

  lemma Glue(a: string, b: string, rest: string)
    ensures a + (":" + (b + rest)) == (a + ":" + b) + rest
  {
  }

  /** Every range from left to right, in the formula of the cell in `row` and `col`. */
  function Rewrite(s: string, row: int, col: int): string
    decreases |s|
  {
    if s == "" then ""
    else
      match ReadRange(s)
      case None => [s[0]] + Rewrite(s[1..], row, col)
      case Some((g, rest)) => Text(NewGroups(g, row, col)) + Rewrite(rest, row, col)
  }

  /** No range in the formula contains the cell. */
  predicate NoSelfRef(s: string, row: int, col: int)
    decreases |s|
  {
    s == "" ||
    match ReadRange(s)
    case None => NoSelfRef(s[1..], row, col)
    case Some((g, rest)) => !In(RangeOf(g), row, col) && NoSelfRef(rest, row, col)
  }

  /** A formula none of whose ranges contains its cell stays as it is, character by character. */
  lemma {:induction false} RewriteKeeps(s: string, row: int, col: int)
    requires NoSelfRef(s, row, col)
    ensures Rewrite(s, row, col) == s
    decreases |s|
  {
    if s != "" {
      match ReadRange(s)
      case None => RewriteKeeps(s[1..], row, col);
      case Some((g, rest)) => RewriteKeeps(rest, row, col);
    }
  }

  lemma {:induction false} UpperRunOf(a: string, b: string)
    requires AllUpper(a) && (b == "" || !IsUpper(b[0]))
    ensures UpperRun(a + b) == |a|
  {
    if a == "" {
      assert a + b == b;
    } else {
      UpperRunOf(a[1..], b);
      assert (a + b)[0] == a[0] && (a + b)[1..] == a[1..] + b;
    }
  }

  lemma ColumnLengthOf(c: string, rest: string)
    requires IsColumn(c) && rest != "" && !IsUpper(rest[0])
    ensures ColumnLength(c + rest) == |c|
  {
    var s := c + rest;
    UpperRunOf(Bare(c), rest);
    if c[0] == '$' {
      assert s[1..] == Bare(c) + rest;
    } else {
      assert IsUpper(c[0]);
      assert s[0..] == Bare(c) + rest;
    }
  }

  lemma EndSlices(c: string, d: string, n: string, rest: string)
    ensures
      var s := (c + d + n) + rest;
      && s == c + (d + (n + rest))
      && s[..|c|] == c && s[|c|..] == d + (n + rest) && s[|c|..][..|d|] == d
      && s[|c| + |d|..] == n + rest && s[|c| + |d|..][..|n|] == n && s[|c| + |d| + |n|..] == rest
  {
  }

  lemma ReadOfEnd(c: string, d: string, n: string, rest: string)
    requires IsColumn(c) && IsDollar(d) && IsRow(n) && (rest == "" || !IsDigit(rest[0]))
    ensures ReadEnd((c + d + n) + rest) == Some((c, d, n, rest))
  {
    EndSlices(c, d, n, rest);
    assert IsDigit(n[0]);
    var more := d + (n + rest);
    assert more[0] == if d == "" then n[0] else d[0];
    ColumnLengthOf(c, more);
    DigitRunOf(n, rest);
  }

  /** A range written out is read back, whatever follows that is no digit. */
  lemma ReadOfText(g: Groups, rest: string)
    requires Matched(g) && (rest == "" || !IsDigit(rest[0]))
    ensures ReadRange(Text(g) + rest) == Some((g, rest))
  {
    var first, second := g.c1 + g.d1 + g.r1, g.c2 + g.d2 + g.r2;
    Glue(first, second, rest);
    ReadOfEnd(g.c1, g.d1, g.r1, ":" + (second + rest));
    ReadOfEnd(g.c2, g.d2, g.r2, rest);
    assert (":" + (second + rest))[1..] == second + rest;
  }

  /** A range at the start of a formula comes out shrunk, and reads as the shrunk range. */
  lemma RewrittenRange(g: Groups, rest: string, row: int, col: int)
    requires Matched(g) && (rest == "" || !IsDigit(rest[0]))
    ensures
      var n := NewGroups(g, row, col);
      && Rewrite(Text(g) + rest, row, col) == Text(n) + Rewrite(rest, row, col)
      && Matched(n) && RangeOf(n) == Shrink(RangeOf(g), row, col)
      && ReadRange(Text(n)) == Some((n, ""))
  {
    ReadOfText(g, rest);
    ReplacementShrinks(g, row, col);
    ReadOfText(NewGroups(g, row, col), "");
    assert Text(NewGroups(g, row, col)) + "" == Text(NewGroups(g, row, col));
  }
}
