// Column letters and cell names: how they are printed and read back.
module CellRefs {
  import opened Wrappers
  import opened Decimal

  predicate IsUpper(c: char) { 'A' <= c <= 'Z' }

  predicate IsLetter(c: char) { 'A' <= c <= 'Z' || 'a' <= c <= 'z' }

  predicate AllUpper(s: string) {
    forall i :: 0 <= i < |s| ==> IsUpper(s[i])
  }

  // ---------------------------------------------------------------- columns

  /** Letters as a number with the digits 1 to 26. */
  function LetterValue(s: string): nat
    requires AllUpper(s)
  {
    if s == "" then 0 else LetterValue(s[..|s| - 1]) * 26 + (s[|s| - 1] as int - 64)
  }

  /** The column of the letters, counted from 0. */
  function Column(s: string): int
    requires AllUpper(s)
  {
    LetterValue(s) - 1
  }

  function Letters(n: int): (s: string)
    requires n >= -1
    ensures AllUpper(s) && (n >= 0 ==> s != "")
  {
    if n < 0 then "" else Letters(n / 26 - 1) + [(65 + n % 26) as char]
  }

  lemma {:induction false} ColumnOfLetters(n: int)
    requires n >= -1
    ensures Column(Letters(n)) == n
  {
    if n >= 0 {
      ColumnOfLetters(n / 26 - 1);
      var s := Letters(n);
      assert s[..|s| - 1] == Letters(n / 26 - 1);
    }
  }

  lemma {:induction false} LettersOfColumn(s: string)
    requires AllUpper(s)
    ensures Column(s) >= -1 && Letters(Column(s)) == s
  {
    if s != "" {
      var front, last := s[..|s| - 1], s[|s| - 1] as int - 65;
      LettersOfColumn(front);
      assert Column(s) == LetterValue(front) * 26 + last;
      Digit26(LetterValue(front), last);
      assert s == front + [s[|s| - 1]];
    }
  }

  lemma Digit26(a: nat, d: int)
    requires 0 <= d < 26
    ensures (a * 26 + d) / 26 == a && (a * 26 + d) % 26 == d
  {
  }

  /** The letters that come next: A to Z, AA to AZ, BA and so on. */
  function NextLetters(s: string): (n: string)
    requires AllUpper(s)
    ensures AllUpper(n) && n != ""
  {
    if s == "" then "A"
    else
      var front, last := s[..|s| - 1], s[|s| - 1];
      if last == 'Z' then NextLetters(front) + "A" else front + [(last as int + 1) as char]
  }

  /** Columns are numbered in that order, A being 0. */
  lemma {:induction false} ColumnsCount(s: string)
    requires AllUpper(s)
    ensures Column("A") == 0 && Column(NextLetters(s)) == Column(s) + 1
  {
    assert "A"[..0] == "";
    if s != "" {
      var front, n := s[..|s| - 1], NextLetters(s);
      ColumnsCount(front);
      assert n[..|n| - 1] == if s[|s| - 1] == 'Z' then NextLetters(front) else front;
    }
  }

  /** `colToIndex`: Horner's scheme over the letters. */
  method ColToIndex(letters: string) returns (index: int)
    requires AllUpper(letters)
    ensures index == Column(letters) && (letters != "" ==> Letters(index) == letters)
  {
    var col := 0;
    for i := 0 to |letters|
      invariant col == LetterValue(letters[..i])
    {
      assert letters[..i + 1][..i] == letters[..i];
      col := col * 26 + (letters[i] as int - 64);
    }
    assert letters[..|letters|] == letters;
    LettersOfColumn(letters);
    index := col - 1;
  }

  /** `indexToCol`: the last letter first. */
  method IndexToCol(idx: int) returns (s: string)
    requires idx >= -1
    ensures s == Letters(idx) && Column(s) == idx
  {
    s := "";
    var n := idx;
    while n >= 0
      invariant n >= -1 && Letters(idx) == Letters(n) + s
      decreases n
    {
      s := [(65 + n % 26) as char] + s;
      n := n / 26 - 1;
    }
    assert "" + s == s;
    ColumnOfLetters(idx);
  }

  // ---------------------------------------------------------------- cell names

  function LetterRun(s: string): (n: nat)
    ensures n <= |s|
    ensures forall i :: 0 <= i < n ==> IsLetter(s[i])
  {
    if s != "" && IsLetter(s[0]) then LetterRun(s[1..]) + 1 else 0
  }

  function DigitRun(s: string): (n: nat)
    ensures n <= |s|
    ensures forall i :: 0 <= i < n ==> IsDigit(s[i])
  {
    if s != "" && IsDigit(s[0]) then DigitRun(s[1..]) + 1 else 0
  }

  function UpperOf(c: char): (u: char)
    requires IsLetter(c)
    ensures IsUpper(u) && (IsUpper(c) ==> u == c)
  {
    if 'a' <= c <= 'z' then (c as int - 32) as char else c
  }

  function Upper(s: string): (u: string)
    requires forall i :: 0 <= i < |s| ==> IsLetter(s[i])
    ensures AllUpper(u) && |u| == |s|
    ensures AllUpper(s) ==> u == s
  {
    if s == "" then "" else [UpperOf(s[0])] + Upper(s[1..])
  }

  /** Row and column, both counted from 0. */
  datatype Cell = Cell(row: int, col: int)

  /** Letters and digits at the start of a text, and the text after them. */
  function ReadCell(s: string): Option<(Cell, string)> {
    var l := LetterRun(s);
    var d := DigitRun(s[l..]);
    if l == 0 || d == 0 then None
    else Some((Cell(Value(s[l..][..d]) - 1, Column(Upper(s[..l]))), s[l + d..]))
  }

  /** The worker's `parseCell`: letters and digits and nothing else; anything else throws. */
  function ParseCell(s: string): Option<Cell> {
    match ReadCell(s)
    case Some((cell, rest)) => if rest == "" then Some(cell) else None
    case None => None
  }

  /** The name of the cell in row `r` and column `c`, both counted from 1 as on import. */
  function CellName(r: nat, c: nat): string
    requires c >= 1
  {
    Letters(c - 1) + Print(r)
  }

  lemma {:induction false} LetterRunOf(a: string, b: string)
    requires AllUpper(a) && (b == "" || !IsLetter(b[0]))
    ensures LetterRun(a + b) == |a|
  {
    if a == "" {
      assert a + b == b;
    } else {
      LetterRunOf(a[1..], b);
      assert (a + b)[0] == a[0] && (a + b)[1..] == a[1..] + b;
    }
  }

  lemma {:induction false} DigitRunOf(a: string, b: string)
    requires AllDigits(a) && (b == "" || !IsDigit(b[0]))
    ensures DigitRun(a + b) == |a|
  {
    if a == "" {
      assert a + b == b;
    } else {
      DigitRunOf(a[1..], b);
      assert (a + b)[0] == a[0] && (a + b)[1..] == a[1..] + b;
    }
  }

  lemma NameRuns(letters: string, digits: string, rest: string)
    requires AllUpper(letters) && AllDigits(digits) && digits != "" && (rest == "" || !IsDigit(rest[0]))
    ensures
      var s := letters + digits + rest;
      && LetterRun(s) == |letters| && s[..|letters|] == letters
      && DigitRun(s[|letters|..]) == |digits| && s[|letters|..][..|digits|] == digits
      && s[|letters| + |digits|..] == rest
  {
    var s := letters + digits + rest;
    assert s == letters + (digits + rest);
    LetterRunOf(letters, digits + rest);
    assert s[|letters|..] == digits + rest;
    DigitRunOf(digits, rest);
  }

  /** A printed cell name is read back, whatever follows that is no digit. */
  lemma ReadOfName(r: nat, c: nat, rest: string)
    requires c >= 1 && (rest == "" || !IsDigit(rest[0]))
    ensures ReadCell(CellName(r, c) + rest) == Some((Cell(r - 1, c - 1), rest))
  {
    NameRuns(Letters(c - 1), Print(r), rest);
    ColumnOfLetters(c - 1);
    ValueOfPrint(r);
  }

  /** The name printed on import is read back by the worker as the same row and column. */
  lemma ParseOfName(r: nat, c: nat)
    requires c >= 1
    ensures ParseCell(CellName(r, c)) == Some(Cell(r - 1, c - 1))
  {
    ReadOfName(r, c, "");
    assert CellName(r, c) + "" == CellName(r, c);
  }

  predicate NamesCell(s: string, letters: string, digits: string, cell: Cell) {
    && letters != "" && digits != "" && AllDigits(digits) && (forall i :: 0 <= i < |letters| ==> IsLetter(letters[i]))
    && s == letters + digits && cell == Cell(Value(digits) - 1, Column(Upper(letters)))
  }

  lemma {:induction false} AnyLetterRun(a: string, b: string)
    requires (forall i :: 0 <= i < |a| ==> IsLetter(a[i])) && b != "" && !IsLetter(b[0])
    ensures LetterRun(a + b) == |a|
  {
    if a == "" {
      assert a + b == b;
    } else {
      AnyLetterRun(a[1..], b);
      assert (a + b)[0] == a[0] && (a + b)[1..] == a[1..] + b;
    }
  }

  lemma ParseNamed(s: string, letters: string, digits: string, cell: Cell)
    requires NamesCell(s, letters, digits, cell)
    ensures ParseCell(s) == Some(cell)
  {
    assert IsDigit(digits[0]);
    AnyLetterRun(letters, digits);
    assert s[|letters|..] == digits && s[..|letters|] == letters;
    DigitRunOf(digits, "");
    assert digits + "" == digits && digits[..|digits|] == digits && s[|letters| + |digits|..] == "";
  }

  /** The worker reads exactly letters, in capitals or not, followed by digits. */
  lemma ParseCellIff(s: string, cell: Cell)
    ensures ParseCell(s) == Some(cell) <==> exists letters, digits :: NamesCell(s, letters, digits, cell)
  {
    if ParseCell(s) == Some(cell) {
      var l := LetterRun(s);
      var d := DigitRun(s[l..]);
      assert s[l..][..d] == s[l..] && s == s[..l] + s[l..];
      assert NamesCell(s, s[..l], s[l..], cell);
    }
    forall letters, digits | NamesCell(s, letters, digits, cell) ensures ParseCell(s) == Some(cell) {
      ParseNamed(s, letters, digits, cell);
    }
  }

  // ---------------------------------------------------------------- mappings

  datatype Mapping =
    | CellAt(sheet: Option<string>, cell: Cell)
    | RangeAt(sheet: Option<string>, start: Cell, end: Cell)

  /** How many characters before the first `c`. */
  function Before(s: string, c: char): (n: nat)
    ensures n <= |s| && (n < |s| ==> s[n] == c) && forall i :: 0 <= i < n ==> s[i] != c
  {
    if s == "" || s[0] == c then 0
    else
      Before(s[1..], c) + 1
  }

  predicate IsWord(s: string) {
    s != "" && forall i :: 0 <= i < |s| ==> IsLetter(s[i]) || IsDigit(s[i]) || s[i] == '_'
  }

  /** A cell, or two with a colon between them, and nothing else. */
  function ParseBody(sheet: Option<string>, s: string): Option<Mapping> {
    match ReadCell(s)
    case None => None
    case Some((start, rest)) =>
      if rest == "" then Some(CellAt(sheet, start))
      else if rest[0] != ':' then None
      else
        match ParseCell(rest[1..])
        case None => None
        case Some(end) => Some(RangeAt(sheet, start, end))
  }

  /** `parseMapping`, with a sheet in quotes, a plain sheet name or none; None where it throws. */
  function ParseMapping(s: string): Option<Mapping> {
    if s != "" && s[0] == '\'' then
      var n := Before(s[1..], '\'');
      if 0 < n && n + 2 < |s| && s[n + 2] == '!' then ParseBody(Some(s[1..n + 1]), s[n + 3..]) else None
    else
      var n := Before(s, '!');
      if n < |s| then (if IsWord(s[..n]) then ParseBody(Some(s[..n]), s[n + 1..]) else None)
      else ParseBody(None, s)
  }

  lemma {:induction false} BeforeIs(a: string, c: char, b: string)
    requires c !in a
    ensures Before(a + [c] + b, c) == |a|
  {
    if a == "" {
      assert a + [c] + b == [c] + b;
    } else {
      BeforeIs(a[1..], c, b);
      assert (a + [c] + b)[0] == a[0] && (a + [c] + b)[1..] == a[1..] + [c] + b;
    }
  }

  /** A quoted sheet and a body are taken apart again. */
  lemma QuotedSheet(sheet: string, body: string)
    requires sheet != "" && '\'' !in sheet
    ensures ParseMapping("'" + sheet + "'!" + body) == ParseBody(Some(sheet), body)
  {
    var s := "'" + sheet + "'!" + body;
    var n := |sheet|;
    assert s[1..] == sheet + ['\''] + ("!" + body);
    BeforeIs(sheet, '\'', "!" + body);
    assert s[1..n + 1] == sheet && s[n + 2] == '!' && s[n + 3..] == body;
  }

  /** A cell of any sheet whose name has no quote is read back from its printed mapping. */
  lemma MappingOfCell(sheet: string, r: nat, c: nat)
    requires sheet != "" && '\'' !in sheet && c >= 1
    ensures ParseMapping("'" + sheet + "'!" + CellName(r, c)) == Some(CellAt(Some(sheet), Cell(r - 1, c - 1)))
  {
    QuotedSheet(sheet, CellName(r, c));
    ReadOfName(r, c, "");
    assert CellName(r, c) + "" == CellName(r, c);
  }

  lemma MappingOfRange(sheet: string, r: nat, c: nat, r': nat, c': nat)
    requires sheet != "" && '\'' !in sheet && c >= 1 && c' >= 1
    ensures ParseMapping("'" + sheet + "'!" + (CellName(r, c) + ":" + CellName(r', c')))
         == Some(RangeAt(Some(sheet), Cell(r - 1, c - 1), Cell(r' - 1, c' - 1)))
  {
    var rest := ":" + CellName(r', c');
    assert CellName(r, c) + ":" + CellName(r', c') == CellName(r, c) + rest;
    QuotedSheet(sheet, CellName(r, c) + rest);
    ReadOfName(r, c, rest);
    assert rest[1..] == CellName(r', c');
    ParseOfName(r', c');
  }

  /** A sheet name of letters, digits and underscores needs no quotes. */
  lemma PlainSheet(sheet: string, body: string)
    requires IsWord(sheet)
    ensures ParseMapping(sheet + "!" + body) == ParseBody(Some(sheet), body)
  {
    var s := sheet + "!" + body;
    BeforeIs(sheet, '!', body);
    assert s == sheet + ['!'] + body && s[0] == sheet[0];
    assert s[..|sheet|] == sheet && s[|sheet| + 1..] == body;
  }

  /** Without an exclamation mark or a quote in front there is no sheet. */
  lemma NoSheet(body: string)
    requires '!' !in body && (body != "" ==> body[0] != '\'')
    ensures ParseMapping(body) == ParseBody(None, body)
  {
  }

  /** A sheet that is neither quoted nor a plain name is refused. */
  lemma BadSheet(sheet: string, body: string)
    requires '!' !in sheet && !IsWord(sheet) && (sheet != "" ==> sheet[0] != '\'')
    ensures ParseMapping(sheet + "!" + body) == None
  {
    var s := sheet + "!" + body;
    BeforeIs(sheet, '!', body);
    assert s == sheet + ['!'] + body && s[..|sheet|] == sheet;
    assert s[0] == if sheet == "" then '!' else sheet[0];
  }
}
