// Input and output transforms between the strings users write and the numbers a cell holds.
// A cell number is a real here; the round trips below leave room for rounding.
module Transforms {
  import opened Wrappers
  import opened Decimal
  import opened Calendar

  datatype Failure = BadFormat | OutOfRange

  // ---------------------------------------------------------------- formats

  predicate DigitsAt(s: string, at: nat, n: nat) {
    at + n <= |s| && AllDigits(s[at..at + n])
  }

  function NumberAt(s: string, at: nat, n: nat): nat
    requires DigitsAt(s, at, n)
  {
    Value(s[at..at + n])
  }

  /** YYYY-MM-DD */
  predicate IsDate(s: string) {
    |s| == 10 && DigitsAt(s, 0, 4) && s[4] == '-' && DigitsAt(s, 5, 2) && s[7] == '-' && DigitsAt(s, 8, 2)
  }

  function ReadDate(s: string): Date
    requires IsDate(s)
  {
    Date(NumberAt(s, 0, 4), NumberAt(s, 5, 2), NumberAt(s, 8, 2))
  }

  /** H:MM, HH:MM, H:MM:SS or HH:MM:SS */
  predicate IsTime(s: string) {
    var h := HourDigits(s);
    && 1 <= h <= 2 && DigitsAt(s, 0, h)
    && (|s| == h + 3 || |s| == h + 6)
    && s[h] == ':' && DigitsAt(s, h + 1, 2)
    && (|s| == h + 6 ==> s[h + 3] == ':' && DigitsAt(s, h + 4, 2))
  }

  function HourDigits(s: string): nat {
    if |s| == 4 || |s| == 7 then 1 else 2
  }

  datatype Time = Time(hour: nat, minute: nat, second: nat)

  function ReadTime(s: string): Time
    requires IsTime(s)
  {
    var h := HourDigits(s);
    Time(NumberAt(s, 0, h), NumberAt(s, h + 1, 2), if |s| == h + 6 then NumberAt(s, h + 4, 2) else 0)
  }

  /** A date, 'T' or a space, and a time. */
  predicate IsDatetime(s: string) {
    |s| > 11 && IsDate(s[..10]) && (s[10] == 'T' || s[10] == ' ') && IsTime(s[11..])
  }

  function PrintDate(d: Date): string {
    PrintInt(d.year) + "-" + Pad2(d.month) + "-" + Pad2(d.day)
  }

  function PrintTime(h: int, m: int, s: int): string {
    Pad2(h) + ":" + Pad2(m) + ":" + Pad2(s)
  }

  // ---------------------------------------------------------------- input

  /** Date.UTC reads the years 0 to 99 as 1900 to 1999. */
  function FullYear(y: int): int {
    if 0 <= y <= 99 then 1900 + y else y
  }

  function DateToSerial(d: Date): Result<int, Failure> {
    var serial := MakeDay(FullYear(d.year), d.month, d.day) + 25569;
    if serial < 1 then Err(OutOfRange) else Ok(serial)
  }

  function Seconds(t: Time): nat {
    t.hour * 3600 + t.minute * 60 + t.second
  }

  predicate OfDay(t: Time) {
    t.hour <= 23 && t.minute <= 59 && t.second <= 59
  }

  function DayFraction(t: Time): real {
    Seconds(t) as real / 86400.0
  }

  function TimeToFraction(t: Time): Result<real, Failure> {
    if OfDay(t) then Ok(DayFraction(t)) else Err(OutOfRange)
  }

  function ApplyDate(s: string): Result<int, Failure> {
    if IsDate(s) then DateToSerial(ReadDate(s)) else Err(BadFormat)
  }

  function ApplyTime(s: string): Result<real, Failure> {
    if IsTime(s) then TimeToFraction(ReadTime(s)) else Err(BadFormat)
  }

  function ApplyDatetime(s: string): Result<real, Failure> {
    if !IsDatetime(s) then Err(BadFormat)
    else
      var d := DateToSerial(ReadDate(s[..10]));
      var t := TimeToFraction(ReadTime(s[11..]));
      if d.Err? then Err(d.error)
      else if t.Err? then Err(t.error)
      else Ok(d.value as real + t.value)
  }

  // ---------------------------------------------------------------- what is accepted

  predicate Digits(s: string, least: nat, most: nat) {
    AllDigits(s) && least <= |s| <= most
  }

  predicate DateWritten(s: string, y: string, m: string, d: string) {
    Digits(y, 4, 4) && Digits(m, 2, 2) && Digits(d, 2, 2) && s == y + "-" + m + "-" + d
  }

  /** The serial of a written date; months and days roll over. */
  function SerialOf(y: nat, m: nat, d: nat): int {
    MakeDay(if y <= 99 then 1900 + y else y, m, d) + 25569
  }

  ghost predicate DateAcceptedAs(s: string, y: string, m: string, d: string, serial: int) {
    DateWritten(s, y, m, d) && serial == SerialOf(Value(y), Value(m), Value(d)) >= 1
  }

  lemma DateParts(s: string, y: string, m: string, d: string)
    requires DateWritten(s, y, m, d)
    ensures IsDate(s) && ReadDate(s) == Date(Value(y), Value(m), Value(d))
  {
    assert s[0..4] == y && s[5..7] == m && s[8..10] == d;
  }

  lemma DateOfParts(s: string)
    requires IsDate(s)
    ensures DateWritten(s, s[0..4], s[5..7], s[8..10])
  {
  }

  /** A date is accepted exactly if it is written with four, two and two digits and its serial is at
      least 1. */
  lemma ApplyDateIff(s: string, serial: int)
    ensures ApplyDate(s) == Ok(serial) <==> exists y, m, d :: DateAcceptedAs(s, y, m, d, serial)
    ensures ApplyDate(s) == Err(BadFormat) <==> !exists y, m, d :: DateWritten(s, y, m, d)
  {
    hide MakeDay;
    if IsDate(s) {
      DateOfParts(s);
      DateParts(s, s[0..4], s[5..7], s[8..10]);
      if ApplyDate(s) == Ok(serial) {
        assert DateAcceptedAs(s, s[0..4], s[5..7], s[8..10], serial);
      }
    }
    forall y, m, d | DateWritten(s, y, m, d)
      ensures IsDate(s) && ReadDate(s) == Date(Value(y), Value(m), Value(d))
    {
      DateParts(s, y, m, d);
    }
  }

  predicate TimeWritten(s: string, h: string, m: string, sec: string) {
    && Digits(h, 1, 2) && Digits(m, 2, 2) && (sec == "" || Digits(sec, 2, 2))
    && s == h + ":" + m + if sec == "" then "" else ":" + sec
  }

  ghost predicate TimeAcceptedAs(s: string, h: string, m: string, sec: string, v: real) {
    && TimeWritten(s, h, m, sec) && AllDigits(sec) && Value(h) <= 23 && Value(m) <= 59 && Value(sec) <= 59
    && v == (3600 * Value(h) + 60 * Value(m) + Value(sec)) as real / 86400.0
  }

  lemma TimeParts(s: string, h: string, m: string, sec: string)
    requires TimeWritten(s, h, m, sec)
    ensures IsTime(s) && AllDigits(sec) && ReadTime(s) == Time(Value(h), Value(m), Value(sec))
  {
    assert HourDigits(s) == |h| && s[0..|h|] == h && s[|h| + 1..|h| + 3] == m;
    if sec != "" {
      assert s[|h| + 4..|h| + 6] == sec;
    }
  }

  lemma TimeOfParts(s: string)
    requires IsTime(s)
    ensures
      var h := HourDigits(s);
      TimeWritten(s, s[0..h], s[h + 1..h + 3], if |s| == h + 6 then s[h + 4..h + 6] else "")
  {
  }

  lemma AsFraction(h: nat, m: nat, sec: nat, v: real)
    ensures TimeToFraction(Time(h, m, sec)) == Ok(v) <==>
      h <= 23 && m <= 59 && sec <= 59 && v == (3600 * h + 60 * m + sec) as real / 86400.0
  {
    assert Seconds(Time(h, m, sec)) == 3600 * h + 60 * m + sec;
  }

  lemma WrittenApplied(s: string, h: string, m: string, sec: string, v: real)
    requires TimeWritten(s, h, m, sec)
    ensures AllDigits(sec) && (ApplyTime(s) == Ok(v) <==> TimeAcceptedAs(s, h, m, sec, v)) && ApplyTime(s) != Err(BadFormat)
  {
    hide IsTime, Value, ReadTime, HourDigits;
    TimeParts(s, h, m, sec);
    AsFraction(Value(h), Value(m), Value(sec), v);
  }

  /** A time is accepted exactly if it is written with one or two, two and perhaps two more digits and
      is a time of day; its value is its part of a day. */
  lemma ApplyTimeIff(s: string, v: real)
    ensures ApplyTime(s) == Ok(v) <==> exists h, m, sec :: TimeAcceptedAs(s, h, m, sec, v)
    ensures ApplyTime(s) == Err(BadFormat) <==> !exists h, m, sec :: TimeWritten(s, h, m, sec)
  {
    if IsTime(s) {
      TimeOfParts(s);
      var h := HourDigits(s);
      WrittenApplied(s, s[0..h], s[h + 1..h + 3], if |s| == h + 6 then s[h + 4..h + 6] else "", v);
    }
    hide IsTime, TimeWritten, TimeToFraction, ReadTime, HourDigits;
    forall h, m, sec | TimeWritten(s, h, m, sec)
      ensures AllDigits(sec) && (ApplyTime(s) == Ok(v) <==> TimeAcceptedAs(s, h, m, sec, v)) && ApplyTime(s) != Err(BadFormat)
    {
      WrittenApplied(s, h, m, sec, v);
    }
    assert forall h, m, sec :: TimeAcceptedAs(s, h, m, sec, v) ==> TimeWritten(s, h, m, sec);
  }

  predicate DatetimeWritten(s: string, date: string, time: string) {
    s == date + "T" + time || s == date + " " + time
  }

  ghost predicate DatetimeAcceptedAs(s: string, date: string, time: string, v: real) {
    && DatetimeWritten(s, date, time)
    && ApplyDate(date).Ok? && ApplyTime(time).Ok? && v == ApplyDate(date).value as real + ApplyTime(time).value
  }

  /** A date and time are accepted exactly if both are, with a T or a space between them. */
  lemma ApplyDatetimeIff(s: string, v: real)
    ensures ApplyDatetime(s) == Ok(v) <==> exists date, time :: DatetimeAcceptedAs(s, date, time, v)
  {
    hide DateToSerial, TimeToFraction, ReadDate, ReadTime;
    if ApplyDatetime(s) == Ok(v) {
      assert s == s[..10] + [s[10]] + s[11..];
      assert DatetimeAcceptedAs(s, s[..10], s[11..], v);
    }
    forall date, time | DatetimeAcceptedAs(s, date, time, v) ensures ApplyDatetime(s) == Ok(v) {
      assert |date| == 10 && s[..10] == date && s[11..] == time;
    }
  }

  // ---------------------------------------------------------------- output

  /** Number to integer by dropping the fraction, as the Date constructor does. */
  function Truncate(x: real): int {
    if x < 0.0 then -((-x).Floor) else x.Floor
  }

  /** Outside 10^8 days around 1970 there is no date. */
  function DateAtMs(ms: int): string {
    if -8640000000000000 <= ms <= 8640000000000000
    then PrintDate(DateOf(ms / 86400000))
    else "NaN-NaN-NaN"
  }

  function Milliseconds(serial: real): int {
    Truncate((serial - 25569.0) * 86400000.0)
  }

  function SerialToDate(serial: real): string {
    DateAtMs(Milliseconds(serial))
  }

  /** Math.round */
  function Round(x: real): int {
    (x + 0.5).Floor
  }

  /** The remainder operator, whose sign is the dividend's. */
  function Remainder(a: int, b: int): int
    requires b > 0
  {
    if a < 0 then -((-a) % b) else a % b
  }

  function TimeOfTotal(total: int): string {
    PrintTime(total / 3600, Remainder(total, 3600) / 60, Remainder(total, 60))
  }

  function FractionToTime(frac: real): string {
    TimeOfTotal(Round(frac * 86400.0))
  }

  /** The whole part of a number and the rest, each shown its own way. */
  function Joined(whole: real -> string, rest: real -> string, v: real): string {
    whole(v.Floor as real) + "T" + rest(v - v.Floor as real)
  }

  function OutputDatetime(v: real): string {
    Joined(SerialToDate, FractionToTime, v)
  }

  // ---------------------------------------------------------------- dates

  const FIRST: Date := Date(1899, 12, 31)

  lemma FirstDay()
    ensures Valid(FIRST) && DayOf(FIRST) + 25569 == 1
  {
    WholeYear(false);
    assert MonthStart(11, false) == MonthStart(12, false) - 31;
  }

  lemma FromJanuary(y: int, m: int, d: int)
    requires 1 <= m <= 12 && d >= 1
    ensures MakeDay(y, m, d) >= DayFromYear(y)
  {
  }

  /** A valid date is refused exactly when it is before 1899-12-31 and its year has three digits
      at least; shorter years are taken for years of the twentieth century. */
  lemma DateAccepted(d: Date)
    requires Valid(d) && d.year >= 0
    ensures DateToSerial(d).Ok? <==> d.year <= 99 || !Before(d, FIRST)
    ensures d.year >= 100 && DateToSerial(d).Ok? ==> DateToSerial(d).value == DayOf(d) + 25569
  {
    FirstDay();
    if d.year <= 99 {
      var full := FullYear(d.year);
      YearsInOrder(1900, full);
      FromJanuary(full, d.month, d.day);
    } else {
      MakeDayOfValid(d);
      DaysKeepOrder(d, FIRST);
    }
  }

  /** Serials keep the order of the dates. */
  lemma SerialsKeepOrder(a: Date, b: Date)
    requires Valid(a) && Valid(b) && a.year >= 100 && b.year >= 100
    requires DateToSerial(a).Ok? && DateToSerial(b).Ok?
    ensures DateToSerial(a).value < DateToSerial(b).value <==> Before(a, b)
  {
    DateAccepted(a);
    DateAccepted(b);
    DaysKeepOrder(a, b);
  }

  /** The serial of the next day is one more. */
  lemma SerialOfTomorrow(d: Date)
    requires Valid(d) && d.year >= 100 && DateToSerial(d).Ok?
    ensures DateToSerial(Tomorrow(d)) == Ok(DateToSerial(d).value + 1)
  {
    DateAccepted(d);
    TomorrowIsNextDay(d);
    MakeDayOfValid(Tomorrow(d));
  }

  /** The spreadsheet's own numbering: 1900-01-01 is 1, and a 29th of February 1900 is counted. */
  function SpreadsheetSerial(d: Date): int
    requires Valid(d)
  {
    DayOf(d) - DayOf(FIRST) + if Before(d, Date(1900, 3, 1)) then 0 else 1
  }

  /** The serial agrees with the spreadsheet's from 1900-03-01 on, and only from then on. */
  lemma AgreesFromMarch1900(d: Date)
    requires Valid(d) && d.year >= 100 && DateToSerial(d).Ok?
    ensures DateToSerial(d).value == SpreadsheetSerial(d) <==> !Before(d, Date(1900, 3, 1))
  {
    FirstDay();
    DateAccepted(d);
  }

  lemma WholeMilliseconds(serial: int)
    ensures Milliseconds(serial as real) == (serial - 25569) * 86400000
  {
    var k := serial - 25569;
    assert serial as real - 25569.0 == k as real;
    assert k as real * 86400000.0 == (k * 86400000) as real;
    assert (-(k * 86400000)) as real == -((k * 86400000) as real);
  }

  lemma DateAtWholeDay(k: int)
    requires -100_000_000 <= k <= 100_000_000
    ensures DateAtMs(k * 86400000) == PrintDate(DateOf(k))
  {
    assert k * 86400000 / 86400000 == k;
  }

  /** A whole serial within the range of dates is printed as its day. */
  lemma OnWholeDays(serial: int)
    requires -99_974_431 <= serial <= 100_025_569
    ensures SerialToDate(serial as real) == PrintDate(DateOf(serial - 25569))
  {
    WholeMilliseconds(serial);
    DateAtWholeDay(serial - 25569);
  }

  /** The last millisecond of a day before 1970. */
  predicate Late(v: real) {
    v < 25569.0 && v > v.Floor as real + 1.0 - 1.0 / 86400000.0
  }

  lemma MillisecondsIn(v: real)
    ensures
      var start := (v.Floor - 25569) * 86400000;
      if Late(v) then Milliseconds(v) == start + 86400000 else start <= Milliseconds(v) < start + 86400000
  {
    var start, part := (v.Floor - 25569) * 86400000, (v - v.Floor as real) * 86400000.0;
    assert start as real == (v.Floor - 25569) as real * 86400000.0;
    var x := (v - 25569.0) * 86400000.0;
    assert x == start as real + part && 0.0 <= part < 86400000.0;
    TruncateIs(x, Milliseconds(v));
    assert Late(v) <==> x < 0.0 && part > 86399999.0;
    TruncatedIn(x, Milliseconds(v), start, part);
  }

  lemma TruncatedIn(x: real, n: int, start: int, part: real)
    requires x == start as real + part && 0.0 <= part < 86400000.0 && start % 86400000 == 0
    requires x >= 0.0 ==> n as real <= x < n as real + 1.0
    requires x < 0.0 ==> n as real - 1.0 < x <= n as real
    ensures if x < 0.0 && part > 86399999.0 then n == start + 86400000 else start <= n < start + 86400000
  {
  }

  lemma DayOfMs(k: int, ms: int)
    requires k * 86400000 <= ms < k * 86400000 + 86400000
    ensures ms / 86400000 == k
  {
  }

  /** Any number is shown as the day it lies in, except that before 1970 the last millisecond of a day
      is shown as the next. */
  lemma DayShown(v: real)
    requires -99_974_431.0 <= v < 100_025_569.0
    ensures SerialToDate(v) == PrintDate(DateOf(v.Floor - 25569 + if Late(v) then 1 else 0))
  {
    hide Late, PrintDate, Milliseconds;
    MillisecondsIn(v);
    var k := v.Floor - 25569 + if Late(v) then 1 else 0;
    assert -100_000_000 <= v.Floor - 25569 < 100_000_000;
    assert k * 86400000 <= Milliseconds(v) < k * 86400000 + 86400000;
    DayOfMs(k, Milliseconds(v));
    assert Milliseconds(v) <= 8640000000000000;
  }

  lemma TruncateIs(x: real, n: int)
    requires n == Truncate(x)
    ensures x >= 0.0 ==> n as real <= x < n as real + 1.0
    ensures x < 0.0 ==> n as real - 1.0 < x <= n as real
  {
  }

  // ---------------------------------------------------------------- date strings

  lemma PrintedYear(y: int)
    requires 1000 <= y <= 9999
    ensures PrintInt(y) == Print(y) && |Print(y)| == 4 && Value(Print(y)) == y
  {
    ValueOfPrint(y);
    var a, b := y / 10, y / 10 / 10;
    assert |Print(b / 10)| == 1 && |Print(b)| == 2 && |Print(a)| == 3;
  }

  lemma YearText(s: string)
    requires AllDigits(s) && |s| == 4 && Value(s) >= 1000
    ensures PrintInt(Value(s)) == s
  {
    ValueBelow(s);
    var t := s[1..];
    ValueOfZeros(t);
    ValueBelow(t);
    assert s[0] == '0' ==> s == "0" + t;
    PrintOfValue(s);
  }

  function Power10(n: nat): nat {
    if n == 0 then 1 else 10 * Power10(n - 1)
  }

  lemma {:induction false} ValueBelow(s: string)
    requires AllDigits(s)
    ensures Value(s) < Power10(|s|)
    ensures Power10(3) == 1000 && Power10(4) == 10000
  {
    if s != [] {
      ValueBelow(s[..|s| - 1]);
    }
  }

  /** A date string prints from the date it reads as, once its year needs no padding. */
  lemma PrintOfRead(s: string)
    requires IsDate(s) && ReadDate(s).year >= 1000
    ensures PrintDate(ReadDate(s)) == s
  {
    var y, m, d := s[0..4], s[5..7], s[8..10];
    YearText(y);
    Pad2OfValue(m);
    Pad2OfValue(d);
    assert s == y + "-" + m + "-" + d;
  }

  /** The printed form of a valid date with a four-digit year reads as that date. */
  lemma ReadOfPrint(d: Date)
    requires Valid(d) && 1000 <= d.year <= 9999
    ensures IsDate(PrintDate(d)) && ReadDate(PrintDate(d)) == d
  {
    PrintedYear(d.year);
    Pad2Value(d.month);
    Pad2Value(d.day);
    var s := PrintDate(d);
    assert s[0..4] == Print(d.year) && s[5..7] == Pad2(d.month) && s[8..10] == Pad2(d.day);
  }

  /** What a date string comes back as. */
  function DateThroughCell(s: string): Result<string, Failure> {
    var serial := ApplyDate(s);
    if serial.Ok? then Ok(SerialToDate(serial.value as real)) else Err(serial.error)
  }

  /** A date string comes back unchanged exactly when it is a real date from 1899-12-31 on. */
  lemma DateRoundTrip(s: string)
    requires IsDate(s)
    ensures DateThroughCell(s) == Ok(s) <==> Valid(ReadDate(s)) && !Before(ReadDate(s), FIRST)
  {
    hide MakeDay, DayOf, DateOf, PrintDate, SerialToDate;
    var d := ReadDate(s);
    if Valid(d) && !Before(d, FIRST) {
      DateAccepted(d);
      SerialInRange(s);
      OnWholeDays(DayOf(d) + 25569);
      DateOfDay(d);
      PrintOfRead(s);
    } else if DateThroughCell(s) == Ok(s) {
      ComesBackAsRead(s);
      assert false;
    }
  }

  lemma SerialInRange(s: string)
    requires IsDate(s) && ApplyDate(s).Ok?
    ensures 1 <= ApplyDate(s).value <= 3_100_000
  {
    var d := ReadDate(s);
    ValueBelow(s[0..4]);
    ValueBelow(s[5..7]);
    ValueBelow(s[8..10]);
    assert Power10(2) == 100;
    DayBound(FullYear(d.year), d.month, d.day);
  }

  lemma DayBound(y: int, m: int, d: int)
    requires y <= 9999 && m <= 99 && d <= 99
    ensures MakeDay(y, m, d) <= 3_000_000
  {
    var rolled, month := y + (m - 1) / 12, (m - 1) % 12;
    assert rolled <= 10007;
    YearsInOrder(rolled, 10007);
    MonthsInOrder(month, 12, Leap(rolled));
    WholeYear(Leap(rolled));
  }

  /** A string that comes back unchanged is the print of a valid date, so reads as one. */
  lemma ComesBackAsRead(s: string)
    requires IsDate(s) && DateThroughCell(s) == Ok(s)
    ensures Valid(ReadDate(s)) && !Before(ReadDate(s), FIRST)
  {
    SerialInRange(s);
    var serial := ApplyDate(s).value;
    OnWholeDays(serial);
    var e := DateOf(serial - 25569);
    FirstDay();
    DaysKeepOrder(e, FIRST);
    assert !Before(e, FIRST);
    if e.year <= 9999 {
      ReadOfPrint(e);
    } else {
      LongYear(e.year);
      assert false;
    }
  }

  lemma LongYear(y: int)
    requires y >= 10000
    ensures |PrintInt(y)| >= 5
  {
    PrintLonger(y, 10000);
    assert |Print(1)| == 1 && |Print(10)| == 2 && |Print(100)| == 3 && |Print(1000)| == 4;
  }

  lemma {:induction false} PrintLonger(a: nat, b: nat)
    requires a >= b
    ensures |Print(a)| >= |Print(b)|
  {
    if b >= 10 {
      PrintLonger(a / 10, b / 10);
    }
  }

  // ---------------------------------------------------------------- time strings

  /** `v` is `x` up to less than half a second. */
  predicate Near(v: real, x: real) {
    x - 1.0 / 172800.0 < v < x + 1.0 / 172800.0
  }

  /** The HH:MM:SS form of a time string. */
  function FullForm(s: string): string {
    (if HourDigits(s) == 1 then "0" else "") + s + if |s| <= 5 then ":00" else ""
  }

  lemma RoundNear(v: real, n: int)
    requires Near(v, n as real / 86400.0)
    ensures Round(v * 86400.0) == n
  {
  }

  /** Splitting the seconds of a day gives back hour, minute and second. */
  lemma SplitSeconds(t: Time)
    requires OfDay(t)
    ensures 0 <= Seconds(t) < 86400
    ensures Seconds(t) / 3600 == t.hour
    ensures Remainder(Seconds(t), 3600) / 60 == t.minute
    ensures Remainder(Seconds(t), 60) == t.second
  {
    var rest := t.minute * 60 + t.second;
    assert Seconds(t) == t.hour * 3600 + rest && rest < 3600;
    assert Seconds(t) == (t.hour * 60 + t.minute) * 60 + t.second;
  }

  lemma OneDigit(s: string)
    requires AllDigits(s) && |s| == 1
    ensures Pad2(Value(s)) == "0" + s
  {
    assert s[..0] == [];
    assert Print(Value(s)) == s;
  }

  lemma Pieces(s: string)
    requires IsTime(s)
    ensures var h := HourDigits(s);
            s == s[0..h] + ":" + s[h + 1..h + 3] + if |s| == h + 6 then ":" + s[h + 4..h + 6] else ""
  {
  }

  lemma HourText(s: string)
    requires IsTime(s)
    ensures Pad2(ReadTime(s).hour) == (if HourDigits(s) == 1 then "0" else "") + s[0..HourDigits(s)]
  {
    var h := HourDigits(s);
    if h == 1 {
      OneDigit(s[0..h]);
    } else {
      Pad2OfValue(s[0..h]);
      assert "" + s[0..h] == s[0..h];
    }
  }

  lemma MinuteText(s: string)
    requires IsTime(s)
    ensures Pad2(ReadTime(s).minute) == s[HourDigits(s) + 1..HourDigits(s) + 3]
  {
    Pad2OfValue(s[HourDigits(s) + 1..HourDigits(s) + 3]);
  }

  lemma SecondText(s: string)
    requires IsTime(s)
    ensures
      var h := HourDigits(s);
      Pad2(ReadTime(s).second) == if |s| == h + 6 then s[h + 4..h + 6] else "00"
  {
    var h := HourDigits(s);
    if |s| == h + 6 {
      Pad2OfValue(s[h + 4..h + 6]);
    }
  }

  lemma FullFormIs(s: string)
    requires IsTime(s)
    ensures FullForm(s) == PrintTime(ReadTime(s).hour, ReadTime(s).minute, ReadTime(s).second)
  {
    Pieces(s);
    HourText(s);
    MinuteText(s);
    SecondText(s);
    FullFormPieces(s, Pad2(ReadTime(s).hour), Pad2(ReadTime(s).minute), Pad2(ReadTime(s).second));
  }

  lemma FullFormPieces(s: string, hour: string, minute: string, second: string)
    requires IsTime(s)
    requires
      var h := HourDigits(s);
      && s == s[0..h] + ":" + minute + (if |s| == h + 6 then ":" + second else "")
      && hour == (if h == 1 then "0" else "") + s[0..h]
      && (|s| != h + 6 ==> second == "00")
    ensures FullForm(s) == hour + ":" + minute + ":" + second
  {
  }

  lemma TimeThroughFraction(t: Time, v: real)
    requires OfDay(t) && Near(v, DayFraction(t))
    ensures FractionToTime(v) == PrintTime(t.hour, t.minute, t.second)
  {
    RoundNear(v, Seconds(t));
    SplitSeconds(t);
  }

  lemma AcceptedTime(s: string)
    requires ApplyTime(s).Ok?
    ensures IsTime(s) && OfDay(ReadTime(s)) && ApplyTime(s).value == DayFraction(ReadTime(s))
  {
  }

  lemma AlreadyFull(s: string)
    requires |s| == 8
    ensures FullForm(s) == s
  {
    assert "" + s + "" == s;
  }

  /** An accepted time comes back in full form from any number within half a second of it. */
  lemma TimeRoundTrip(s: string, v: real)
    requires ApplyTime(s).Ok? && Near(v, ApplyTime(s).value)
    ensures FractionToTime(v) == FullForm(s)
    ensures |s| == 8 ==> FullForm(s) == s
  {
    AcceptedTime(s);
    var t := ReadTime(s);
    TimeThroughFraction(t, v);
    FullFormIs(s);
    if |s| == 8 {
      AlreadyFull(s);
    }
  }

  lemma AcceptedDatetime(s: string)
    requires ApplyDatetime(s).Ok?
    ensures IsDatetime(s) && ApplyDate(s[..10]).Ok? && ApplyTime(s[11..]).Ok?
    ensures ApplyDatetime(s).value == ApplyDate(s[..10]).value as real + ApplyTime(s[11..]).value
  {
  }

  /** Within the day the whole part of the number is the day. */
  lemma WholePart(serial: int, s: string, v: real)
    requires ApplyTime(s).Ok? && serial as real <= v && Near(v, serial as real + ApplyTime(s).value)
    ensures v.Floor == serial && Near(v - serial as real, ApplyTime(s).value)
  {
    AcceptedTime(s);
    SplitSeconds(ReadTime(s));
  }

  lemma DateComesBack(s: string)
    requires ApplyDate(s).Ok? && Valid(ReadDate(s)) && !Before(ReadDate(s), FIRST)
    ensures SerialToDate(ApplyDate(s).value as real) == s
  {
    DateRoundTrip(s);
  }

  lemma JoinedIs(whole: real -> string, rest: real -> string, v: real, serial: int, left: real)
    requires v.Floor == serial && left == v - serial as real
    ensures Joined(whole, rest, v) == whole(serial as real) + "T" + rest(left)
  {
    assert v - v.Floor as real == left;
  }

  lemma PartsComeBack(date: string, time: string, v: real)
    requires ApplyDate(date).Ok? && Valid(ReadDate(date)) && !Before(ReadDate(date), FIRST)
    requires ApplyTime(time).Ok? && v >= ApplyDate(date).value as real
    requires Near(v, ApplyDate(date).value as real + ApplyTime(time).value)
    ensures OutputDatetime(v) == date + "T" + FullForm(time)
  {
    var serial := ApplyDate(date).value;
    var left := v - serial as real;
    WholePart(serial, time, v);
    JoinedIs(SerialToDate, FractionToTime, v, serial, left);
    DateComesBack(date);
    TimeRoundTrip(time, left);
  }

  /** An accepted date and time come back from any number at most half a second off, and not
      below the day it started on. */
  lemma DatetimeRoundTrip(s: string, v: real)
    requires ApplyDatetime(s).Ok? && Near(v, ApplyDatetime(s).value)
    requires v >= ApplyDate(s[..10]).value as real
    requires Valid(ReadDate(s[..10])) && !Before(ReadDate(s[..10]), FIRST)
    ensures OutputDatetime(v) == s[..10] + "T" + FullForm(s[11..])
  {
    AcceptedDatetime(s);
    PartsComeBack(s[..10], s[11..], v);
  }

  /** `s` is the HH:MM:SS of some time of day. */
  ghost predicate PrintsTimeOfDay(s: string) {
    exists t: Time :: OfDay(t) && s == PrintTime(t.hour, t.minute, t.second)
  }

  /** Within a day a fraction comes out as a time of day except in the last half second, when it
      is shown as 24:00:00. */
  lemma LastHalfSecond(frac: real)
    requires 0.0 <= frac < 1.0
    ensures PrintsTimeOfDay(FractionToTime(frac)) <==> frac < 1.0 - 1.0 / 172800.0
    ensures frac >= 1.0 - 1.0 / 172800.0 ==> FractionToTime(frac) == "24:00:00"
  {
    var total := Round(frac * 86400.0);
    if frac < 1.0 - 1.0 / 172800.0 {
      DuringTheDay(total);
    } else {
      assert total == 86400;
      AtMidnight();
    }
  }

  lemma SplitTotal(h: nat, m: nat, s: nat)
    requires m <= 59 && s <= 59
    ensures
      var n := 3600 * h + 60 * m + s;
      n / 3600 == h && Remainder(n, 3600) / 60 == m && Remainder(n, 60) == s
  {
    var n, rest := 3600 * h + 60 * m + s, 60 * m + s;
    assert n == h * 3600 + rest && rest < 3600;
    assert n == (h * 60 + m) * 60 + s;
  }

  /** Numbers of a day and more are shown with all their hours. */
  lemma HoursShown(h: nat, m: nat, s: nat, v: real)
    requires m <= 59 && s <= 59 && Near(v, (3600 * h + 60 * m + s) as real / 86400.0)
    ensures FractionToTime(v) == PrintTime(h, m, s)
  {
    RoundNear(v, 3600 * h + 60 * m + s);
    SplitTotal(h, m, s);
  }

  lemma DuringTheDay(total: int)
    requires 0 <= total < 86400
    ensures PrintsTimeOfDay(TimeOfTotal(total))
  {
    var t := Time(total / 3600, total % 3600 / 60, total % 60);
    assert OfDay(t) && TimeOfTotal(total) == PrintTime(t.hour, t.minute, t.second);
  }

  lemma StartsWithHour(h: nat, m: int, s: int)
    ensures
      var text := PrintTime(h, m, s);
      |text| >= |Pad2(h)| && text[..|Pad2(h)|] == Pad2(h)
  {
    assert PrintTime(h, m, s) == Pad2(h) + (":" + Pad2(m) + ":" + Pad2(s));
  }

  lemma AfterTheDay()
    ensures TimeOfTotal(86400) == "24:00:00"
  {
    assert Print(24) == "24" && Pad2(24) == "24" && Pad2(0) == "00";
    assert TimeOfTotal(86400) == PrintTime(24, 0, 0);
  }

  lemma NoHour24(t: Time)
    requires OfDay(t)
    ensures PrintTime(t.hour, t.minute, t.second)[..2] != "24"
  {
    Pad2Value(t.hour);
    Pad2Value(24);
    StartsWithHour(t.hour, t.minute, t.second);
    assert Print(24) == "24";
  }

  lemma AtMidnight()
    ensures TimeOfTotal(86400) == "24:00:00" && !PrintsTimeOfDay("24:00:00")
  {
    AfterTheDay();
    forall t: Time | OfDay(t) ensures PrintTime(t.hour, t.minute, t.second) != "24:00:00" {
      NoHour24(t);
      assert "24:00:00"[..2] == "24";
    }
  }

}
