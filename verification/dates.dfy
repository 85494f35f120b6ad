/** Calendar dates as the web database writes them (`%d/%m/%Y`, two-digit
    day and month, four-digit year) and as the history builder reads them
    back (`parse_date`). */
module Dates {
  import opened Common

  datatype Date = Date(day: int, month: int, year: int)

  predicate IsLeapYear(y: int)
  {
    y % 4 == 0 && (y % 100 != 0 || y % 400 == 0)
  }

  function DaysInMonth(month: int, year: int): int
  {
    if month == 2 then (if IsLeapYear(year) then 29 else 28)
    else if month in {4, 6, 9, 11} then 30
    else 31
  }

  /** A date Python's `datetime` accepts. */
  predicate Valid(d: Date)
  {
    1 <= d.year <= 9999 && 1 <= d.month <= 12 && 1 <= d.day <= DaysInMonth(d.month, d.year)
  }

  /** Chronological order at day granularity (`datetime` comparison of two
      midnights). */
  predicate Before(a: Date, b: Date)
  {
    a.year < b.year
    || (a.year == b.year && a.month < b.month)
    || (a.year == b.year && a.month == b.month && a.day < b.day)
  }

  lemma BeforeIsStrictOrder(a: Date, b: Date, c: Date)
    ensures !Before(a, a)
    ensures Before(a, b) ==> !Before(b, a)
    ensures Before(a, b) && Before(b, c) ==> Before(a, c)
    ensures a == b || Before(a, b) || Before(b, a)
  {
  }

  predicate IsDigit(c: char) { '0' <= c <= '9' }

  function DigitValue(c: char): int
    requires IsDigit(c)
  {
    c as int - '0' as int
  }

  function Digit(n: int): char
    requires 0 <= n <= 9
  {
    ('0' as int + n) as char
  }

  /** Zero-padded two-digit rendering (`%d`, `%m`). */
  function Pad2(n: int): string
    requires 0 <= n < 100
  {
    [Digit(n / 10), Digit(n % 10)]
  }

  /** Zero-padded four-digit rendering (`%Y`). */
  function Pad4(n: int): string
    requires 0 <= n < 10000
  {
    [Digit(n / 1000), Digit(n / 100 % 10), Digit(n / 10 % 10), Digit(n % 10)]
  }

  /** `strftime('%d/%m/%Y')`. */
  function FormatDate(d: Date): (s: string)
    requires Valid(d)
    ensures |s| == 10 && s[2] == '/' && s[5] == '/'
  {
    Pad2(d.day) + "/" + Pad2(d.month) + "/" + Pad4(d.year)
  }

  predicate AllDigits(s: string)
  {
    forall i :: 0 <= i < |s| ==> IsDigit(s[i])
  }

  /** The number written by a string of decimal digits. */
  function Number(s: string): int
    requires AllDigits(s)
  {
    if s == [] then 0 else 10 * Number(s[..|s| - 1]) + DigitValue(s[|s| - 1])
  }

  /** `parse_date`: reads `dd/mm/yyyy`; `None` where `strptime` raises
      (wrong shape, or no such day). */
  function ParseDate(s: string): (r: Option<Date>)
    ensures r.Some? ==> Valid(r.value)
  {
    if |s| == 10 && s[2] == '/' && s[5] == '/'
       && AllDigits(s[..2]) && AllDigits(s[3..5]) && AllDigits(s[6..])
    then
      var d := Date(Number(s[..2]), Number(s[3..5]), Number(s[6..]));
      if Valid(d) then Some(d) else None
    else None
  }

  lemma Pad2Number(n: int)
    requires 0 <= n < 100
    ensures AllDigits(Pad2(n)) && Number(Pad2(n)) == n
  {
    var s := Pad2(n);
    assert s[..1] == [Digit(n / 10)];
    assert Number(s[..1]) == n / 10 by {
      assert s[..1][..0] == [];
    }
  }

  lemma Pad4Number(n: int)
    requires 0 <= n < 10000
    ensures AllDigits(Pad4(n)) && Number(Pad4(n)) == n
  {
    var s := Pad4(n);
    assert s[..3][..2][..1][..0] == [];
    assert Number(s[..1]) == n / 1000 by { assert s[..1][..0] == []; }
    assert Number(s[..2]) == n / 100 by { assert s[..2][..1] == s[..1]; }
    assert Number(s[..3]) == n / 10 by { assert s[..3][..2] == s[..2]; }
    assert s[..4][..3] == s[..3];
    assert s[..4] == s;
  }

  lemma NumberOfTwoDigits(s: string)
    requires |s| == 2 && AllDigits(s)
    ensures 0 <= Number(s) < 100
    ensures Pad2(Number(s)) == s
  {
    assert s[..1][..0] == [];
    var a := DigitValue(s[0]);
    var b := DigitValue(s[1]);
    assert Number(s[..1]) == a;
    assert Number(s) == 10 * a + b by { assert s[..1] == s[..|s| - 1]; }
  }

  lemma NumberOfFourDigits(s: string)
    requires |s| == 4 && AllDigits(s)
    ensures 0 <= Number(s) < 10000
    ensures Pad4(Number(s)) == s
  {
    assert s[..1][..0] == [];
    var a := DigitValue(s[0]);
    var b := DigitValue(s[1]);
    var c := DigitValue(s[2]);
    var e := DigitValue(s[3]);
    assert Number(s[..1]) == a;
    assert Number(s[..2]) == 10 * a + b by { assert s[..2][..1] == s[..1]; }
    assert Number(s[..3]) == 100 * a + 10 * b + c by { assert s[..3][..2] == s[..2]; }
    assert Number(s) == 1000 * a + 100 * b + 10 * c + e by { assert s[..3] == s[..|s| - 1]; }
    FourDigits(a, b, c, e);
  }

  /** The digits of `abce` read back by division. */
  lemma FourDigits(a: int, b: int, c: int, e: int)
    requires 0 <= a <= 9 && 0 <= b <= 9 && 0 <= c <= 9 && 0 <= e <= 9
    ensures var n := 1000 * a + 100 * b + 10 * c + e;
            n / 1000 == a && n / 100 % 10 == b && n / 10 % 10 == c && n % 10 == e
  {
    var n := 1000 * a + 100 * b + 10 * c + e;
    assert n / 10 == 100 * a + 10 * b + c;
    assert n / 100 == 10 * a + b;
  }

  /** Round trip: a valid date written as `dd/mm/yyyy` reads back as itself. */
  lemma ParseFormat(d: Date)
    requires Valid(d)
    ensures ParseDate(FormatDate(d)) == Some(d)
  {
    var s := FormatDate(d);
    Pad2Number(d.day);
    Pad2Number(d.month);
    Pad4Number(d.year);
    assert s[..2] == Pad2(d.day);
    assert s[3..5] == Pad2(d.month);
    assert s[6..] == Pad4(d.year);
  }

  /** Round trip the other way: a string that parses is exactly the
      rendering of the date it denotes. */
  lemma FormatParse(s: string)
    requires ParseDate(s).Some?
    ensures FormatDate(ParseDate(s).value) == s
  {
    var d := ParseDate(s).value;
    NumberOfTwoDigits(s[..2]);
    NumberOfTwoDigits(s[3..5]);
    NumberOfFourDigits(s[6..]);
    assert s == s[..2] + "/" + s[3..5] + "/" + s[6..];
  }
}
