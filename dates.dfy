/** Recognising a date marker (`date_pattern`) and converting it the way
    `datetime.strptime(text, '%d %b %Y').strftime('%d/%m/%Y')` does. */
module Dates {
  import opened Strings
  import opened Outcomes

  /** Number of day digits in a text of the shape of `date_pattern`. */
  function DayWidth(t: string): int {
    |t| - 9
  }

  /** `^\d{1,2} [A-Za-z]{3} \d{4}$`: one or two digits, a space, three letters,
      a space, four digits. */
  predicate IsDatePattern(t: string) {
    var k := DayWidth(t);
    (k == 1 || k == 2) &&
    IsDigit(t[0]) && IsDigit(t[k - 1]) && t[k] == ' ' &&
    IsAsciiLetter(t[k + 1]) && IsAsciiLetter(t[k + 2]) && IsAsciiLetter(t[k + 3]) &&
    t[k + 4] == ' ' &&
    IsDigit(t[k + 5]) && IsDigit(t[k + 6]) && IsDigit(t[k + 7]) && IsDigit(t[k + 8])
  }

  const MonthAbbreviations: seq<string> :=
    ["jan", "feb", "mar", "apr", "may", "jun", "jul", "aug", "sep", "oct", "nov", "dec"]

  /** Position of `name` in `names`, or `|names|` when it is absent. */
  function IndexOf(name: string, names: seq<string>): (i: nat)
    ensures i <= |names|
    ensures i < |names| ==> names[i] == name
    ensures i == |names| ==> name !in names
  {
    if names == [] then 0
    else if names[0] == name then 0
    else 1 + IndexOf(name, names[1..])
  }

  /** `%b` in the C locale, matched without regard to case: 1..12, or 0 when the
      three letters name no month. */
  function MonthNumber(a: char, b: char, c: char): nat {
    var i := IndexOf([ToLower(a), ToLower(b), ToLower(c)], MonthAbbreviations);
    if i < 12 then i + 1 else 0
  }

  /** Gregorian leap years, as Python's `datetime` uses them. */
  predicate IsLeapYear(y: nat) {
    y % 4 == 0 && (y % 100 != 0 || y % 400 == 0)
  }

  function DaysInMonth(m: nat, y: nat): (d: nat)
    requires 1 <= m <= 12
    ensures 28 <= d <= 31
  {
    if m == 2 then (if IsLeapYear(y) then 29 else 28)
    else if m == 4 || m == 6 || m == 9 || m == 11 then 30
    else 31
  }

  /** The calendar fields a date marker writes. */
  datatype Fields = Fields(day: nat, month: nat, year: nat)

  function FieldsOf(t: string): (f: Fields)
    requires IsDatePattern(t)
    ensures f.day < 100 && f.month <= 12 && f.year < 10000
  {
    var k := DayWidth(t);
    var day := if k == 1 then DigitValue(t[0]) else 10 * DigitValue(t[0]) + DigitValue(t[1]);
    var year := 1000 * DigitValue(t[k + 5]) + 100 * DigitValue(t[k + 6]) +
                10 * DigitValue(t[k + 7]) + DigitValue(t[k + 8]);
    Fields(day, MonthNumber(t[k + 1], t[k + 2], t[k + 3]), year)
  }

  /** What `datetime` accepts: a known month, year 1 or later, and a day that exists
      in that month of that year. */
  predicate IsValidDate(f: Fields) {
    1 <= f.month <= 12 && f.year >= 1 && 1 <= f.day <= DaysInMonth(f.month, f.year)
  }

  /** `%m` for months 1..12. */
  const MonthDigits: seq<string> :=
    ["01", "02", "03", "04", "05", "06", "07", "08", "09", "10", "11", "12"]

  /** `dd/mm/yyyy` from its three digit groups. */
  function Slashed(day: string, month: string, year: string): string {
    day + "/" + month + "/" + year
  }

  /** The three groups sit at fixed positions of `dd/mm/yyyy`. */
  lemma SlashedParts(day: string, month: string, year: string)
    requires |day| == 2 && |month| == 2 && |year| == 4
    ensures var r := Slashed(day, month, year);
      |r| == 10 && r[2] == '/' && r[5] == '/' && r[..2] == day && r[3..5] == month && r[6..] == year
  {
    var r := Slashed(day, month, year);
    assert r[..2] == day;
    assert r[3..5] == month;
    assert r[6..] == year;
  }

  /** Parse a date marker into `dd/mm/yyyy`, or fail where `strptime` raises. */
  function ParseDate(t: string): Result<string, string>
    requires IsDatePattern(t)
  {
    if IsValidDate(FieldsOf(t)) then Ok(FormatDate(t)) else Err(t)
  }

  /** Two digits read back as the number they write. */
  lemma TwoDigitsValue(s: string)
    requires |s| == 2 && AllDigits(s)
    ensures DigitsValue(s) == 10 * DigitValue(s[0]) + DigitValue(s[1])
  {
    var h := s[..1];
    assert h[..0] == [];
    assert DigitsValue(h) == DigitValue(s[0]);
  }

  /** The two digits of `%m` read back as the month. */
  lemma MonthDigitsValue(m: nat)
    requires 1 <= m <= 12
    ensures |MonthDigits[m - 1]| == 2 && AllDigits(MonthDigits[m - 1])
    ensures DigitsValue(MonthDigits[m - 1]) == m
  {
    TwoDigitsValue(MonthDigits[m - 1]);
  }

  /** Four digits read back as the number they write. */
  lemma FourDigitsValue(s: string)
    requires |s| == 4 && AllDigits(s)
    ensures DigitsValue(s) == 1000 * DigitValue(s[0]) + 100 * DigitValue(s[1]) + 10 * DigitValue(s[2]) + DigitValue(s[3])
  {
    var h := s[..3];
    assert h[..2] == s[..2];
    TwoDigitsValue(s[..2]);
    assert DigitsValue(h) == 100 * DigitValue(s[0]) + 10 * DigitValue(s[1]) + DigitValue(s[2]);
  }

  /** `%d`: the day read from `t`, zero-padded to two digits. */
  function DayDigits(t: string): (r: string)
    requires IsDatePattern(t)
    ensures |r| == 2 && AllDigits(r) && DigitsValue(r) == FieldsOf(t).day
  {
    var r := if DayWidth(t) == 1 then ['0', t[0]] else [t[0], t[1]];
    TwoDigitsValue(r);
    r
  }

  /** `%Y`: the four year digits of `t`. */
  function YearDigits(t: string): (r: string)
    requires IsDatePattern(t)
    ensures |r| == 4 && AllDigits(r) && DigitsValue(r) == FieldsOf(t).year
  {
    var k := DayWidth(t);
    var r := [t[k + 5], t[k + 6], t[k + 7], t[k + 8]];
    FourDigitsValue(r);
    r
  }

  /** `strftime('%d/%m/%Y')` of the date `strptime` read from `t`. */
  function FormatDate(t: string): string
    requires IsDatePattern(t) && 1 <= FieldsOf(t).month <= 12
  {
    Slashed(DayDigits(t), MonthDigits[FieldsOf(t).month - 1], YearDigits(t))
  }

  /** `dd/mm/yyyy` as `FormatDate` writes it: its digit groups read back as the day,
      the month and the year `strptime` read. */
  lemma FormatDateSpec(t: string)
    requires IsDatePattern(t) && 1 <= FieldsOf(t).month <= 12
    ensures var r := FormatDate(t);
      |r| == 10 && r[2] == '/' && r[5] == '/' &&
      AllDigits(r[..2]) && AllDigits(r[3..5]) && AllDigits(r[6..]) &&
      DigitsValue(r[..2]) == FieldsOf(t).day &&
      DigitsValue(r[3..5]) == FieldsOf(t).month &&
      DigitsValue(r[6..]) == FieldsOf(t).year
  {
    var m := FieldsOf(t).month;
    MonthDigitsValue(m);
    SlashedParts(DayDigits(t), MonthDigits[m - 1], YearDigits(t));
  }

  /** A text of the date shape converts exactly when it names a calendar date, and
      then to `dd/mm/yyyy` whose digit groups read back as the same day, month and year. */
  lemma ParseDateSpec(t: string)
    requires IsDatePattern(t)
    ensures ParseDate(t).Ok? <==> IsValidDate(FieldsOf(t))
    ensures ParseDate(t).Ok? ==>
      var r := ParseDate(t).value;
      |r| == 10 && r[2] == '/' && r[5] == '/' &&
      AllDigits(r[..2]) && AllDigits(r[3..5]) && AllDigits(r[6..]) &&
      DigitsValue(r[..2]) == FieldsOf(t).day &&
      DigitsValue(r[3..5]) == FieldsOf(t).month &&
      DigitsValue(r[6..]) == FieldsOf(t).year
  {
    if IsValidDate(FieldsOf(t)) {
      FormatDateSpec(t);
    }
  }
}
