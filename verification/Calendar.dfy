/** Dates of the Gregorian calendar by day number, and their text "2006-01-02". */
module Calendar {
  import opened Json

  datatype Date = Date(year: nat, month: nat, day: nat)

  predicate Leap(year: nat) {
    year % 4 == 0 && (year % 100 != 0 || year % 400 == 0)
  }

  function DaysIn(year: nat, month: nat): nat {
    if month == 2 then (if Leap(year) then 29 else 28)
    else if month == 4 || month == 6 || month == 9 || month == 11 then 30
    else 31
  }

  function Tomorrow(d: Date): Date {
    if d.day < DaysIn(d.year, d.month) then d.(day := d.day + 1)
    else if d.month < 12 then Date(d.year, d.month + 1, 1)
    else Date(d.year + 1, 1, 1)
  }

  /** The date of day `n` after 1 January 1970. */
  function DateOf(n: nat): (d: Date)
    ensures 1 <= d.month <= 12 && 1 <= d.day <= 31
  {
    if n == 0 then Date(1970, 1, 1) else Tomorrow(DateOf(n - 1))
  }

  predicate Earlier(a: Date, b: Date) {
    a.year < b.year || (a.year == b.year && (a.month < b.month || (a.month == b.month && a.day < b.day)))
  }

  lemma {:induction false} DatesIncrease(m: nat, n: nat)
    requires m < n
    ensures Earlier(DateOf(m), DateOf(n))
  {
    if m < n - 1 {
      DatesIncrease(m, n - 1);
    }
    assert Earlier(DateOf(n - 1), Tomorrow(DateOf(n - 1)));
  }

  /** Days of a common year before each month. */
  function DaysBefore(month: nat): nat {
    match month
    case 1 => 0
    case 2 => 31
    case 3 => 59
    case 4 => 90
    case 5 => 120
    case 6 => 151
    case 7 => 181
    case 8 => 212
    case 9 => 243
    case 10 => 273
    case 11 => 304
    case _ => 334
  }

  /** The number of a Gregorian date, counted from 1 January 1970, by the leap years before it. */
  function DayNumber(d: Date): int {
    var y := d.year - 1;
    365 * y + y / 4 - y / 100 + y / 400 + DaysBefore(d.month)
    + (if d.month > 2 && d.year % 4 == 0 && (d.year % 100 != 0 || d.year % 400 == 0) then 1 else 0)
    + d.day - 719163
  }

  predicate OnTheCalendar(d: Date) {
    && d.year >= 1970 && 1 <= d.month <= 12 && 1 <= d.day
    && d.day <= (if d.month == 2 then 28 + (if d.year % 4 == 0 && (d.year % 100 != 0 || d.year % 400 == 0) then 1 else 0)
                 else if d.month in {4, 6, 9, 11} then 30 else 31)
  }

  lemma LeapYearsBefore(year: nat)
    requires year >= 1
    ensures year / 4 - year / 100 + year / 400
      == (year - 1) / 4 - (year - 1) / 100 + (year - 1) / 400
         + (if year % 4 == 0 && (year % 100 != 0 || year % 400 == 0) then 1 else 0)
  {
    Steps(year, 4);
    Steps(year, 100);
    Steps(year, 400);
    assert year % 400 == 0 ==> year % 100 == 0;
    assert year % 100 == 0 ==> year % 4 == 0;
  }

  lemma Steps(n: nat, k: nat)
    requires n >= 1 && k in {4, 100, 400}
    ensures n / k == (n - 1) / k + if n % k == 0 then 1 else 0
  {
  }

  lemma MonthEnds(d: Date)
    requires OnTheCalendar(d) && d.day == DaysIn(d.year, d.month) && d.month < 12
    ensures OnTheCalendar(Date(d.year, d.month + 1, 1)) && DayNumber(Date(d.year, d.month + 1, 1)) == DayNumber(d) + 1
  {
    if d.month == 1 {
    } else if d.month == 2 {
    } else if d.month <= 6 {
    } else {
    }
  }

  lemma YearEnds(d: Date)
    requires OnTheCalendar(d) && d.day == 31 && d.month == 12
    ensures OnTheCalendar(Date(d.year + 1, 1, 1)) && DayNumber(Date(d.year + 1, 1, 1)) == DayNumber(d) + 1
  {
    LeapYearsBefore(d.year);
  }

  lemma TomorrowIsTheNextNumber(d: Date)
    requires OnTheCalendar(d)
    ensures OnTheCalendar(Tomorrow(d)) && DayNumber(Tomorrow(d)) == DayNumber(d) + 1
  {
    assert d.day <= DaysIn(d.year, d.month);
    if d.day == DaysIn(d.year, d.month) {
      if d.month < 12 {
        MonthEnds(d);
      } else {
        YearEnds(d);
      }
    }
  }

  /** No two dates of the calendar have one number. */
  lemma NumbersDiffer(a: Date, b: Date)
    requires OnTheCalendar(a) && OnTheCalendar(b) && DayNumber(a) == DayNumber(b)
    ensures a == b
  {
    if Earlier(a, b) {
      NumbersGrow(a, b);
    } else if Earlier(b, a) {
      NumbersGrow(b, a);
    }
  }

  lemma {:induction false} NumbersGrow(a: Date, b: Date)
    requires OnTheCalendar(a) && OnTheCalendar(b) && Earlier(a, b)
    ensures DayNumber(a) < DayNumber(b)
    decreases b.year - a.year
  {
    if a.year < b.year {
      LastAndFirst(a, b);
      var next := Date(a.year + 1, 1, 1);
      if a.year + 1 < b.year {
        NumbersGrow(next, b);
      }
    }
  }

  lemma LastAndFirst(a: Date, b: Date)
    requires OnTheCalendar(a) && OnTheCalendar(b) && a.year < b.year
    ensures OnTheCalendar(Date(a.year + 1, 1, 1)) && DayNumber(a) < DayNumber(Date(a.year + 1, 1, 1))
    ensures a.year + 1 == b.year ==> DayNumber(Date(a.year + 1, 1, 1)) <= DayNumber(b)
  {
    LeapYearsBefore(a.year);
  }

  /** The date of a day is the Gregorian one with its number. */
  lemma {:induction false} DateOfIsGregorian(n: nat)
    ensures OnTheCalendar(DateOf(n)) && DayNumber(DateOf(n)) == n
  {
    if n > 0 {
      DateOfIsGregorian(n - 1);
      TomorrowIsTheNextNumber(DateOf(n - 1));
    }
  }

  // ---------------------------------------------------------------------------------------------
  // Text
  // ---------------------------------------------------------------------------------------------

  function Zeros(n: nat): string {
    if n == 0 then [] else ['0'] + Zeros(n - 1)
  }

  /** Decimal, padded with zeros to `width`. */
  function Padded(n: nat, width: nat): string {
    var s := Digits(n);
    if |s| < width then Zeros(width - |s|) + s else s
  }

  function Format(d: Date): string {
    Padded(d.year, 4) + (['-'] + (Padded(d.month, 2) + (['-'] + Padded(d.day, 2))))
  }

  lemma {:induction false} ReadZeros(n: nat, rest: string)
    ensures ReadDigits(0, Zeros(n) + rest) == ReadDigits(0, rest)
  {
    if n > 0 {
      assert (Zeros(n) + rest)[1..] == Zeros(n - 1) + rest;
      ReadZeros(n - 1, rest);
    } else {
      assert Zeros(n) + rest == rest;
    }
  }

  lemma ReadPadded(n: nat, width: nat, rest: string)
    requires NoDigitFirst(rest)
    ensures ReadDigits(0, Padded(n, width) + rest) == (n, rest)
  {
    var s := Digits(n);
    assert ReadDigits(0, s + rest) == (n, rest) by {
      ReadPrintedDigits(0, n, rest);
      AppendToZero(n);
    }
    if |s| < width {
      assert Padded(n, width) + rest == Zeros(width - |s|) + (s + rest);
      ReadZeros(width - |s|, s + rest);
    }
  }

  lemma FormatIsInjective(a: Date, b: Date)
    requires Format(a) == Format(b)
    ensures a == b
  {
    var a2, b2: string := ['-'] + Padded(a.day, 2), ['-'] + Padded(b.day, 2);
    var a1, b1: string := ['-'] + (Padded(a.month, 2) + a2), ['-'] + (Padded(b.month, 2) + b2);
    ReadPadded(a.year, 4, a1);
    ReadPadded(b.year, 4, b1);
    assert a1[1..] == Padded(a.month, 2) + a2 && b1[1..] == Padded(b.month, 2) + b2;
    ReadPadded(a.month, 2, a2);
    ReadPadded(b.month, 2, b2);
    assert a2[1..] == Padded(a.day, 2) + [] && b2[1..] == Padded(b.day, 2) + [];
    ReadPadded(a.day, 2, []);
    ReadPadded(b.day, 2, []);
  }

  /** The text of day `n` is that of the calendar's date with the number `n`, and of no other. */
  lemma TextNamesTheDay(n: nat, d: Date)
    ensures Format(DateOf(n)) == Format(d) <==> OnTheCalendar(d) && DayNumber(d) == n
  {
    DateOfIsGregorian(n);
    if Format(DateOf(n)) == Format(d) {
      FormatIsInjective(DateOf(n), d);
    }
    if OnTheCalendar(d) && DayNumber(d) == n {
      NumbersDiffer(d, DateOf(n));
    }
  }

  predicate NoColon(s: string) {
    forall i :: 0 <= i < |s| ==> s[i] != ':'
  }

  lemma {:induction false} DigitsHaveNoColon(n: nat)
    ensures NoColon(Digits(n))
  {
    if n >= 10 {
      DigitsHaveNoColon(n / 10);
    }
  }

  lemma {:induction false} ZerosHaveNoColon(n: nat)
    ensures NoColon(Zeros(n))
  {
    if n > 0 {
      ZerosHaveNoColon(n - 1);
    }
  }

  lemma PaddedHasNoColon(n: nat, width: nat)
    ensures NoColon(Padded(n, width))
  {
    DigitsHaveNoColon(n);
    if |Digits(n)| < width {
      ZerosHaveNoColon(width - |Digits(n)|);
    }
  }

  lemma FormatHasNoColon(d: Date)
    ensures NoColon(Format(d))
  {
    PaddedHasNoColon(d.year, 4);
    PaddedHasNoColon(d.month, 2);
    PaddedHasNoColon(d.day, 2);
  }

  predicate DigitAt(s: string, i: nat, value: int) {
    i < |s| && s[i] as int == '0' as int + value
  }

  /** Up to the year 9999 the text has the form 2006-01-02, with the digits of the year, month and day. */
  lemma FormatText(d: Date)
    requires d.year <= 9999 && d.month <= 99 && d.day <= 99
    ensures var s := Format(d);
      && |s| == 10 && s[4] == '-' && s[7] == '-'
      && DigitAt(s, 0, d.year / 1000) && DigitAt(s, 1, d.year / 100 % 10) && DigitAt(s, 2, d.year / 10 % 10) && DigitAt(s, 3, d.year % 10)
      && DigitAt(s, 5, d.month / 10) && DigitAt(s, 6, d.month % 10)
      && DigitAt(s, 8, d.day / 10) && DigitAt(s, 9, d.day % 10)
  {
    PaddedText4(d.year);
    PaddedText2(d.month);
    PaddedText2(d.day);
  }

  lemma DigitsOfTwo(n: nat)
    requires 10 <= n < 100
    ensures Digits(n) == [('0' as int + n / 10) as char, ('0' as int + n % 10) as char]
  {
  }

  lemma PaddedText2(n: nat)
    requires n <= 99
    ensures Padded(n, 2) == [('0' as int + n / 10) as char, ('0' as int + n % 10) as char]
  {
    if n >= 10 {
      DigitsOfTwo(n);
    } else {
      assert Zeros(1) == ['0'] + Zeros(0) && Zeros(0) == [];
    }
  }

  lemma PaddedText4(n: nat)
    requires n <= 9999
    ensures |Padded(n, 4)| == 4
    ensures DigitAt(Padded(n, 4), 0, n / 1000) && DigitAt(Padded(n, 4), 1, n / 100 % 10)
    ensures DigitAt(Padded(n, 4), 2, n / 10 % 10) && DigitAt(Padded(n, 4), 3, n % 10)
  {
    assert Zeros(0) == [] && Zeros(1) == ['0'] + Zeros(0) && Zeros(2) == ['0'] + Zeros(1) && Zeros(3) == ['0'] + Zeros(2);
    if n >= 1000 {
      DigitsOfTwo(n / 100);
      assert n / 10 / 10 == n / 100 && n / 100 / 10 == n / 1000;
      assert Digits(n) == Digits(n / 10) + [('0' as int + n % 10) as char];
      assert Digits(n / 10) == Digits(n / 100) + [('0' as int + n / 10 % 10) as char];
    } else if n >= 100 {
      DigitsOfTwo(n / 10);
      assert n / 10 / 10 == n / 100;
      assert Digits(n) == Digits(n / 10) + [('0' as int + n % 10) as char];
    } else if n >= 10 {
      DigitsOfTwo(n);
    } else {
      assert Digits(n) == [('0' as int + n) as char];
    }
  }
}
