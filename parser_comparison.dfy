/** The two library normalisers side by side. The browser-side one (FileParser) reads
    ambiguous numeric dates day first and strips five currency symbols; the server-side one
    (CsvParser) reads them month first and strips only the dollar sign. The same statement row
    can therefore become two different transactions, or a transaction and an error. */
module ParserComparison {
  import opened Wrappers
  import opened Text
  import opened Numbers
  import opened DatePatterns
  import opened Ledger
  import FileParser
  import CsvParser
  import LocalParse

  /** y-m-d texts with years of one length and two-character months differ when the months do. */
  lemma YmdMonthsDiffer(y1: string, m1: string, d1: string, y2: string, m2: string, d2: string)
    requires |y1| == |y2| && |m1| == 2 && |m2| == 2 && m1 != m2
    ensures Ymd(y1, m1, d1) != Ymd(y2, m2, d2)
  {
    var k := |y1| + 1;
    assert Ymd(y1, m1, d1)[k..k + 2] == m1;
    assert Ymd(y2, m2, d2)[k..k + 2] == m2;
  }

  /** The month of a YYYY-MM-DD text is the two characters after the first dash. */
  lemma CalendarMonth(s: string, y: string, m: string, d: string)
    requires Fits(y, Four) && Fits(m, Width(2, 2)) && s == Ymd(y, m, d)
    requires IsCalendarDate(s)
    ensures 1 <= DigitsValue(m) <= 12
  {
    var f :| Shaped(s, '-', f, Four, Width(2, 2), Width(2, 2))
      && 1 <= DigitsValue(f.second) <= 12 && 1 <= DigitsValue(f.third) <= 31;
    assert f.second == m by {
      MonthAtFive(f.first, f.second, f.third);
      MonthAtFive(y, m, d);
    }
  }

  lemma MonthAtFive(y: string, m: string, d: string)
    requires |y| == 4 && |m| == 2
    ensures Ymd(y, m, d)[5..7] == m
  {
    assert Ymd(y, m, d) == (y + "-") + (m + ("-" + d));
  }

  /** For a/b/yyyy and a-b-yyyy with both numbers a possible month and different, the two
      parsers disagree: the browser-side one takes b as the month, the server-side one a. */
  lemma AmbiguousDatesDisagree(a: string, b: string, y: string, sep: char,
                               native: string -> Option<string>)
    requires sep == '/' || sep == '-'
    requires Fits(a, OneOrTwo) && Fits(b, OneOrTwo) && Fits(y, Four)
    requires 1 <= DigitsValue(a) <= 12 && 1 <= DigitsValue(b) <= 12 && DigitsValue(a) != DigitsValue(b)
    ensures var t := a + [sep] + b + [sep] + y;
      && FileParser.NormalizeDate(t, native)
         == Success(Ymd(y, TwoDigits(DigitsValue(b)), TwoDigits(DigitsValue(a))))
      && CsvParser.NormalizeDate(t, native) == Success(Ymd(y, Pad2(a), Pad2(b)))
      && FileParser.NormalizeDate(t, native) != CsvParser.NormalizeDate(t, native)
  {
    FileParser.NumericDate(a, b, y, sep, native);
    FileParser.SmartDayMonthRules(a, b, y);
    CsvParser.MonthFirstDate(a, b, y, sep, native);
    Pad2Value(a);
    var m1 := TwoDigits(DigitsValue(b));
    assert m1 != Pad2(a) by {
      assert DigitsValue(m1) == DigitsValue(b);
    }
    YmdMonthsDiffer(y, m1, TwoDigits(DigitsValue(a)), y, Pad2(a), Pad2(b));
  }

  /** When the first number is above 12 the browser-side parser produces a calendar date with
      the numbers swapped, while the server-side one produces a text whose month is above 12,
      which is no calendar date. */
  lemma DayFirstDatesSplit(a: string, b: string, y: string, sep: char,
                           native: string -> Option<string>)
    requires sep == '/' || sep == '-'
    requires Fits(a, OneOrTwo) && Fits(b, OneOrTwo) && Fits(y, Four)
    requires 12 < DigitsValue(a) <= 31 && 1 <= DigitsValue(b) <= 12
    ensures var t := a + [sep] + b + [sep] + y;
      && FileParser.NormalizeDate(t, native).Success?
      && IsCalendarDate(FileParser.NormalizeDate(t, native).value)
      && CsvParser.NormalizeDate(t, native).Success?
      && !IsCalendarDate(CsvParser.NormalizeDate(t, native).value)
  {
    var t := a + [sep] + b + [sep] + y;
    FileParser.NumericDate(a, b, y, sep, native);
    FileParser.SmartDayMonthRules(a, b, y);
    YmdIsCalendarDate(y, DigitsValue(b), DigitsValue(a));
    CsvParser.MonthFirstDate(a, b, y, sep, native);
    Pad2Value(a);
    if IsCalendarDate(Ymd(y, Pad2(a), Pad2(b))) {
      CalendarMonth(Ymd(y, Pad2(a), Pad2(b)), y, Pad2(a), Pad2(b));
      assert false;
    }
  }

  /** The currency signs only the browser-side parser strips. */
  predicate IsForeignSign(c: char)
  {
    c in "₹€£¥"
  }

  /** parseFloat of text that starts with a character that is neither white space, a sign, a
      digit nor a point is NaN. */
  lemma ParseFloatBadStart(s: string)
    requires s != [] && !IsSpace(s[0]) && !IsDigit(s[0]) && s[0] !in "+-."
    ensures ParseFloat(s) == None
  {
    assert LeadingSpaces(s) == 0;
    assert LeadingDigits(s) == 0;
  }

  /** An amount with a rupee, euro, pound or yen sign in front reads as the bare amount in the
      browser-side parser and is an error in the server-side one. */
  lemma ForeignSignAmounts(c: char, raw: string)
    requires IsForeignSign(c)
    ensures FileParser.NormalizeAmount([c] + raw).Success? == FileParser.NormalizeAmount(raw).Success?
    ensures FileParser.NormalizeAmount(raw).Success? ==>
      FileParser.NormalizeAmount([c] + raw).value == FileParser.NormalizeAmount(raw).value
    ensures CsvParser.NormalizeAmount([c] + raw) == Failure(CannotParseAmount([c] + raw))
  {
    assert FileParser.IsAmountNoise(c) && !CsvParser.IsDollarNoise(c);
    RemoveAllCons(c, raw, FileParser.IsAmountNoise);
    RemoveAllCons(c, raw, CsvParser.IsDollarNoise);
    ParseFloatBadStart([c] + RemoveAll(raw, CsvParser.IsDollarNoise));
  }

  /** A day-first date that the route's local reader rewrites month first (25/01/2024 becomes
      2024-25-01) is stored as written by the server-side normaliser, although it is no
      calendar date, while the browser-side normaliser swaps it back to 2024-01-25. */
  lemma RouteDayFirstDates(a: string, b: string, y: string, native: string -> Option<string>)
    requires Fits(a, OneOrTwo) && Fits(b, OneOrTwo) && Fits(y, Four)
    requires 12 < DigitsValue(a) <= 31 && 1 <= DigitsValue(b) <= 12
    ensures var line := LocalParse.NormDate(a + "/" + b + "/" + y, native);
      && line == Some(Ymd(y, Pad2(a), Pad2(b)))
      && CsvParser.NormalizeDate(line.value, native) == Success(line.value)
      && !IsCalendarDate(line.value)
      && FileParser.NormalizeDate(line.value, native) == Success(Ymd(y, Pad2(b), Pad2(a)))
      && IsCalendarDate(FileParser.NormalizeDate(line.value, native).value)
  {
    assert a + "/" + b + "/" + y == a + ['/'] + b + ['/'] + y;
    LocalParse.NormDateMonthFirst(a, b, y, '/', native);
    Pad2Value(a);
    Pad2Value(b);
    CsvParser.NormalizeDateIdempotent(y, Pad2(a), Pad2(b), native);
    if IsCalendarDate(Ymd(y, Pad2(a), Pad2(b))) {
      CalendarMonth(Ymd(y, Pad2(a), Pad2(b)), y, Pad2(a), Pad2(b));
      assert false;
    }
    FileParser.IsoDateSwapped(y, Pad2(a), Pad2(b), native);
    YmdIsCalendarDate(y, DigitsValue(b), DigitsValue(a));
    assert TwoDigits(DigitsValue(b)) == Pad2(b) by {
      SameTwoDigits(b);
    }
    assert TwoDigits(DigitsValue(a)) == Pad2(a) by {
      SameTwoDigits(a);
    }
  }

  /** Two two-digit texts with the same value are equal. */
  lemma SameTwoDigits(a: string)
    requires Fits(a, OneOrTwo)
    ensures TwoDigits(DigitsValue(a)) == Pad2(a)
  {
    Pad2Value(a);
    var p, q := TwoDigits(DigitsValue(a)), Pad2(a);
    TwoDigitText(p);
    TwoDigitText(q);
  }

  /** A two-digit text is determined by its value. */
  lemma TwoDigitText(s: string)
    requires |s| == 2 && AllDigits(s)
    ensures DigitsValue(s) < 100
    ensures s == [DigitChar(DigitsValue(s) / 10), DigitChar(DigitsValue(s) % 10)]
  {
    assert s[..1][..0] == [];
    assert DigitsValue(s[..1]) == DigitValue(s[0]);
    assert DigitsValue(s) == 10 * DigitValue(s[0]) + DigitValue(s[1]);
    assert DigitChar(DigitValue(s[0])) == s[0];
    assert DigitChar(DigitValue(s[1])) == s[1];
  }
}
