/** The server-side CSV normaliser (src/lib/csv-parser.ts) the upload route uses: a
    month-first date normaliser that knows only four-digit years, an amount normaliser that
    strips the dollar sign, commas and white space, and the shared row-by-row ledger builder. */
module CsvParser {
  import opened Wrappers
  import opened Text
  import opened Numbers
  import opened DatePatterns
  import opened Ledger

  // ---------------------------------------------------------------- dates

  /** A month-first branch m?d?yyyy with separator sep, padded and not checked. */
  function MonthFirstBranch(t: string, sep: char): Option<string>
    requires !IsDigit(sep)
  {
    match MatchNumeric(t, sep, OneOrTwo, OneOrTwo, Four)
    case None => None
    case Some(f) => Some(Ymd(f.third, Pad2(f.first), Pad2(f.second)))
  }

  /** normalizeDate: the trimmed text is tried as ISO, then m/d/yyyy, then m-d-yyyy, then by
      the platform's own date reading (native, which returns the YYYY-MM-DD day of the instant
      it reads, or None for an invalid date); otherwise it is an error naming the raw text. */
  function NormalizeDate(raw: string, native: string -> Option<string>): (r: Result<string, ParseError>)
    ensures r.Failure? ==> r.error == CannotParseDate(raw)
    ensures r.Failure? ==> native(Trim(raw)).None?
  {
    var t := Trim(raw);
    var iso := PaddedIso(t);
    if iso.Some? then Success(iso.value)
    else
      var slash := MonthFirstBranch(t, '/');
      if slash.Some? then Success(slash.value)
      else
        var dash := MonthFirstBranch(t, '-');
        if dash.Some? then Success(dash.value)
        else
          match native(t)
          case Some(d) => Success(d)
          case None => Failure(CannotParseDate(raw))
  }

  /** Every Y-M-D date with a four-digit year is padded and kept, whatever its month and day:
      a month of 25 passes through. */
  lemma IsoDatePadded(y: string, m: string, d: string, native: string -> Option<string>)
    requires Fits(y, Four) && Fits(m, OneOrTwo) && Fits(d, OneOrTwo)
    ensures NormalizeDate(Ymd(y, m, d), native) == Success(Ymd(y, Pad2(m), Pad2(d)))
  {
    var t := Ymd(y, m, d);
    var f := Fields(y, m, d);
    assert Shaped(t, '-', f, Four, OneOrTwo, OneOrTwo);
    TrimShaped(t, '-', f, Four, OneOrTwo, OneOrTwo);
    PaddedIsoOf(y, m, d);
  }

  /** The normaliser's own output is a fixed point: YYYY-MM-DD normalises to itself. */
  lemma NormalizeDateIdempotent(y: string, m: string, d: string, native: string -> Option<string>)
    requires Fits(y, Four) && Fits(m, Width(2, 2)) && Fits(d, Width(2, 2))
    ensures NormalizeDate(Ymd(y, m, d), native) == Success(Ymd(y, m, d))
  {
    IsoDatePadded(y, m, d, native);
  }

  /** m/d/yyyy and m-d-yyyy are read month first, whatever the numbers: 25/01/2024 becomes
      2024-25-01. */
  lemma MonthFirstDate(a: string, b: string, y: string, sep: char, native: string -> Option<string>)
    requires sep == '/' || sep == '-'
    requires Fits(a, OneOrTwo) && Fits(b, OneOrTwo) && Fits(y, Four)
    ensures NormalizeDate(a + [sep] + b + [sep] + y, native) == Success(Ymd(y, Pad2(a), Pad2(b)))
  {
    var t := a + [sep] + b + [sep] + y;
    var f := Fields(a, b, y);
    assert Shaped(t, sep, f, OneOrTwo, OneOrTwo, Four);
    TrimShaped(t, sep, f, OneOrTwo, OneOrTwo, Four);
    MatchNumericComplete(t, sep, f, OneOrTwo, OneOrTwo, Four);
    if sep == '-' {
      OtherFirstWidth(t, '-', f, OneOrTwo, OneOrTwo, Four, Four, OneOrTwo, OneOrTwo);
      OtherSeparator(t, '-', '/', f, OneOrTwo, OneOrTwo, Four, OneOrTwo, OneOrTwo, Four);
    } else {
      OtherSeparator(t, '/', '-', f, OneOrTwo, OneOrTwo, Four, Four, OneOrTwo, OneOrTwo);
    }
  }

  /** A date whose year does not have four digits (a/b/yy, a.b.yyyy) matches no pattern and is
      left to the platform's date reading, failing when that fails. */
  lemma OtherDatesNative(a: string, b: string, y: string, sep: char, native: string -> Option<string>)
    requires sep == '/' || sep == '-' || sep == '.'
    requires Fits(a, OneOrTwo) && Fits(b, OneOrTwo) && Fits(y, TwoToFour)
    requires |y| != 4 || sep == '.'
    ensures var t := a + [sep] + b + [sep] + y;
      NormalizeDate(t, native)
      == (match native(t) case Some(d) => Success(d) case None => Failure(CannotParseDate(t)))
  {
    var t := a + [sep] + b + [sep] + y;
    var f := Fields(a, b, y);
    assert Shaped(t, sep, f, OneOrTwo, OneOrTwo, TwoToFour);
    TrimShaped(t, sep, f, OneOrTwo, OneOrTwo, TwoToFour);
    if sep == '-' {
      OtherFirstWidth(t, '-', f, OneOrTwo, OneOrTwo, TwoToFour, Four, OneOrTwo, OneOrTwo);
      OtherSeparator(t, '-', '/', f, OneOrTwo, OneOrTwo, TwoToFour, OneOrTwo, OneOrTwo, Four);
      OtherThirdWidth(t, '-', f, OneOrTwo, OneOrTwo, TwoToFour, OneOrTwo, OneOrTwo, Four);
    } else if sep == '/' {
      OtherSeparator(t, '/', '-', f, OneOrTwo, OneOrTwo, TwoToFour, Four, OneOrTwo, OneOrTwo);
      OtherThirdWidth(t, '/', f, OneOrTwo, OneOrTwo, TwoToFour, OneOrTwo, OneOrTwo, Four);
      OtherSeparator(t, '/', '-', f, OneOrTwo, OneOrTwo, TwoToFour, OneOrTwo, OneOrTwo, Four);
    } else {
      OtherSeparator(t, '.', '-', f, OneOrTwo, OneOrTwo, TwoToFour, Four, OneOrTwo, OneOrTwo);
      OtherSeparator(t, '.', '/', f, OneOrTwo, OneOrTwo, TwoToFour, OneOrTwo, OneOrTwo, Four);
      OtherSeparator(t, '.', '-', f, OneOrTwo, OneOrTwo, TwoToFour, OneOrTwo, OneOrTwo, Four);
    }
  }

  // ---------------------------------------------------------------- amounts

  /** The characters normalizeAmount strips: the dollar sign, commas and white space. */
  predicate IsDollarNoise(c: char)
  {
    c == '$' || c == ',' || IsSpace(c)
  }

  function NormalizeAmount(raw: string): (r: Result<Reading, ParseError>)
    ensures r.Success? <==> ParseFloat(RemoveAll(raw, IsDollarNoise)).Some?
    ensures r.Success? ==>
      var num := ParseFloat(RemoveAll(raw, IsDollarNoise)).value;
      r.value.amount >= 0.0 && SignedAmount(r.value) == num && (r.value.kind == Debit <==> num < 0.0)
    ensures r.Failure? ==> r.error == CannotParseAmount(raw)
  {
    TrimNoop(RemoveAll(raw, IsDollarNoise));
    ReadAmount(raw, IsDollarNoise)
  }

  // ---------------------------------------------------------------- rows

  /** This file's date normaliser, with the engine's own date reader as its last resort. */
  function DateReader(native: string -> Option<string>): string -> Result<string, ParseError>
  {
    raw => NormalizeDate(raw, native)
  }

  /** normalizeTransactions: every row normalised in order by this file's date and amount
      normalisers, or the first failing row's error numbered from 1. */
  function NormalizeTransactions(rows: seq<RawTransaction>, currency: Option<string>,
                                 native: string -> Option<string>)
    : (r: Result<seq<NormalizedTransaction>, RowError>)
    ensures r.Success? <==> forall i :: 0 <= i < |rows| ==>
      Row(rows, i, currency, DateReader(native), NormalizeAmount).Success?
    ensures r.Success? ==> |r.value| == |rows|
    ensures r.Success? ==> forall i :: 0 <= i < |rows| ==>
      Row(rows, i, currency, DateReader(native), NormalizeAmount) == Success(r.value[i])
    ensures r.Failure? ==>
      && 1 <= r.error.row <= |rows|
      && Row(rows, r.error.row - 1, currency, DateReader(native), NormalizeAmount) == Failure(r.error.cause)
      && forall i :: 0 <= i < r.error.row - 1 ==>
        Row(rows, i, currency, DateReader(native), NormalizeAmount).Success?
  {
    NormalizeRows(rows, currency, DateReader(native), NormalizeAmount)
  }
}
