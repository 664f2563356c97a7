/** The browser-side statement normaliser (src/lib/file-parser.ts): file-type detection, the
    standard-header gate, the day/month-aware date normaliser, the amount normaliser that
    strips five currency symbols, and the row-by-row ledger builder. */
module FileParser {
  import opened Wrappers
  import opened Text
  import opened Numbers
  import opened DatePatterns
  import opened Ledger

  // ---------------------------------------------------------------- file type

  datatype FileType = Csv | Xlsx | Xls | Pdf

  /** The extension each file type is recognised by. */
  function ExtensionOf(t: FileType): string
  {
    match t
    case Csv => "csv"
    case Xlsx => "xlsx"
    case Xls => "xls"
    case Pdf => "pdf"
  }

  /** detectFileType: the text after the last dot (the whole name when there is none),
      lower-cased, looked up among the four known extensions. */
  function DetectFileType(fileName: string): (r: Option<FileType>)
    ensures r.Some? ==> ExtensionOf(r.value) == ToLower(LastPart(fileName, '.'))
    ensures r.None? ==> forall t :: ExtensionOf(t) != ToLower(LastPart(fileName, '.'))
  {
    var ext := ToLower(LastPart(fileName, '.'));
    if ext == "csv" then Some(Csv)
    else if ext == "xlsx" then Some(Xlsx)
    else if ext == "xls" then Some(Xls)
    else if ext == "pdf" then Some(Pdf)
    else None
  }

  /** A name base.ext is recognised exactly when ext, in any letter case, is a known
      extension, whatever dots the base holds. */
  lemma DetectByExtension(base: string, ext: string, t: FileType)
    requires '.' !in ext
    ensures DetectFileType(base + "." + ext) == Some(t) <==> ToLower(ext) == ExtensionOf(t)
  {
    LastPartAfterSeparator(base, ext, '.');
    assert base + "." + ext == base + ['.'] + ext;
  }

  /** A name without a dot is read as an extension in full: a file called "CSV" counts as a
      CSV file, and a dot-free name is recognised exactly when it spells an extension. */
  lemma DetectWithoutDot(name: string, t: FileType)
    requires '.' !in name
    ensures DetectFileType(name) == Some(t) <==> ToLower(name) == ExtensionOf(t)
  {
    LastPartWithoutSeparator(name, '.');
  }

  // ---------------------------------------------------------------- standard headers

  const DescriptionWords: seq<string> := ["description", "narration", "particulars", "details", "memo"]
  const AmountWords: seq<string> := ["amount", "value", "sum"]

  predicate HasAnyWord(s: string, words: seq<string>)
  {
    exists k :: 0 <= k < |words| && HasWord(s, words[k])
  }

  /** hasStandardHeaders: the lower-cased first line holds the whole word "date", a whole-word
      description synonym and a whole-word amount synonym. */
  predicate HasStandardHeaders(csvText: string)
  {
    StandardWords(ToLower(FirstLine(csvText)))
  }

  predicate StandardWords(first: string)
  {
    HasWord(first, "date") && HasAnyWord(first, DescriptionWords) && HasAnyWord(first, AmountWords)
  }

  /** Only the first line is inspected: whatever follows it does not change the answer. */
  lemma HeadersOnlyFirstLine(line: string, rest: string)
    requires '\n' !in line
    ensures HasStandardHeaders(line + "\n" + rest) == HasStandardHeaders(line)
  {
    assert line + "\n" + rest == line + ['\n'] + rest;
    SplitAtFirst(line, rest, '\n');
    SplitWithoutSeparator(line, '\n');
  }

  /** A single line is judged by its own words. */
  lemma HeadersOfLine(line: string)
    requires '\n' !in line
    ensures HasStandardHeaders(line) == StandardWords(ToLower(line))
  {
    SplitWithoutSeparator(line, '\n');
  }

  /** The words are matched whole (the regex \b): "Date" standing after a space counts. */
  lemma WholeWordDate()
    ensures HasStandardHeaders("Txn Date,Memo,Amount")
  {
    HeadersOfLine("Txn Date,Memo,Amount");
    LowerStandardLine();
    StandardLowerLine();
  }

  /** The "date" inside "Updated" is not a whole word, so the header line is not standard. */
  lemma DateInsideWord()
    ensures !HasStandardHeaders("Updated,Memo,Amount")
  {
    HeadersOfLine("Updated,Memo,Amount");
    LowerUpdatedLine();
    NoWholeDate();
  }

  lemma LowerStandardLine()
    ensures ToLower("Txn Date,Memo,Amount") == "txn date,memo,amount"
  {
  }

  lemma LowerUpdatedLine()
    ensures ToLower("Updated,Memo,Amount") == "updated,memo,amount"
  {
  }

  lemma StandardLowerLine()
    ensures StandardWords("txn date,memo,amount")
  {
    var lower := "txn date,memo,amount";
    assert lower[4..8] == "date";
    assert WordAt(lower, "date", 4);
    assert WordAt(lower, DescriptionWords[4], 9);
    assert WordAt(lower, AmountWords[0], 14);
  }

  lemma NoWholeDate()
    ensures !HasWord("updated,memo,amount", "date")
  {
    var lower := "updated,memo,amount";
    assert |lower| == 19;
    forall i | 0 <= i <= |lower| - 4
      ensures !WordAt(lower, "date", i)
    {
      if i != 2 {
        assert lower[i] != 'd' || lower[i + 1] != 'a';
      }
    }
  }

  // ---------------------------------------------------------------- dates

  /** Month m and day d form a valid reading: 1 <= m <= 12 and 1 <= d <= 31. */
  predicate ValidMonthDay(m: nat, d: nat)
  {
    1 <= m <= 12 && 1 <= d <= 31
  }

  /** smartDayMonth: given the first number a, the second b and the year of an a?b?y date,
      choose which of a and b is the day. */
  function SmartDayMonth(a: string, b: string, y: string): (r: Result<string, ParseError>)
    requires AllDigits(a) && AllDigits(b)
    ensures var ai, bi := DigitsValue(a), DigitsValue(b);
      && (r.Success? <==> ValidMonthDay(bi, ai) || ValidMonthDay(ai, bi))
      && (ValidMonthDay(bi, ai) ==> r == Success(Ymd(y, TwoDigits(bi), TwoDigits(ai))))
      && (!ValidMonthDay(bi, ai) && ValidMonthDay(ai, bi) ==> r == Success(Ymd(y, TwoDigits(ai), TwoDigits(bi))))
      && (r.Failure? ==> r.error == InvalidDateValues(a, b, y))
  {
    var ai, bi := DigitsValue(a), DigitsValue(b);
    var (month, day) :=
      if ai > 12 && bi <= 12 then (bi, ai)
      else if bi > 12 && ai <= 12 then (ai, bi)
      else (bi, ai);
    if month < 1 || month > 12 || day < 1 || day > 31 then Failure(InvalidDateValues(a, b, y))
    else Success(Ymd(y, TwoDigits(month), TwoDigits(day)))
  }

  /** The three rules of smartDayMonth, stated on the numbers: a first number above 12 is the
      day, a second number above 12 is the day, and when neither is above 12 the first number
      is the day (day-first is the default). */
  lemma SmartDayMonthRules(a: string, b: string, y: string)
    requires AllDigits(a) && AllDigits(b)
    requires 1 <= DigitsValue(a) <= 31 && 1 <= DigitsValue(b) <= 31
    ensures var ai, bi := DigitsValue(a), DigitsValue(b);
      && (ai > 12 && bi <= 12 ==> SmartDayMonth(a, b, y) == Success(Ymd(y, TwoDigits(bi), TwoDigits(ai))))
      && (bi > 12 && ai <= 12 ==> SmartDayMonth(a, b, y) == Success(Ymd(y, TwoDigits(ai), TwoDigits(bi))))
      && (ai <= 12 && bi <= 12 ==> SmartDayMonth(a, b, y) == Success(Ymd(y, TwoDigits(bi), TwoDigits(ai))))
      && (ai > 12 && bi > 12 ==> SmartDayMonth(a, b, y) == Failure(InvalidDateValues(a, b, y)))
  {
  }

  /** The ISO branch: Y-M-D with a four-digit year. A valid month and day are kept (padded);
      otherwise, if the two read the other way round are valid, they are swapped; otherwise
      the branch does not apply. */
  function IsoBranch(t: string): (r: Option<string>)
  {
    match MatchNumeric(t, '-', Four, OneOrTwo, OneOrTwo)
    case None => None
    case Some(f) =>
      var mi, di := DigitsValue(f.second), DigitsValue(f.third);
      if ValidMonthDay(mi, di) then Some(Ymd(f.first, Pad2(f.second), Pad2(f.third)))
      else if ValidMonthDay(di, mi) then Some(Ymd(f.first, Pad2(f.third), Pad2(f.second)))
      else None
  }

  /** An a?b?y branch with separator sep: the two-digit year rule, then smartDayMonth. */
  function NumericBranch(t: string, sep: char): Option<Result<string, ParseError>>
    requires !IsDigit(sep)
  {
    match MatchNumeric(t, sep, OneOrTwo, OneOrTwo, TwoToFour)
    case None => None
    case Some(f) => Some(SmartDayMonth(f.first, f.second, ExpandYear(f.third)))
  }

  /** normalizeDate: the trimmed text is tried as ISO, slash, dash, dot and month-name dates in
      that order, then by the platform's own date reading (native, which returns the YYYY-MM-DD
      day of the instant it reads, or None for an invalid date); otherwise it is an error. */
  function NormalizeDate(raw: string, native: string -> Option<string>): (r: Result<string, ParseError>)
    ensures r.Failure? ==> r.error.CannotParseDate? || r.error.InvalidDateValues?
    ensures r.Failure? && r.error.CannotParseDate? ==> r.error.raw == raw
  {
    var t := Trim(raw);
    var iso := IsoBranch(t);
    if iso.Some? then Success(iso.value)
    else
      var slash := NumericBranch(t, '/');
      if slash.Some? then slash.value
      else
        var dash := NumericBranch(t, '-');
        if dash.Some? then dash.value
        else
          var dot := NumericBranch(t, '.');
          if dot.Some? then dot.value
          else
            var named := NamedBranch(t);
            if named.Some? then Success(named.value)
            else
              match native(t)
              case Some(d) => Success(d)
              case None => Failure(CannotParseDate(raw))
  }

  /** A valid ISO date is kept, zero-padded. */
  lemma IsoDateKept(y: string, m: string, d: string, native: string -> Option<string>)
    requires Fits(y, Four) && Fits(m, OneOrTwo) && Fits(d, OneOrTwo)
    requires ValidMonthDay(DigitsValue(m), DigitsValue(d))
    ensures NormalizeDate(Ymd(y, m, d), native) == Success(Ymd(y, Pad2(m), Pad2(d)))
  {
    var t := Ymd(y, m, d);
    assert Shaped(t, '-', Fields(y, m, d), Four, OneOrTwo, OneOrTwo);
    TrimShaped(t, '-', Fields(y, m, d), Four, OneOrTwo, OneOrTwo);
    MatchNumericComplete(t, '-', Fields(y, m, d), Four, OneOrTwo, OneOrTwo);
  }

  /** An ISO date whose month is invalid but whose two numbers read the other way round are
      valid has its month and day swapped. */
  lemma IsoDateSwapped(y: string, m: string, d: string, native: string -> Option<string>)
    requires Fits(y, Four) && Fits(m, OneOrTwo) && Fits(d, OneOrTwo)
    requires !ValidMonthDay(DigitsValue(m), DigitsValue(d))
    requires ValidMonthDay(DigitsValue(d), DigitsValue(m))
    ensures NormalizeDate(Ymd(y, m, d), native) == Success(Ymd(y, Pad2(d), Pad2(m)))
  {
    var t := Ymd(y, m, d);
    assert Shaped(t, '-', Fields(y, m, d), Four, OneOrTwo, OneOrTwo);
    TrimShaped(t, '-', Fields(y, m, d), Four, OneOrTwo, OneOrTwo);
    MatchNumericComplete(t, '-', Fields(y, m, d), Four, OneOrTwo, OneOrTwo);
  }

  /** The normaliser's own output is a fixed point: a YYYY-MM-DD date with a valid month and
      day normalises to itself. */
  lemma NormalizeDateIdempotent(y: string, m: nat, d: nat, native: string -> Option<string>)
    requires Fits(y, Four) && ValidMonthDay(m, d)
    ensures NormalizeDate(Ymd(y, TwoDigits(m), TwoDigits(d)), native)
         == Success(Ymd(y, TwoDigits(m), TwoDigits(d)))
  {
    IsoDateKept(y, TwoDigits(m), TwoDigits(d), native);
  }

  /** a/b/y, a-b-y and a.b.y dates go through the two-digit year rule and smartDayMonth. */
  lemma NumericDate(a: string, b: string, y: string, sep: char, native: string -> Option<string>)
    requires sep == '/' || sep == '-' || sep == '.'
    requires Fits(a, OneOrTwo) && Fits(b, OneOrTwo) && Fits(y, TwoToFour)
    ensures NormalizeDate(a + [sep] + b + [sep] + y, native)
         == SmartDayMonth(a, b, ExpandYear(y))
  {
    var t := a + [sep] + b + [sep] + y;
    var f := Fields(a, b, y);
    assert Shaped(t, sep, f, OneOrTwo, OneOrTwo, TwoToFour);
    TrimShaped(t, sep, f, OneOrTwo, OneOrTwo, TwoToFour);
    MatchNumericComplete(t, sep, f, OneOrTwo, OneOrTwo, TwoToFour);
    if sep == '-' {
      OtherFirstWidth(t, '-', f, OneOrTwo, OneOrTwo, TwoToFour, Four, OneOrTwo, OneOrTwo);
      OtherSeparator(t, '-', '/', f, OneOrTwo, OneOrTwo, TwoToFour, OneOrTwo, OneOrTwo, TwoToFour);
    } else if sep == '/' {
      OtherSeparator(t, '/', '-', f, OneOrTwo, OneOrTwo, TwoToFour, Four, OneOrTwo, OneOrTwo);
    } else {
      OtherSeparator(t, '.', '-', f, OneOrTwo, OneOrTwo, TwoToFour, Four, OneOrTwo, OneOrTwo);
      OtherSeparator(t, '.', '/', f, OneOrTwo, OneOrTwo, TwoToFour, OneOrTwo, OneOrTwo, TwoToFour);
      OtherSeparator(t, '.', '-', f, OneOrTwo, OneOrTwo, TwoToFour, OneOrTwo, OneOrTwo, TwoToFour);
    }
  }

  /** A numeric date with a two- or four-digit year that normalises at all comes out as a
      complete calendar date YYYY-MM-DD. */
  lemma NumericDateIsCalendarDate(a: string, b: string, y: string, sep: char,
                                  native: string -> Option<string>)
    requires sep == '/' || sep == '-' || sep == '.'
    requires Fits(a, OneOrTwo) && Fits(b, OneOrTwo) && Fits(y, TwoToFour) && |y| != 3
    requires NormalizeDate(a + [sep] + b + [sep] + y, native).Success?
    ensures IsCalendarDate(NormalizeDate(a + [sep] + b + [sep] + y, native).value)
  {
    NumericDate(a, b, y, sep, native);
    var ai, bi := DigitsValue(a), DigitsValue(b);
    if ValidMonthDay(bi, ai) {
      YmdIsCalendarDate(ExpandYear(y), bi, ai);
    } else {
      YmdIsCalendarDate(ExpandYear(y), ai, bi);
    }
  }

  /** A three-digit year is neither expanded nor refused: a date that normalises keeps the
      year as written and so comes out one character short of a calendar date. */
  lemma ThreeDigitYearKept(a: string, b: string, y: string, sep: char,
                           native: string -> Option<string>)
    requires sep == '/' || sep == '-' || sep == '.'
    requires Fits(a, OneOrTwo) && Fits(b, OneOrTwo) && Fits(y, Width(3, 3))
    requires NormalizeDate(a + [sep] + b + [sep] + y, native).Success?
    ensures var r := NormalizeDate(a + [sep] + b + [sep] + y, native).value;
      |r| == 9 && r[..3] == y && !IsCalendarDate(r)
  {
    NumericDate(a, b, y, sep, native);
    SmartDayMonthKeepsYear(a, b, y);
    var r := NormalizeDate(a + [sep] + b + [sep] + y, native).value;
    if IsCalendarDate(r) {
      CalendarDateLength(r);
    }
  }

  /** Whatever year text it is given, smartDayMonth writes it first, then two-digit month and
      day. */
  lemma SmartDayMonthKeepsYear(a: string, b: string, y: string)
    requires AllDigits(a) && AllDigits(b)
    requires SmartDayMonth(a, b, y).Success?
    ensures var r := SmartDayMonth(a, b, y).value;
      |r| == |y| + 6 && r[..|y|] == y
  {
    var ai, bi := DigitsValue(a), DigitsValue(b);
    if ValidMonthDay(bi, ai) {
      YmdShape(y, TwoDigits(bi), TwoDigits(ai));
    } else {
      YmdShape(y, TwoDigits(ai), TwoDigits(bi));
    }
  }

  lemma YmdShape(y: string, m: string, d: string)
    requires |m| == 2 && |d| == 2
    ensures |Ymd(y, m, d)| == |y| + 6 && Ymd(y, m, d)[..|y|] == y
  {
  }

  /** The slash date 1/2/202 is read as 1 February of the year 202. */
  lemma ThreeDigitYearExample(native: string -> Option<string>)
    ensures NormalizeDate("1/2/202", native) == Success("202-02-01")
    ensures !IsCalendarDate("202-02-01")
  {
    SlashDateExample(native);
    SmartDayMonthExample();
    if IsCalendarDate("202-02-01") {
      CalendarDateLength("202-02-01");
    }
  }

  lemma SmartDayMonthExample()
    ensures SmartDayMonth("1", "2", "202") == Success("202-02-01")
  {
    assert DigitsValue("1") == 1 && DigitsValue("2") == 2;
    assert ValidMonthDay(2, 1);
    assert TwoDigits(2) == "02" && TwoDigits(1) == "01";
    assert Ymd("202", "02", "01") == "202-02-01";
  }

  lemma SlashDateExample(native: string -> Option<string>)
    ensures NormalizeDate("1/2/202", native) == SmartDayMonth("1", "2", "202")
  {
    assert "1/2/202" == "1" + ['/'] + "2" + ['/'] + "202";
    NumericDate("1", "2", "202", '/', native);
  }

  /** The numeric branches never accept a month-name date: its second group starts with a
      letter. */
  lemma NamedNotNumeric(t: string, f: Fields, sep: char, w1: Width, w2: Width, w3: Width)
    requires NamedShape(t, f) && !IsDigit(f.second[0])
    requires !IsWordChar(sep)
    ensures MatchNumeric(t, sep, w1, w2, w3) == None
  {
    var i := |f.first|;
    assert LeadingDigits(t) == i by {
      assert t == f.first + t[i..];
      LeadingDigitsOf(f.first, t[i..]);
    }
    if t[i] == sep {
      var rest := t[i + 1..];
      assert rest[0] == f.second[0];
      assert LeadingDigits(rest) == 0;
    }
  }

  /** A month-name date starts and ends with a digit, so trimming leaves it alone. */
  lemma TrimNamed(t: string, f: Fields)
    requires NamedShape(t, f)
    ensures Trim(t) == t
  {
    assert t[0] == f.first[0];
    assert t[|t| - 1] == f.third[|f.third| - 1];
    TrimNoop(t);
  }

  /** None of the four numeric branches applies to a month-name date. */
  lemma NotNumericBranches(t: string, f: Fields)
    requires NamedShape(t, f) && !IsDigit(f.second[0])
    ensures IsoBranch(t) == None
    ensures NumericBranch(t, '/') == None && NumericBranch(t, '-') == None && NumericBranch(t, '.') == None
  {
    NamedNotNumeric(t, f, '-', Four, OneOrTwo, OneOrTwo);
    NamedNotNumeric(t, f, '/', OneOrTwo, OneOrTwo, TwoToFour);
    NamedNotNumeric(t, f, '-', OneOrTwo, OneOrTwo, TwoToFour);
    NamedNotNumeric(t, f, '.', OneOrTwo, OneOrTwo, TwoToFour);
  }

  /** A month-name date whose name is in the table takes the table's month, the year rule and
      the day as written (padded, never range-checked). */
  lemma NamedDate(t: string, f: Fields, m: string, native: string -> Option<string>)
    requires NamedShape(t, f) && !IsDigit(f.second[0])
    requires MonthOf(f.second) == Some(m)
    ensures NormalizeDate(t, native) == Success(Ymd(ExpandYear(f.third), m, Pad2(f.first)))
  {
    TrimNamed(t, f);
    NotNumericBranches(t, f);
    assert NamedBranch(t) == Some(Ymd(ExpandYear(f.third), m, Pad2(f.first))) by {
      MatchNamedComplete(t, f);
    }
  }

  /** A month-name date whose name is not in the table is left to the platform's reading, and
      is an error when that fails too. */
  lemma UnknownMonthName(t: string, f: Fields, native: string -> Option<string>)
    requires NamedShape(t, f) && !IsDigit(f.second[0])
    requires MonthOf(f.second) == None
    ensures NormalizeDate(t, native) == (match native(t)
                                         case Some(d) => Success(d)
                                         case None => Failure(CannotParseDate(t)))
  {
    TrimNamed(t, f);
    NotNumericBranches(t, f);
    assert NamedBranch(t) == None by {
      MatchNamedComplete(t, f);
    }
  }

  // ---------------------------------------------------------------- amounts

  /** The characters normalizeAmount strips: the rupee, dollar, euro, pound and yen signs,
      commas and white space. */
  predicate IsAmountNoise(c: char)
  {
    c in "₹$€£¥," || IsSpace(c)
  }

  function NormalizeAmount(raw: string): (r: Result<Reading, ParseError>)
    ensures r.Success? <==> ParseFloat(RemoveAll(raw, IsAmountNoise)).Some?
    ensures r.Success? ==>
      var num := ParseFloat(RemoveAll(raw, IsAmountNoise)).value;
      r.value.amount >= 0.0 && SignedAmount(r.value) == num && (r.value.kind == Debit <==> num < 0.0)
    ensures r.Failure? ==> r.error == CannotParseAmount(raw)
  {
    TrimNoop(RemoveAll(raw, IsAmountNoise));
    ReadAmount(raw, IsAmountNoise)
  }

  // ---------------------------------------------------------------- rows

  /** This file's date normaliser, with the engine's own date reader as its last resort. */
  function DateReader(native: string -> Option<string>): string -> Result<string, ParseError>
  {
    raw => NormalizeDate(raw, native)
  }

  /** normalizeTransactions: every row normalised in order by this file's date and amount
      normalisers, or the first failing row's error numbered from 1. */
  function NormalizeTransactions(rows: seq<RawTransaction>, currency: Option<string>,
                                 native: string -> Option<string>)
    : (r: Result<seq<NormalizedTransaction>, RowError>)
    ensures r.Success? <==> forall i :: 0 <= i < |rows| ==>
      Row(rows, i, currency, DateReader(native), NormalizeAmount).Success?
    ensures r.Success? ==> |r.value| == |rows|
    ensures r.Success? ==> forall i :: 0 <= i < |rows| ==>
      Row(rows, i, currency, DateReader(native), NormalizeAmount) == Success(r.value[i])
    ensures r.Failure? ==>
      && 1 <= r.error.row <= |rows|
      && Row(rows, r.error.row - 1, currency, DateReader(native), NormalizeAmount) == Failure(r.error.cause)
      && forall i :: 0 <= i < r.error.row - 1 ==>
        Row(rows, i, currency, DateReader(native), NormalizeAmount).Success?
  {
    NormalizeRows(rows, currency, DateReader(native), NormalizeAmount)
  }
}
