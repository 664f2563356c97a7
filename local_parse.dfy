/** The parse-file route's local spreadsheet reader (tryLocalParse and its helpers fc, pn and
    normDate): it finds a header row among the first twenty rows, locates the date,
    description, amount, debit and credit columns by keyword, and rewrites every usable data
    row as a canonical "date,description,amount" CSV line. */
module LocalParse {
  import opened Wrappers
  import opened Text
  import opened Numbers
  import opened DatePatterns
  import FileParser

  // ---------------------------------------------------------------- keywords

  const DateKeywords: seq<string> :=
    ["date", "txn date", "transaction date", "posting date", "value date", "book date"]
  const DescriptionKeywords: seq<string> :=
    ["description", "narration", "particulars", "details", "memo", "remarks", "reference",
     "transaction details"]
  const AmountKeywords: seq<string> := ["amount", "transaction amount", "value", "sum", "total"]
  const DebitKeywords: seq<string> :=
    ["withdrawal", "debit", "debit amount", "dr", "withdrawal amt", "debit amt"]
  const CreditKeywords: seq<string> :=
    ["deposit", "credit", "credit amount", "cr", "deposit amt", "credit amt"]

  /** Any keyword that marks a money column. */
  const ValueKeywords: seq<string> := AmountKeywords + DebitKeywords + CreditKeywords

  /** The canonical header every local result starts with. */
  const HeaderLine: string := "date,description,amount"

  // ---------------------------------------------------------------- header detection

  /** A cell read for matching: lower-cased, then trimmed. */
  function CleanCell(c: string): string
  {
    Trim(ToLower(c))
  }

  function CleanRow(row: seq<string>): seq<string>
  {
    seq(|row|, i requires 0 <= i < |row| => CleanCell(row[i]))
  }

  /** Some cell contains some keyword as a substring. */
  predicate MentionsAny(cells: seq<string>, keywords: seq<string>)
  {
    exists i, k :: 0 <= i < |cells| && 0 <= k < |keywords| && Contains(cells[i], keywords[k])
  }

  /** A header row has at least two cells, one mentioning a date keyword and one mentioning a
      money keyword. */
  predicate IsHeaderRow(row: seq<string>)
  {
    |row| >= 2 && MentionsAny(CleanRow(row), DateKeywords) && MentionsAny(CleanRow(row), ValueKeywords)
  }

  /** How many leading rows are searched for the header. */
  function SearchLimit(rows: seq<seq<string>>): (n: nat)
    ensures n == |rows| || n == 20
    ensures n <= |rows| && n <= 20
  {
    if |rows| < 20 then |rows| else 20
  }

  /** The index of the first header row among the first twenty rows, or -1. */
  function FirstHeader(rows: seq<seq<string>>): (h: int)
    ensures -1 <= h < SearchLimit(rows)
    ensures h >= 0 ==> IsHeaderRow(rows[h]) && forall j :: 0 <= j < h ==> !IsHeaderRow(rows[j])
    ensures h == -1 ==> forall j :: 0 <= j < SearchLimit(rows) ==> !IsHeaderRow(rows[j])
  {
    FirstWhere(rows, IsHeaderRow, SearchLimit(rows), 0)
  }

  /** The first index at or after i and before limit whose element satisfies p, or -1. */
  function FirstWhere<T>(xs: seq<T>, p: T -> bool, limit: nat, i: nat): (h: int)
    requires i <= limit <= |xs|
    ensures -1 <= h < limit
    ensures h >= 0 ==> i <= h && p(xs[h]) && forall j :: i <= j < h ==> !p(xs[j])
    ensures h == -1 ==> forall j :: i <= j < limit ==> !p(xs[j])
    decreases limit - i
  {
    if i == limit then -1
    else if p(xs[i]) then i
    else FirstWhere(xs, p, limit, i + 1)
  }

  // ---------------------------------------------------------------- column lookup

  /** Array.prototype.findIndex with includes: the first header containing k, or -1. */
  function FirstContaining(headers: seq<string>, k: string): (i: int)
    ensures -1 <= i < |headers|
    ensures i == -1 <==> forall j :: 0 <= j < |headers| ==> !Contains(headers[j], k)
    ensures i >= 0 ==> Contains(headers[i], k) && forall j :: 0 <= j < i ==> !Contains(headers[j], k)
  {
    if headers == [] then -1
    else if Contains(headers[0], k) then 0
    else
      var i := FirstContaining(headers[1..], k);
      if i == -1 then -1 else i + 1
  }

  /** fc: the keywords are tried in order, and the first one found in any header decides; the
      column is the first header containing it. */
  function Column(headers: seq<string>, keywords: seq<string>): (r: int)
    ensures -1 <= r < |headers|
  {
    if keywords == [] then -1
    else
      var i := FirstContaining(headers, keywords[0]);
      if i != -1 then i else Column(headers, keywords[1..])
  }

  /** The column is -1 exactly when no header contains any keyword; otherwise it is the first
      header containing the first keyword that some header contains. */
  lemma ColumnMeaning(headers: seq<string>, keywords: seq<string>)
    ensures var r := Column(headers, keywords);
      && (r == -1 <==>
          forall k, j :: 0 <= k < |keywords| && 0 <= j < |headers| ==> !Contains(headers[j], keywords[k]))
      && (r >= 0 ==> exists k :: (0 <= k < |keywords| && FirstContaining(headers, keywords[k]) == r
            && forall k' :: 0 <= k' < k ==> FirstContaining(headers, keywords[k']) == -1))
  {
    ColumnMissing(headers, keywords);
    ColumnFound(headers, keywords);
  }

  lemma {:induction false} ColumnMissing(headers: seq<string>, keywords: seq<string>)
    ensures Column(headers, keywords) == -1 <==>
      forall k, j :: 0 <= k < |keywords| && 0 <= j < |headers| ==> !Contains(headers[j], keywords[k])
  {
    if keywords != [] && FirstContaining(headers, keywords[0]) == -1 {
      ColumnMissing(headers, keywords[1..]);
      assert forall k :: 1 <= k < |keywords| ==> keywords[k] == keywords[1..][k - 1];
    }
  }

  lemma {:induction false} ColumnFound(headers: seq<string>, keywords: seq<string>)
    ensures var r := Column(headers, keywords);
      r >= 0 ==> exists k :: (0 <= k < |keywords| && FirstContaining(headers, keywords[k]) == r
            && forall k' :: 0 <= k' < k ==> FirstContaining(headers, keywords[k']) == -1)
  {
    var r := Column(headers, keywords);
    if keywords != [] && r >= 0 {
      if FirstContaining(headers, keywords[0]) != -1 {
        assert FirstContaining(headers, keywords[0]) == r;
      } else {
        var rest := keywords[1..];
        ColumnFound(headers, rest);
        var k :| 0 <= k < |rest| && FirstContaining(headers, rest[k]) == r
          && forall k' :: 0 <= k' < k ==> FirstContaining(headers, rest[k']) == -1;
        assert rest[k] == keywords[k + 1];
        forall k' | 0 <= k' < k + 1
          ensures FirstContaining(headers, keywords[k']) == -1
        {
          if k' > 0 {
            assert keywords[k'] == rest[k' - 1];
          }
        }
      }
    }
  }

  /** fc, as the route runs it: two nested searches that stop at the first hit. */
  method FindColumn(headers: seq<string>, keywords: seq<string>) returns (r: int)
    ensures r == Column(headers, keywords)
  {
    var k := 0;
    while k < |keywords|
      invariant 0 <= k <= |keywords|
      invariant Column(headers, keywords[k..]) == Column(headers, keywords)
    {
      var j := 0;
      while j < |headers|
        invariant 0 <= j <= |headers|
        invariant forall j' :: 0 <= j' < j ==> !Contains(headers[j'], keywords[k])
      {
        if Contains(headers[j], keywords[k]) {
          assert FirstContaining(headers, keywords[k]) == j;
          return j;
        }
        j := j + 1;
      }
      assert keywords[k..][1..] == keywords[k + 1..];
      k := k + 1;
    }
    assert keywords[k..] == [];
    r := -1;
  }

  /** The five column indices of a header row, each -1 when absent. */
  datatype Columns = Columns(date: int, description: int, amount: int, debit: int, credit: int)

  function ColumnsOf(headers: seq<string>): Columns
  {
    Columns(
      Column(headers, DateKeywords),
      Column(headers, DescriptionKeywords),
      Column(headers, AmountKeywords),
      Column(headers, DebitKeywords),
      Column(headers, CreditKeywords))
  }

  /** Separate debit and credit columns, which take precedence over an amount column. */
  predicate HasDebitCredit(c: Columns)
  {
    c.debit != -1 && c.credit != -1
  }

  /** A date column and either an amount column or both debit and credit columns. */
  predicate Usable(c: Columns)
  {
    c.date != -1 && (c.amount != -1 || HasDebitCredit(c))
  }

  /** The "cr" credit keyword is a substring of "description", so a sheet whose debit and
      credit columns are headed "Dr" and "Cr" and whose description column comes first takes
      the description column as its credit column. */
  lemma CreditKeywordInDescription()
    ensures Contains("description", "cr")
    ensures CreditKeywords[3] == "cr"
  {
    assert OccursAt("description", "cr", 3);
  }

  // ---------------------------------------------------------------- cells

  /** A cell of a row; a missing cell reads as empty text. */
  function Cell(row: seq<string>, i: int): (c: string)
    ensures 0 <= i < |row| ==> c == row[i]
    ensures !(0 <= i < |row|) ==> c == ""
  {
    if 0 <= i < |row| then row[i] else ""
  }

  /** pn: the five currency signs, commas and white space are stripped and the rest read by
      parseFloat; text that does not read as a number counts as 0. */
  function ParseNumber(r: string): real
  {
    var s := RemoveAll(r, FileParser.IsAmountNoise);
    TrimNoop(s);
    ParseFloat(Trim(s)).GetOr(0.0)
  }

  /** The amount text the local reader writes is read back by pn as the rounded amount. */
  lemma ParseNumberToFixed2(x: real)
    ensures ParseNumber(ToFixed2(x)) == Rounded2(x)
  {
    var s := ToFixed2(x);
    ToFixed2Shape(x);
    assert forall i :: 0 <= i < |s| ==> !FileParser.IsAmountNoise(s[i]) by {
      forall i | 0 <= i < |s|
        ensures !FileParser.IsAmountNoise(s[i])
      {
        ToFixed2Chars(x, i);
      }
    }
    assert RemoveAll(s, FileParser.IsAmountNoise) == s;
    TrimNoop(s);
    ParseToFixed2(x);
  }

  /** Every character toFixed(2) prints is a digit, a point or a minus sign. */
  lemma ToFixed2Chars(x: real, i: nat)
    requires i < |ToFixed2(x)|
    ensures var c := ToFixed2(x)[i]; IsDigit(c) || c == '.' || c == '-'
  {
    var whole := NatToString(Cents(x) / 100);
    assert forall j :: 0 <= j < |whole| ==> IsDigit(whole[j]);
    var c := Cents(x);
    assert CentsText(c) == whole + "." + [DigitChar(c / 10 % 10), DigitChar(c % 10)];
  }

  // ---------------------------------------------------------------- dates

  /** An a?b?y branch with separator sep: the two-digit year rule, and a and b kept in their
      written order as month and day, padded but not checked. */
  function SeparatedBranch(t: string, sep: char): Option<string>
    requires !IsDigit(sep)
  {
    match MatchNumeric(t, sep, OneOrTwo, OneOrTwo, TwoToFour)
    case None => None
    case Some(f) => Some(Ymd(ExpandYear(f.third), Pad2(f.first), Pad2(f.second)))
  }

  /** normDate: the trimmed text is tried as a/b/y, a-b-y, ISO, month-name and a.b.y dates in
      that order, then by the platform's own date reading (native, which returns the
      YYYY-MM-DD day of the instant it reads, or None for an invalid date); None stands for
      null. */
  function NormDate(raw: string, native: string -> Option<string>): (r: Option<string>)
    ensures r.None? ==> native(Trim(raw)).None?
  {
    var t := Trim(raw);
    var slash := SeparatedBranch(t, '/');
    if slash.Some? then slash
    else
      var dash := SeparatedBranch(t, '-');
      if dash.Some? then dash
      else
        var iso := PaddedIso(t);
        if iso.Some? then iso
        else
          var named := NamedBranch(t);
          if named.Some? then named
          else
            var dot := SeparatedBranch(t, '.');
            if dot.Some? then dot
            else native(t)
  }

  /** a/b/y, a-b-y and a.b.y are read as month a, day b, whatever the numbers: 25/01/2024
      becomes 2024-25-01, which no calendar has. */
  lemma NormDateMonthFirst(a: string, b: string, y: string, sep: char, native: string -> Option<string>)
    requires sep == '/' || sep == '-' || sep == '.'
    requires Fits(a, OneOrTwo) && Fits(b, OneOrTwo) && Fits(y, TwoToFour)
    ensures NormDate(a + [sep] + b + [sep] + y, native) == Some(Ymd(ExpandYear(y), Pad2(a), Pad2(b)))
  {
    var t := a + [sep] + b + [sep] + y;
    var f := Fields(a, b, y);
    assert Shaped(t, sep, f, OneOrTwo, OneOrTwo, TwoToFour);
    TrimShaped(t, sep, f, OneOrTwo, OneOrTwo, TwoToFour);
    SeparatedBranchOf(t, sep, f);
    if sep == '-' {
      OtherSeparator(t, '-', '/', f, OneOrTwo, OneOrTwo, TwoToFour, OneOrTwo, OneOrTwo, TwoToFour);
    } else if sep == '.' {
      DotDateBranches(t, f);
    }
  }

  lemma SeparatedBranchOf(t: string, sep: char, f: Fields)
    requires !IsDigit(sep)
    requires Shaped(t, sep, f, OneOrTwo, OneOrTwo, TwoToFour)
    ensures SeparatedBranch(t, sep) == Some(Ymd(ExpandYear(f.third), Pad2(f.first), Pad2(f.second)))
  {
    MatchNumericComplete(t, sep, f, OneOrTwo, OneOrTwo, TwoToFour);
  }

  /** A dotted date passes the four branches before the dotted one. */
  lemma DotDateBranches(t: string, f: Fields)
    requires Shaped(t, '.', f, OneOrTwo, OneOrTwo, TwoToFour)
    ensures SeparatedBranch(t, '/') == None && SeparatedBranch(t, '-') == None
    ensures PaddedIso(t) == None && NamedBranch(t) == None
  {
    OtherSeparator(t, '.', '/', f, OneOrTwo, OneOrTwo, TwoToFour, OneOrTwo, OneOrTwo, TwoToFour);
    OtherSeparator(t, '.', '-', f, OneOrTwo, OneOrTwo, TwoToFour, OneOrTwo, OneOrTwo, TwoToFour);
    OtherSeparator(t, '.', '-', f, OneOrTwo, OneOrTwo, TwoToFour, Four, OneOrTwo, OneOrTwo);
    assert MatchNamed(t) == None by {
      assert t == f.first + (['.'] + f.second + ['.'] + f.third);
      LeadingDigitsOf(f.first, ['.'] + f.second + ['.'] + f.third);
    }
  }

  /** A YYYY-M-D date is padded and kept, unchecked; the route's own output is a fixed point. */
  lemma NormDateIso(y: string, m: string, d: string, native: string -> Option<string>)
    requires Fits(y, Four) && Fits(m, OneOrTwo) && Fits(d, OneOrTwo)
    ensures NormDate(Ymd(y, m, d), native) == Some(Ymd(y, Pad2(m), Pad2(d)))
  {
    var t := Ymd(y, m, d);
    var f := Fields(y, m, d);
    assert Shaped(t, '-', f, Four, OneOrTwo, OneOrTwo);
    TrimShaped(t, '-', f, Four, OneOrTwo, OneOrTwo);
    OtherSeparator(t, '-', '/', f, Four, OneOrTwo, OneOrTwo, OneOrTwo, OneOrTwo, TwoToFour);
    OtherFirstWidth(t, '-', f, Four, OneOrTwo, OneOrTwo, OneOrTwo, OneOrTwo, TwoToFour);
    PaddedIsoOf(y, m, d);
  }

  // ---------------------------------------------------------------- rows

  /** The amount of a row with debit and credit columns: a positive credit wins, else a
      positive debit is negated, else the row is skipped. */
  function DebitCreditAmount(dr: real, cr: real): (a: Option<real>)
    ensures a.Some? <==> cr > 0.0 || dr > 0.0
    ensures a.Some? ==> a.value != 0.0 && (a.value > 0.0 <==> cr > 0.0)
    ensures cr > 0.0 ==> a == Some(cr)
    ensures cr <= 0.0 && dr > 0.0 ==> a == Some(-dr)
  {
    if cr > 0.0 then Some(cr) else if dr > 0.0 then Some(-dr) else None
  }

  /** The amount of a data row, or None when the row is skipped: with debit and credit
      columns, as DebitCreditAmount says; otherwise the amount column, a zero skipping the
      row. */
  function RowAmount(row: seq<string>, c: Columns): (a: Option<real>)
    ensures a.Some? ==> a.value != 0.0
    ensures HasDebitCredit(c) ==>
      a == DebitCreditAmount(ParseNumber(Cell(row, c.debit)), ParseNumber(Cell(row, c.credit)))
    ensures !HasDebitCredit(c) ==>
      var n := ParseNumber(Cell(row, c.amount));
      (a.Some? <==> n != 0.0) && (a.Some? ==> a.value == n)
  {
    if HasDebitCredit(c) then
      DebitCreditAmount(ParseNumber(Cell(row, c.debit)), ParseNumber(Cell(row, c.credit)))
    else
      var n := ParseNumber(Cell(row, c.amount));
      if n == 0.0 then None else Some(n)
  }

  /** The description of a data row: its description cell, or "Transaction" when there is no
      description column, trimmed. */
  function RowDescription(row: seq<string>, c: Columns): string
  {
    Trim(if c.description != -1 then Cell(row, c.description) else "Transaction")
  }

  /** Every double quote written twice. */
  function DoubleQuotes(s: string): (r: string)
    ensures |r| >= |s|
  {
    if s == [] then []
    else (if s[0] == '"' then "\"\"" else [s[0]]) + DoubleQuotes(s[1..])
  }

  /** Reading doubled quotes back: "" becomes ", any other character is kept. */
  function UndoubleQuotes(s: string): string
  {
    if s == [] then []
    else if |s| >= 2 && s[0] == '"' && s[1] == '"' then "\"" + UndoubleQuotes(s[2..])
    else [s[0]] + UndoubleQuotes(s[1..])
  }

  /** Doubling is undone by reading the doubled quotes back. */
  lemma {:induction false} UndoubleDoubleQuotes(s: string)
    ensures UndoubleQuotes(DoubleQuotes(s)) == s
  {
    if s != [] {
      UndoubleDoubleQuotes(s[1..]);
      var head := if s[0] == '"' then "\"\"" else [s[0]];
      var d := head + DoubleQuotes(s[1..]);
      assert DoubleQuotes(s) == d;
      if s[0] == '"' {
        assert d[2..] == DoubleQuotes(s[1..]);
      } else {
        assert d[1..] == DoubleQuotes(s[1..]);
      }
    }
  }

  /** The description field: a description with a comma is wrapped in double quotes with its
      own quotes doubled; any other description is written as it is. */
  function QuoteField(desc: string): (q: string)
    ensures ',' !in desc ==> q == desc
    ensures ',' in desc ==> |q| >= 2 && q[0] == '"' && q[|q| - 1] == '"' && UndoubleQuotes(q[1..|q| - 1]) == desc
  {
    if ',' in desc then
      var q := "\"" + DoubleQuotes(desc) + "\"";
      assert q[1..|q| - 1] == DoubleQuotes(desc);
      UndoubleDoubleQuotes(desc);
      q
    else desc
  }

  /** The canonical line of one data row, or None when the row is skipped: a date cell that is
      blank or has no digit, no amount, or a date normDate cannot read. */
  function RowLine(row: seq<string>, c: Columns, native: string -> Option<string>): (line: Option<string>)
    ensures line.Some? <==>
      var dv := Trim(Cell(row, c.date));
      var nd := NormDate(dv, native);
      dv != [] && HasDigit(dv) && RowAmount(row, c).Some? && nd.Some? && nd.value != []
  {
    var dv := Trim(Cell(row, c.date));
    if dv == [] || !HasDigit(dv) then None
    else
      var amount := RowAmount(row, c);
      if amount.None? then None
      else
        var nd := NormDate(dv, native);
        if nd.None? || nd.value == [] then None
        else Some(nd.value + "," + QuoteField(RowDescription(row, c)) + "," + ToFixed2(amount.value))
  }

  /** The amount field of a line is the last comma-separated field: the rounded amount,
      non-zero before rounding, which pn reads back exactly. */
  lemma RowLineAmount(row: seq<string>, c: Columns, native: string -> Option<string>)
    requires RowLine(row, c, native).Some?
    ensures var a := RowAmount(row, c);
      && a.Some? && a.value != 0.0
      && LastPart(RowLine(row, c, native).value, ',') == ToFixed2(a.value)
      && ParseNumber(LastPart(RowLine(row, c, native).value, ',')) == Rounded2(a.value)
  {
    var a := RowAmount(row, c).value;
    var nd := NormDate(Trim(Cell(row, c.date)), native).value;
    var p := nd + "," + QuoteField(RowDescription(row, c));
    ToFixed2Shape(a);
    assert RowLine(row, c, native).value == p + [','] + ToFixed2(a);
    LastPartAfterSeparator(p, ToFixed2(a), ',');
    ParseNumberToFixed2(a);
  }

  /** The line function of a sheet with columns c. */
  function LineOf(c: Columns, native: string -> Option<string>): seq<string> -> Option<string>
  {
    row => RowLine(row, c, native)
  }

  /** The lines of the data rows, in order, skipped rows left out. */
  function DataLines(rows: seq<seq<string>>, line: seq<string> -> Option<string>): (lines: seq<string>)
    ensures |lines| <= |rows|
  {
    if rows == [] then []
    else
      DataLines(rows[..|rows| - 1], line)
        + (match line(rows[|rows| - 1]) case Some(l) => [l] case None => [])
  }

  /** Every line of the output is the line of one data row. */
  lemma {:induction false} DataLinesFromRows(rows: seq<seq<string>>, line: seq<string> -> Option<string>,
                                             k: nat)
    requires k < |DataLines(rows, line)|
    ensures exists i :: 0 <= i < |rows| && line(rows[i]) == Some(DataLines(rows, line)[k])
    decreases |rows|
  {
    var init := rows[..|rows| - 1];
    var prefix := DataLines(init, line);
    if k < |prefix| {
      DataLinesFromRows(init, line, k);
      var i :| 0 <= i < |init| && line(init[i]) == Some(prefix[k]);
      assert rows[i] == init[i];
    } else {
      assert line(rows[|rows| - 1]) == Some(DataLines(rows, line)[k]);
    }
  }

  /** A row that yields a line is not lost. */
  lemma {:induction false} DataLinesKeepRows(rows: seq<seq<string>>, line: seq<string> -> Option<string>,
                                             i: nat)
    requires i < |rows| && line(rows[i]).Some?
    ensures line(rows[i]).value in DataLines(rows, line)
    decreases |rows|
  {
    var init := rows[..|rows| - 1];
    if i < |init| {
      assert rows[i] == init[i];
      DataLinesKeepRows(init, line, i);
    }
  }

  // ---------------------------------------------------------------- the whole sheet

  /** The local result: the canonical CSV text and its number of data lines, or failure. */
  datatype LocalResult = Parsed(csvText: string, rowCount: nat) | NotParsed

  /** The header search of tryLocalParse: the first of the first twenty rows that is a
      header row, or -1. */
  method FindHeader(rows: seq<seq<string>>) returns (headerIdx: int)
    ensures headerIdx == FirstHeader(rows)
  {
    headerIdx := -1;
    var i := 0;
    var limit := SearchLimit(rows);
    while i < limit
      invariant 0 <= i <= limit
      invariant FirstHeader(rows) == FirstWhere(rows, IsHeaderRow, limit, i)
    {
      if IsHeaderRow(rows[i]) {
        headerIdx := i;
        break;
      }
      i := i + 1;
    }
  }

  /** The row loop of tryLocalParse: the header line, then the line of every data row that
      yields one. */
  method CollectLines(data: seq<seq<string>>, line: seq<string> -> Option<string>)
    returns (out: seq<string>)
    ensures out == [HeaderLine] + DataLines(data, line)
  {
    out := [HeaderLine];
    var j := 0;
    while j < |data|
      invariant 0 <= j <= |data|
      invariant out == [HeaderLine] + DataLines(data[..j], line)
    {
      assert data[..j + 1][..j] == data[..j];
      var l := line(data[j]);
      if l.Some? {
        out := out + [l.value];
      }
      j := j + 1;
    }
    assert data[..j] == data;
  }

  /** The five column lookups of tryLocalParse. */
  method FindColumns(headers: seq<string>) returns (cols: Columns)
    ensures cols == ColumnsOf(headers)
  {
    var di := FindColumn(headers, DateKeywords);
    var dsi := FindColumn(headers, DescriptionKeywords);
    var ai := FindColumn(headers, AmountKeywords);
    var dri := FindColumn(headers, DebitKeywords);
    var cri := FindColumn(headers, CreditKeywords);
    cols := Columns(di, dsi, ai, dri, cri);
  }

  /** The result for the data rows below a header row with columns cols. */
  function ResultWith(data: seq<seq<string>>, cols: Columns, native: string -> Option<string>): LocalResult
  {
    var lines := DataLines(data, LineOf(cols, native));
    if Usable(cols) && lines != [] then Parsed(Join([HeaderLine] + lines, '\n'), |lines|)
    else NotParsed
  }

  /** tryLocalParse: find the header row, locate the columns, rewrite the data rows below the
      header. It fails when there is no header among the first twenty rows, no date column,
      neither an amount column nor both debit and credit columns, or no data row survives. */
  method TryLocalParse(rows: seq<seq<string>>, native: string -> Option<string>) returns (r: LocalResult)
    ensures var h := FirstHeader(rows);
      r.Parsed? <==>
        && h != -1
        && Usable(ColumnsOf(CleanRow(rows[h])))
        && DataLines(rows[h + 1..], LineOf(ColumnsOf(CleanRow(rows[h])), native)) != []
    ensures r.Parsed? ==>
      var h := FirstHeader(rows);
      var lines := DataLines(rows[h + 1..], LineOf(ColumnsOf(CleanRow(rows[h])), native));
      && r.csvText == Join([HeaderLine] + lines, '\n')
      && r.rowCount == |lines|
  {
    var headerIdx := FindHeader(rows);
    if headerIdx == -1 {
      return NotParsed;
    }
    var cols := FindColumns(CleanRow(rows[headerIdx]));
    r := ParseBelow(rows[headerIdx + 1..], cols, native);
  }

  /** tryLocalParse once the header row is found and its columns located. */
  method ParseBelow(data: seq<seq<string>>, cols: Columns, native: string -> Option<string>)
    returns (r: LocalResult)
    ensures r == ResultWith(data, cols, native)
  {
    if cols.date == -1 {
      return NotParsed;
    }
    var hasDC := cols.debit != -1 && cols.credit != -1;
    if cols.amount == -1 && !hasDC {
      return NotParsed;
    }
    var out := CollectLines(data, LineOf(cols, native));
    ghost var lines := DataLines(data, LineOf(cols, native));
    assert Usable(cols);
    assert |out| == |lines| + 1;
    if |out| <= 1 {
      assert lines == [];
      return NotParsed;
    }
    return Parsed(Join(out, '\n'), |out| - 1);
  }

  /** The local result always starts with the canonical header line, so it passes the
      browser-side standard-header gate and is never sent to the extractor. */
  lemma LocalHeaderIsStandard(lines: seq<string>)
    ensures FileParser.HasStandardHeaders(Join([HeaderLine] + lines, '\n'))
  {
    var text := Join([HeaderLine] + lines, '\n');
    if lines == [] {
      assert text == HeaderLine;
      StandardHeaderLine();
    } else {
      assert ([HeaderLine] + lines)[1..] == lines;
      assert text == HeaderLine + ['\n'] + Join(lines, '\n');
      assert HeaderLine + ['\n'] + Join(lines, '\n') == HeaderLine + "\n" + Join(lines, '\n');
      FileParser.HeadersOnlyFirstLine(HeaderLine, Join(lines, '\n'));
      StandardHeaderLine();
    }
  }

  /** A line of three lower-case words separated by commas is its own lower-case form, has no
      line feed and holds each of the three as a whole word. */
  lemma ThreeWordLine(a: string, b: string, c: string)
    requires forall i :: 0 <= i < |a| ==> IsLower(a[i])
    requires forall i :: 0 <= i < |b| ==> IsLower(b[i])
    requires forall i :: 0 <= i < |c| ==> IsLower(c[i])
    ensures var line := a + "," + b + "," + c;
      && ToLower(line) == line && '\n' !in line
      && WordAt(line, a, 0) && WordAt(line, b, |a| + 1) && WordAt(line, c, |a| + |b| + 2)
  {
    var line := a + "," + b + "," + c;
    assert forall i :: 0 <= i < |line| ==> IsLower(line[i]) || line[i] == ',';
    assert line[..|a|] == a;
    assert line[|a| + 1..|a| + 1 + |b|] == b;
    assert line[|a| + |b| + 2..] == c;
  }

  lemma HeaderLineWords()
    ensures HeaderLine == "date" + "," + "description" + "," + "amount"
    ensures forall i :: 0 <= i < |"date"| ==> IsLower("date"[i])
    ensures forall i :: 0 <= i < |"description"| ==> IsLower("description"[i])
    ensures forall i :: 0 <= i < |"amount"| ==> IsLower("amount"[i])
  {
  }

  /** The canonical header holds the whole words "date", "description" and "amount". */
  lemma StandardHeaderLine()
    ensures FileParser.HasStandardHeaders(HeaderLine)
  {
    HeaderLineWords();
    ThreeWordLine("date", "description", "amount");
    SplitWithoutSeparator(HeaderLine, '\n');
    assert FirstLine(HeaderLine) == HeaderLine;
    assert FileParser.HasAnyWord(HeaderLine, FileParser.DescriptionWords) by {
      assert FileParser.DescriptionWords[0] == "description";
    }
    assert FileParser.HasAnyWord(HeaderLine, FileParser.AmountWords) by {
      assert FileParser.AmountWords[0] == "amount";
    }
  }
}
