/** The date shapes the three normalisers recognise, written as character scanners instead of
    regular expressions, and the pieces they share: the two-digit year rule, the month-name
    table and the YYYY-MM-DD layout of their output. */
module DatePatterns {
  import opened Wrappers
  import opened Text
  import opened Numbers

  /** The three captured groups of a three-part date, in textual order. */
  datatype Fields = Fields(first: string, second: string, third: string)

  /** The digit-count range of one group, as in \d{lo,hi}. */
  datatype Width = Width(lo: nat, hi: nat)

  predicate Fits(s: string, w: Width)
  {
    AllDigits(s) && w.lo <= |s| <= w.hi
  }

  /** s is exactly first, sep, second, sep, third, each group of digits of its width. */
  predicate Shaped(s: string, sep: char, f: Fields, w1: Width, w2: Width, w3: Width)
  {
    && s == f.first + [sep] + f.second + [sep] + f.third
    && Fits(f.first, w1) && Fits(f.second, w2) && Fits(f.third, w3)
  }

  const OneOrTwo := Width(1, 2)
  const TwoToFour := Width(2, 4)
  const Four := Width(4, 4)

  /** The regex ^(\d{w1})sep(\d{w2})sep(\d{w3})$, for a separator that is not a digit. */
  function MatchNumeric(s: string, sep: char, w1: Width, w2: Width, w3: Width): (r: Option<Fields>)
    requires !IsDigit(sep)
    ensures r.Some? ==> Shaped(s, sep, r.value, w1, w2, w3)
  {
    var n1 := LeadingDigits(s);
    if n1 < |s| && s[n1] == sep then
      var rest := s[n1 + 1..];
      var n2 := LeadingDigits(rest);
      if n2 < |rest| && rest[n2] == sep then
        var f := Fields(s[..n1], rest[..n2], rest[n2 + 1..]);
        if Fits(f.first, w1) && Fits(f.second, w2) && Fits(f.third, w3) then
          assert s == f.first + [sep] + f.second + [sep] + f.third by {
            AroundIndex(s, n1);
            AroundIndex(rest, n2);
          }
          Some(f)
        else None
      else None
    else None
  }

  /** The scanner accepts every string of the shape, with the groups the regex captures. */
  lemma MatchNumericComplete(s: string, sep: char, f: Fields, w1: Width, w2: Width, w3: Width)
    requires !IsDigit(sep)
    requires Shaped(s, sep, f, w1, w2, w3)
    ensures MatchNumeric(s, sep, w1, w2, w3) == Some(f)
  {
    Pieces(s, f.first, sep, f.second, sep, f.third);
    LeadingDigitsOf(f.first, [sep] + (f.second + [sep] + f.third));
    LeadingDigitsOf(f.second, [sep] + f.third);
  }

  /** Where the groups and separators of a three-part text sit. */
  lemma Pieces(s: string, a: string, c: char, b: string, d: char, e: string)
    requires s == a + [c] + b + [d] + e
    ensures s == a + ([c] + (b + [d] + e)) && |s| == |a| + |b| + |e| + 2
    ensures s[..|a|] == a && s[|a|] == c && s[|a| + 1..] == b + [d] + e
    ensures b + [d] + e == b + ([d] + e)
    ensures (b + [d] + e)[..|b|] == b && (b + [d] + e)[|b|] == d && (b + [d] + e)[|b| + 1..] == e
  {
    assert s == a + ([c] + (b + [d] + e));
    assert s[|a| + 1..] == b + [d] + e;
  }

  /** A shaped date splits on its separator into exactly its three groups, which is how the
      ISO branches read them. */
  lemma SplitShaped(s: string, sep: char, f: Fields, w1: Width, w2: Width, w3: Width)
    requires !IsDigit(sep)
    requires Shaped(s, sep, f, w1, w2, w3)
    ensures Split(s, sep) == [f.first, f.second, f.third]
  {
    assert sep !in f.first && sep !in f.second && sep !in f.third;
    assert s == f.first + [sep] + (f.second + [sep] + f.third);
    SplitAtFirst(f.first, f.second + [sep] + f.third, sep);
    SplitAtFirst(f.second, f.third, sep);
    SplitWithoutSeparator(f.third, sep);
  }

  // A matcher for one separator never accepts a date written with another, nor a date whose
  // first group has the wrong width.

  lemma OtherSeparator(t: string, sep: char, other: char, f: Fields, w1: Width, w2: Width, w3: Width,
                       v1: Width, v2: Width, v3: Width)
    requires !IsDigit(sep) && !IsDigit(other) && sep != other
    requires Shaped(t, sep, f, w1, w2, w3)
    ensures MatchNumeric(t, other, v1, v2, v3) == None
  {
    assert t == f.first + ([sep] + f.second + [sep] + f.third);
    LeadingDigitsOf(f.first, [sep] + f.second + [sep] + f.third);
  }

  lemma OtherFirstWidth(t: string, sep: char, f: Fields, w1: Width, w2: Width, w3: Width,
                        v1: Width, v2: Width, v3: Width)
    requires !IsDigit(sep)
    requires Shaped(t, sep, f, w1, w2, w3)
    requires !Fits(f.first, v1)
    ensures MatchNumeric(t, sep, v1, v2, v3) == None
  {
    assert t == f.first + ([sep] + f.second + [sep] + f.third);
    LeadingDigitsOf(f.first, [sep] + f.second + [sep] + f.third);
    assert t[..|f.first|] == f.first;
  }

  lemma OtherThirdWidth(t: string, sep: char, f: Fields, w1: Width, w2: Width, w3: Width,
                        v1: Width, v2: Width, v3: Width)
    requires !IsDigit(sep)
    requires Shaped(t, sep, f, w1, w2, w3)
    requires !Fits(f.third, v3)
    ensures MatchNumeric(t, sep, v1, v2, v3) == None
  {
    var r := MatchNumeric(t, sep, v1, v2, v3);
    if r.Some? {
      MatchNumericComplete(t, sep, f, w1, w2, w3);
      assert MatchNumeric(t, sep, w1, w2, w3) == Some(f);
    }
  }

  /** A shaped date starts and ends with a digit, so trimming leaves it alone. */
  lemma TrimShaped(t: string, sep: char, f: Fields, w1: Width, w2: Width, w3: Width)
    requires Shaped(t, sep, f, w1, w2, w3)
    requires f.first != [] && f.third != []
    ensures Trim(t) == t
  {
    assert t[0] == f.first[0];
    assert t[|t| - 1] == f.third[|f.third| - 1];
    TrimNoop(t);
  }

  /** Y-M-D with a four-digit year, split on '-' and its month and day padded to two digits,
      without a range check (the ISO branch of the server-side and route normalisers). */
  function PaddedIso(t: string): (r: Option<string>)
    ensures r.Some? ==> exists f :: Shaped(t, '-', f, Four, OneOrTwo, OneOrTwo)
  {
    match MatchNumeric(t, '-', Four, OneOrTwo, OneOrTwo)
    case None => None
    case Some(f) =>
      SplitShaped(t, '-', f, Four, OneOrTwo, OneOrTwo);
      var parts := Split(t, '-');
      Some(Ymd(parts[0], Pad2(parts[1]), Pad2(parts[2])))
  }

  /** Every Y-M-D text with a four-digit year is accepted and padded, whatever its month and
      day. */
  lemma PaddedIsoOf(y: string, m: string, d: string)
    requires Fits(y, Four) && Fits(m, OneOrTwo) && Fits(d, OneOrTwo)
    ensures PaddedIso(Ymd(y, m, d)) == Some(Ymd(y, Pad2(m), Pad2(d)))
  {
    var t := Ymd(y, m, d);
    var f := Fields(y, m, d);
    assert Shaped(t, '-', f, Four, OneOrTwo, OneOrTwo);
    MatchNumericComplete(t, '-', f, Four, OneOrTwo, OneOrTwo);
    SplitShaped(t, '-', f, Four, OneOrTwo, OneOrTwo);
  }

  // ---------------------------------------------------------------- month names

  /** The separator class [\s-] of the month-name shape. */
  predicate IsNameSeparator(c: char) { IsSpace(c) || c == '-' }

  /** The length of the run of word characters (\w) that starts s. */
  function LeadingWordChars(s: string): (n: nat)
    ensures n <= |s|
    ensures forall i :: 0 <= i < n ==> IsWordChar(s[i])
    ensures n < |s| ==> !IsWordChar(s[n])
  {
    if s == [] || !IsWordChar(s[0]) then 0 else 1 + LeadingWordChars(s[1..])
  }

  /** s is a month-name date with the groups f: one or two digits, a separator, three to nine
      word characters, a separator and two to four digits. */
  predicate NamedShape(s: string, f: Fields)
  {
    var i := |f.first|;
    var j := i + 1 + |f.second|;
    && |s| == j + 1 + |f.third|
    && s == f.first + [s[i]] + f.second + [s[j]] + f.third
    && IsNameSeparator(s[i]) && IsNameSeparator(s[j])
    && Fits(f.first, OneOrTwo) && Fits(f.third, TwoToFour)
    && 3 <= |f.second| <= 9 && (forall k :: 0 <= k < |f.second| ==> IsWordChar(f.second[k]))
  }

  /** The regex ^(\d{1,2})[\s-](\w{3,9})[\s-](\d{2,4})$. */
  function MatchNamed(s: string): (r: Option<Fields>)
    ensures r.Some? ==> NamedShape(s, r.value)
  {
    var n1 := LeadingDigits(s);
    if n1 < |s| && IsNameSeparator(s[n1]) then
      var rest := s[n1 + 1..];
      var n2 := LeadingWordChars(rest);
      if n2 < |rest| && IsNameSeparator(rest[n2]) then
        var f := Fields(s[..n1], rest[..n2], rest[n2 + 1..]);
        if Fits(f.first, OneOrTwo) && 3 <= n2 <= 9 && Fits(f.third, TwoToFour) then
          assert s == f.first + [s[n1]] + f.second + [rest[n2]] + f.third by {
            AroundIndex(s, n1);
            AroundIndex(rest, n2);
          }
          Some(f)
        else None
      else None
    else None
  }

  lemma {:induction false} LeadingWordCharsOf(w: string, rest: string)
    requires forall i :: 0 <= i < |w| ==> IsWordChar(w[i])
    requires rest == [] || !IsWordChar(rest[0])
    ensures LeadingWordChars(w + rest) == |w|
    decreases |w|
  {
    if w != [] {
      assert (w + rest)[1..] == w[1..] + rest;
      LeadingWordCharsOf(w[1..], rest);
    } else {
      assert w + rest == rest;
    }
  }

  /** The month-name scanner accepts every string of the shape. */
  lemma MatchNamedComplete(s: string, f: Fields)
    requires NamedShape(s, f)
    ensures MatchNamed(s) == Some(f)
  {
    var sep1, sep2 := s[|f.first|], s[|f.first| + 1 + |f.second|];
    Pieces(s, f.first, sep1, f.second, sep2, f.third);
    LeadingDigitsOf(f.first, [sep1] + (f.second + [sep2] + f.third));
    SeparatorNotWord(sep2);
    assert ([sep2] + f.third)[0] == sep2;
    LeadingWordCharsOf(f.second, [sep2] + f.third);
  }

  lemma SeparatorNotWord(c: char)
    requires IsNameSeparator(c)
    ensures !IsWordChar(c)
  {
  }

  /** The twelve keys of the month table, in calendar order. */
  const MonthKeys: seq<string> :=
    ["jan", "feb", "mar", "apr", "may", "jun", "jul", "aug", "sep", "oct", "nov", "dec"]

  /** The month table: a lower-case three-letter key to its two-digit month number. */
  function MonthCode(key: string): Option<string>
  {
    match key
    case "jan" => Some("01") case "feb" => Some("02") case "mar" => Some("03")
    case "apr" => Some("04") case "may" => Some("05") case "jun" => Some("06")
    case "jul" => Some("07") case "aug" => Some("08") case "sep" => Some("09")
    case "oct" => Some("10") case "nov" => Some("11") case "dec" => Some("12")
    case _ => None
  }

  /** The table holds exactly the twelve keys. */
  lemma MonthCodeKeys(key: string)
    ensures MonthCode(key).Some? <==> key in MonthKeys
  {
  }

  /** The k-th key (from 0) maps to month k + 1 written with two digits. */
  lemma MonthCodeNumbers(k: nat)
    requires k < 12
    ensures MonthCode(MonthKeys[k]).Some?
    ensures var m := MonthCode(MonthKeys[k]).value; |m| == 2 && AllDigits(m) && DigitsValue(m) == k + 1
  {
  }

  /** The month lookup of a matched name: its first three letters, lower-cased. */
  function MonthOf(name: string): (r: Option<string>)
    ensures r.Some? ==> |r.value| == 2 && AllDigits(r.value)
    ensures r.Some? ==> 1 <= DigitsValue(r.value) <= 12
  {
    var r := MonthCode(ToLower(name[..if |name| < 3 then |name| else 3]));
    assert r.Some? ==> r.value in {"01", "02", "03", "04", "05", "06", "07", "08", "09", "10", "11", "12"};
    r
  }

  // ---------------------------------------------------------------- years and layout

  /** A two-digit year YY becomes 19YY when YY > 50 and 20YY otherwise; any other year is
      kept as written. */
  function ExpandYear(y: string): (r: string)
    requires AllDigits(y)
    ensures AllDigits(r)
    ensures |y| == 2 ==> |r| == 4 && r[2..] == y
    ensures |y| == 2 ==> 1951 <= DigitsValue(r) <= 2050
    ensures |y| == 2 ==> (DigitsValue(r) < 2000 <==> DigitsValue(y) > 50)
    ensures |y| != 2 ==> r == y
  {
    if |y| == 2 then
      var century := if DigitsValue(y) > 50 then "19" else "20";
      var r := century + y;
      DigitsValueAppend(century, y);
      assert DigitsValue("19") == 19 && DigitsValue("20") == 20;
      assert Pow10(2) == 100;
      assert r[2..] == y;
      r
    else y
  }

  /** The output layout y-m-d of every normaliser. */
  function Ymd(y: string, m: string, d: string): string
  {
    y + "-" + m + "-" + d
  }

  /** A month or day number written with at least two digits. */
  function TwoDigits(n: nat): (s: string)
    ensures AllDigits(s) && DigitsValue(s) == n
    ensures n < 100 ==> |s| == 2
  {
    var s := NatToString(n);
    Pad2Value(s);
    Pad2(s)
  }

  /** A complete ISO 8601 calendar date YYYY-MM-DD with a month in 1..12 and a day in 1..31
      (the day is not checked against the month, as in all three normalisers). */
  ghost predicate IsCalendarDate(s: string)
  {
    exists f :: Shaped(s, '-', f, Four, Width(2, 2), Width(2, 2))
      && 1 <= DigitsValue(f.second) <= 12 && 1 <= DigitsValue(f.third) <= 31
  }

  /** A calendar date is written with exactly ten characters. */
  lemma CalendarDateLength(s: string)
    requires IsCalendarDate(s)
    ensures |s| == 10
  {
  }

  /** y-MM-DD with a four-digit year and a valid month and day is a calendar date. */
  lemma YmdIsCalendarDate(y: string, m: nat, d: nat)
    requires Fits(y, Four)
    requires 1 <= m <= 12 && 1 <= d <= 31
    ensures IsCalendarDate(Ymd(y, TwoDigits(m), TwoDigits(d)))
  {
    var f := Fields(y, TwoDigits(m), TwoDigits(d));
    assert Shaped(Ymd(y, TwoDigits(m), TwoDigits(d)), '-', f, Four, Width(2, 2), Width(2, 2));
  }

  // ---------------------------------------------------------------- the month-name branch

  /** The month-name branch both date normalisers share: the year rule, the month table and
      the day padded as written, without a range check. An unknown name leaves the branch. */
  function NamedBranch(t: string): Option<string>
  {
    match MatchNamed(t)
    case None => None
    case Some(f) =>
      match MonthOf(f.second)
      case None => None
      case Some(m) => Some(Ymd(ExpandYear(f.third), m, Pad2(f.first)))
  }
}
