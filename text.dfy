/** The string primitives of the JavaScript runtime that the statement pipeline relies on:
    the regular-expression classes \d, \w, \s and the word boundary \b, String.prototype.trim,
    toLowerCase/toUpperCase, split and join on one character, includes, startsWith,
    padStart(2, "0"), replace(/[...]/g, "") and decimal integer text (parseInt, String(n)). */
module Text {

  /** The regex class \d. */
  predicate IsDigit(c: char) { '0' <= c <= '9' }

  predicate IsUpper(c: char) { 'A' <= c <= 'Z' }

  predicate IsLower(c: char) { 'a' <= c <= 'z' }

  /** The regex class \w. */
  predicate IsWordChar(c: char) { IsDigit(c) || IsUpper(c) || IsLower(c) || c == '_' }

  /** The regex class \s, which is also the set of characters trim() removes. */
  predicate IsSpace(c: char) {
    || c == ' ' || c == '\t' || c == '\n' || c == '\U{B}' || c == '\U{C}' || c == '\r'
    || c == '\U{A0}' || c == '\U{1680}' || '\U{2000}' <= c <= '\U{200A}'
    || c == '\U{2028}' || c == '\U{2029}' || c == '\U{202F}' || c == '\U{205F}'
    || c == '\U{3000}' || c == '\U{FEFF}'
  }

  predicate AllDigits(s: string) { forall i :: 0 <= i < |s| ==> IsDigit(s[i]) }

  /** The regex test /\d/. */
  predicate HasDigit(s: string) { exists i :: 0 <= i < |s| && IsDigit(s[i]) }

  /** A string that trim() turns into "" (JavaScript treats it as falsy after trim). */
  predicate IsBlank(s: string) { forall i :: 0 <= i < |s| ==> IsSpace(s[i]) }

  // ---------------------------------------------------------------- trim

  function LeadingSpaces(s: string): (n: nat)
    ensures n <= |s|
    ensures forall i :: 0 <= i < n ==> IsSpace(s[i])
    ensures n < |s| ==> !IsSpace(s[n])
  {
    if s == [] || !IsSpace(s[0]) then 0 else 1 + LeadingSpaces(s[1..])
  }

  function TrailingSpaces(s: string): (n: nat)
    ensures n <= |s|
    ensures forall i :: |s| - n <= i < |s| ==> IsSpace(s[i])
    ensures n < |s| ==> !IsSpace(s[|s| - 1 - n])
  {
    if s == [] || !IsSpace(s[|s| - 1]) then 0 else 1 + TrailingSpaces(s[..|s| - 1])
  }

  /** String.prototype.trimStart (also the whitespace skip at the start of parseFloat). */
  function TrimStart(s: string): string
  {
    s[LeadingSpaces(s)..]
  }

  /** String.prototype.trim. */
  function Trim(s: string): (r: string)
    ensures r == [] <==> IsBlank(s)
    ensures r != [] ==> !IsSpace(r[0]) && !IsSpace(r[|r| - 1])
    ensures |r| <= |s|
    ensures exists i, j :: 0 <= i <= j <= |s| && r == s[i..j] && SpaceOutside(s, i, j)
  {
    var t := TrimStart(s);
    TrimSpan(s);
    t[..|t| - TrailingSpaces(t)]
  }

  /** Only white space lies before i and from j on. */
  predicate SpaceOutside(s: string, i: nat, j: nat)
    requires i <= j <= |s|
  {
    && (forall k :: 0 <= k < i ==> IsSpace(s[k]))
    && (forall k :: j <= k < |s| ==> IsSpace(s[k]))
  }

  /** What trim keeps is the slice between the leading and the trailing white space. */
  lemma TrimSpan(s: string)
    ensures var i, t := LeadingSpaces(s), TrimStart(s);
      var j := i + |t| - TrailingSpaces(t);
      && i <= j <= |s|
      && t[..|t| - TrailingSpaces(t)] == s[i..j]
      && SpaceOutside(s, i, j)
  {
    var i, t := LeadingSpaces(s), TrimStart(s);
    var j := i + |t| - TrailingSpaces(t);
    assert forall k :: j <= k < |s| ==> s[k] == t[k - i];
  }

  /** Trimming a string that neither starts nor ends with white space leaves it alone. */
  lemma TrimNoop(s: string)
    requires s != [] ==> !IsSpace(s[0]) && !IsSpace(s[|s| - 1])
    ensures Trim(s) == s
  {
  }

  // ---------------------------------------------------------------- case

  function LowerChar(c: char): char { if IsUpper(c) then (c as int + 32) as char else c }

  function UpperChar(c: char): char { if IsLower(c) then (c as int - 32) as char else c }

  /** String.prototype.toLowerCase, on ASCII letters. */
  function ToLower(s: string): (r: string)
    ensures |r| == |s|
    ensures forall i :: 0 <= i < |s| ==> !IsUpper(r[i])
  {
    seq(|s|, i requires 0 <= i < |s| => LowerChar(s[i]))
  }

  /** String.prototype.toUpperCase, on ASCII letters. */
  function ToUpper(s: string): (r: string)
    ensures |r| == |s|
    ensures forall i :: 0 <= i < |s| ==> !IsLower(r[i])
  {
    seq(|s|, i requires 0 <= i < |s| => UpperChar(s[i]))
  }

  // ---------------------------------------------------------------- split and join

  /** Array.prototype.join with a one-character separator. */
  function Join(parts: seq<string>, c: char): string
  {
    if parts == [] then ""
    else if |parts| == 1 then parts[0]
    else parts[0] + [c] + Join(parts[1..], c)
  }

  /** String.prototype.split with a one-character separator: never empty, no part holds the
      separator, and joining the parts back gives the input. */
  function Split(s: string, c: char): (parts: seq<string>)
    ensures |parts| >= 1
    ensures forall k :: 0 <= k < |parts| ==> c !in parts[k]
    ensures Join(parts, c) == s
    decreases |s|
  {
    if s == [] then [""]
    else
      var rest := Split(s[1..], c);
      if s[0] == c then
        assert Join([""] + rest, c) == [c] + Join(rest, c);
        [""] + rest
      else
        var parts := [[s[0]] + rest[0]] + rest[1..];
        assert parts[1..] == rest[1..];
        parts
  }

  /** The first line of a text, as split("\n")[0] gives it: no line feed. */
  function FirstLine(text: string): (line: string)
    ensures '\n' !in line
  {
    Split(text, '\n')[0]
  }

  /** A string is what comes before position k, the character at k and what follows it. */
  lemma AroundIndex(s: string, k: nat)
    requires k < |s|
    ensures s == s[..k] + [s[k]] + s[k + 1..]
  {
  }

  lemma SplitWithoutSeparator(s: string, c: char)
    requires c !in s
    ensures Split(s, c) == [s]
    decreases |s|
  {
    if s != [] {
      SplitWithoutSeparator(s[1..], c);
      assert [s[0]] + s[1..] == s;
    }
  }

  /** Splitting looks at the first character: a separator starts a new part, anything else
      goes in front of the first part. */
  lemma SplitCons(x: char, s: string, c: char)
    ensures Split([x] + s, c)
         == if x == c then [""] + Split(s, c) else [[x] + Split(s, c)[0]] + Split(s, c)[1..]
  {
    assert ([x] + s)[1..] == s;
  }

  /** The first part of a split is everything before the first separator. */
  lemma {:induction false} SplitAtFirst(p: string, rest: string, c: char)
    requires c !in p
    ensures Split(p + [c] + rest, c) == [p] + Split(rest, c)
    decreases |p|
  {
    if p == [] {
      assert p + [c] + rest == [c] + rest;
      SplitCons(c, rest, c);
    } else {
      var t := p[1..] + [c] + rest;
      SplitAtFirst(p[1..], rest, c);
      assert p + [c] + rest == [p[0]] + t;
      SplitCons(p[0], t, c);
      assert [p[0]] + p[1..] == p;
    }
  }

  /** The last part of a split, as Array.prototype.pop returns it. */
  function LastPart(s: string, c: char): string
  {
    var parts := Split(s, c);
    parts[|parts| - 1]
  }

  /** The last part of a split is everything after the last separator. */
  lemma {:induction false} LastPartAfterSeparator(p: string, tail: string, c: char)
    requires c !in tail
    ensures LastPart(p + [c] + tail, c) == tail
    decreases |p|
  {
    if p == [] {
      assert p + [c] + tail == [c] + tail;
      SplitAtFirst([], tail, c);
      SplitWithoutSeparator(tail, c);
    } else {
      var t := p[1..] + [c] + tail;
      assert p + [c] + tail == [p[0]] + t;
      assert t[|p| - 1] == c;
      LastPartCons(p[0], t, c);
      LastPartAfterSeparator(p[1..], tail, c);
    }
  }

  /** A character in front of text that still holds a separator does not change the last
      part. */
  lemma LastPartCons(x: char, t: string, c: char)
    requires c in t
    ensures LastPart([x] + t, c) == LastPart(t, c)
  {
    SplitCons(x, t, c);
    SplitHasTwoParts(t, c);
  }

  /** A string holding the separator splits into at least two parts. */
  lemma SplitHasTwoParts(s: string, c: char)
    requires c in s
    ensures |Split(s, c)| >= 2
  {
  }

  /** A whole string without the separator is its own last part. */
  lemma LastPartWithoutSeparator(s: string, c: char)
    requires c !in s
    ensures LastPart(s, c) == s
  {
    SplitWithoutSeparator(s, c);
  }

  // ---------------------------------------------------------------- searching

  predicate OccursAt(s: string, p: string, i: nat)
  {
    i + |p| <= |s| && s[i..i + |p|] == p
  }

  /** String.prototype.includes. */
  predicate Contains(s: string, p: string)
  {
    exists i :: 0 <= i <= |s| - |p| && OccursAt(s, p, i)
  }

  /** String.prototype.startsWith. */
  predicate StartsWith(s: string, p: string)
  {
    |p| <= |s| && s[..|p|] == p
  }

  /** An occurrence of w at i that the regex \bw\b accepts: no word character touches it. */
  predicate WordAt(s: string, w: string, i: nat)
  {
    && OccursAt(s, w, i)
    && (i == 0 || !IsWordChar(s[i - 1]))
    && (i + |w| == |s| || !IsWordChar(s[i + |w|]))
  }

  /** The regex test /\bw\b/ for a word w made of word characters. */
  predicate HasWord(s: string, w: string)
  {
    exists i :: 0 <= i <= |s| - |w| && WordAt(s, w, i)
  }

  /** The index of the first c in s, or |s| when there is none. */
  function IndexOf(s: string, c: char): (i: nat)
    ensures i <= |s|
    ensures c !in s[..i]
    ensures i < |s| ==> s[i] == c
  {
    if s == [] then 0
    else if s[0] == c then 0
    else
      var i := 1 + IndexOf(s[1..], c);
      assert s[..i] == [s[0]] + s[1..][..i - 1];
      i
  }

  /** The index of the last c in s, or |s| when there is none. */
  function LastIndexOf(s: string, c: char): (i: nat)
    ensures i <= |s|
    ensures i < |s| ==> s[i] == c && c !in s[i + 1..]
    ensures i == |s| ==> c !in s
  {
    if s == [] then 0
    else if s[|s| - 1] == c then |s| - 1
    else
      var i := LastIndexOf(s[..|s| - 1], c);
      if i == |s| - 1 then |s|
      else
        assert s[i + 1..] == s[..|s| - 1][i + 1..] + [s[|s| - 1]];
        i
  }

  // ---------------------------------------------------------------- removal

  /** The text with every character of the class drop removed, as a global regex replace by
      the empty string does. */
  function RemoveAll(s: string, drop: char -> bool): (r: string)
    ensures |r| <= |s|
    ensures forall i :: 0 <= i < |r| ==> !drop(r[i]) && r[i] in s
    ensures (forall i :: 0 <= i < |s| ==> !drop(s[i])) ==> r == s
  {
    if s == [] then []
    else
      var rest := RemoveAll(s[1..], drop);
      if drop(s[0]) then rest else [s[0]] + rest
  }

  /** Removal looks at the first character and then at the rest. */
  lemma RemoveAllCons(c: char, s: string, drop: char -> bool)
    ensures RemoveAll([c] + s, drop) == if drop(c) then RemoveAll(s, drop) else [c] + RemoveAll(s, drop)
  {
    assert ([c] + s)[1..] == s;
  }

  // ---------------------------------------------------------------- decimal integers

  function Pow10(k: nat): (p: nat)
    ensures p >= 1
  {
    if k == 0 then 1 else 10 * Pow10(k - 1)
  }

  function DigitValue(c: char): nat
    requires IsDigit(c)
  {
    c as int - '0' as int
  }

  function DigitChar(d: nat): (c: char)
    requires d < 10
    ensures IsDigit(c) && DigitValue(c) == d
  {
    ('0' as int + d) as char
  }

  /** parseInt of a string of decimal digits. */
  function DigitsValue(s: string): nat
    requires AllDigits(s)
  {
    if s == [] then 0 else 10 * DigitsValue(s[..|s| - 1]) + DigitValue(s[|s| - 1])
  }

  /** The value of a concatenation of digit strings. */
  lemma {:induction false} DigitsValueAppend(a: string, b: string)
    requires AllDigits(a) && AllDigits(b)
    ensures AllDigits(a + b)
    ensures DigitsValue(a + b) == DigitsValue(a) * Pow10(|b|) + DigitsValue(b)
    decreases |b|
  {
    assert AllDigits(a + b);
    if b == [] {
      assert a + b == a;
    } else {
      var b' := b[..|b| - 1];
      DigitsValueAppend(a, b');
      assert (a + b)[..|a + b| - 1] == a + b';
      assert (a + b)[|a + b| - 1] == b[|b| - 1];
      ShiftStep(DigitsValue(a), Pow10(|b'|), DigitsValue(b'), DigitValue(b[|b| - 1]));
    }
  }

  lemma ShiftStep(va: nat, p: nat, vb: nat, d: nat)
    ensures 10 * (va * p + vb) + d == va * (10 * p) + (10 * vb + d)
  {
  }

  /** String(n) for a natural number n: decimal digits that parseInt reads back as n. */
  function NatToString(n: nat): (s: string)
    ensures |s| >= 1 && AllDigits(s)
    ensures DigitsValue(s) == n
    ensures n < 10 <==> |s| == 1
    ensures 10 <= n < 100 ==> |s| == 2
  {
    if n < 10 then [DigitChar(n)]
    else
      var s := NatToString(n / 10) + [DigitChar(n % 10)];
      assert s[..|s| - 1] == NatToString(n / 10);
      s
  }

  /** padStart(2, "0"). */
  function Pad2(s: string): string
  {
    if |s| == 0 then "00" else if |s| == 1 then "0" + s else s
  }

  /** Padding a digit string keeps its value, and a string of at most two digits becomes
      exactly two. */
  lemma Pad2Value(s: string)
    requires AllDigits(s)
    ensures AllDigits(Pad2(s)) && DigitsValue(Pad2(s)) == DigitsValue(s)
    ensures |s| <= 2 ==> |Pad2(s)| == 2
  {
    if |s| == 0 {
      DigitsValueAppend("0", "0");
    } else if |s| == 1 {
      DigitsValueAppend("0", s);
    }
  }
}
