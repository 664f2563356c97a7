/** The progress stream of the upload route: sseEvent(type, data) writes one server-sent event
    whose single data line is JSON.stringify({ type, ...data }). The module models the JSON
    string quoting of ECMA-262 (QuoteJSONString), the object text, the spread that puts the
    type first, and the reading of an event stream as section 9.2.6 of the WHATWG HTML
    standard defines it, and proves that a client reads back exactly the JSON texts the route
    wrote, one event each, however many line breaks the extracted CSV holds. */
module Sse {
  import opened Wrappers
  import opened Text

  // ---------------------------------------------------------------- JSON strings

  /** The characters QuoteJSONString writes as a backslash and one letter, with that letter. */
  function ShortEscape(c: char): Option<char>
  {
    if c == '\U{8}' then Some('b')
    else if c == '\t' then Some('t')
    else if c == '\n' then Some('n')
    else if c == '\U{C}' then Some('f')
    else if c == '\r' then Some('r')
    else if c == '"' then Some('"')
    else if c == '\\' then Some('\\')
    else None
  }

  /** A lower-case hexadecimal digit, as \u escapes are written. */
  function HexDigit(d: nat): (c: char)
    requires d < 16
    ensures HexValue(c) == Some(d)
  {
    if d < 10 then DigitChar(d) else ('a' as int + d - 10) as char
  }

  /** The value of a hexadecimal digit of either case. */
  function HexValue(c: char): Option<nat>
  {
    if IsDigit(c) then Some(DigitValue(c))
    else if 'a' <= c <= 'f' then Some(c as int - 'a' as int + 10)
    else if 'A' <= c <= 'F' then Some(c as int - 'A' as int + 10)
    else None
  }

  /** One character as JSON.stringify writes it inside a string literal. */
  function EscapeChar(c: char): (r: string)
    ensures r != []
    ensures forall i :: 0 <= i < |r| ==> ' ' <= r[i]
  {
    match ShortEscape(c)
    case Some(e) => ['\\', e]
    case None =>
      if c < ' ' then ['\\', 'u', '0', '0', HexDigit(c as int / 16), HexDigit(c as int % 16)]
      else [c]
  }

  /** The inside of a JSON string literal: no control character, so no line break, is left. */
  function Escape(s: string): (r: string)
    ensures forall i :: 0 <= i < |r| ==> ' ' <= r[i]
    decreases |s|
  {
    if s == [] then ""
    else
      var head, tail := EscapeChar(s[0]), Escape(s[1..]);
      assert forall i :: |head| <= i < |head| + |tail| ==> (head + tail)[i] == tail[i - |head|];
      head + tail
  }

  /** A JSON string literal. */
  function Quote(s: string): string
  {
    "\"" + Escape(s) + "\""
  }

  /** The character a backslash and the letter e stand for, other than \u. */
  function Unescape(e: char): Option<char>
  {
    if e == 'b' then Some('\U{8}')
    else if e == 't' then Some('\t')
    else if e == 'n' then Some('\n')
    else if e == 'f' then Some('\U{C}')
    else if e == 'r' then Some('\r')
    else if e == '"' then Some('"')
    else if e == '\\' then Some('\\')
    else if e == '/' then Some('/')
    else None
  }

  /** The value of four hexadecimal digits. */
  function Hex4(t: string): Option<nat>
    requires |t| >= 4
  {
    match (HexValue(t[0]), HexValue(t[1]), HexValue(t[2]), HexValue(t[3]))
    case (Some(a), Some(b), Some(c), Some(d)) => Some(((a * 16 + b) * 16 + c) * 16 + d)
    case _ => None
  }

  /** The character four hexadecimal digits name; surrogate halves, which only pairs of \u
      escapes make meaningful, are refused. */
  function CodeUnit(t: string): Option<char>
    requires |t| >= 4
  {
    match Hex4(t)
    case Some(v) => if v < 0xD800 || 0xE000 <= v then Some(v as char) else None
    case None => None
  }

  /** Reads the rest of a JSON string literal whose opening quote is already consumed: the
      string it denotes and the text after the closing quote, or None for malformed text. */
  function ReadString(t: string): Option<(string, string)>
    decreases |t|
  {
    if t == [] then None
    else if t[0] == '"' then Some(([], t[1..]))
    else if t[0] < ' ' then None
    else if t[0] != '\\' then Prefix(t[0], ReadString(t[1..]))
    else if |t| < 2 then None
    else if t[1] == 'u' then
      if |t| < 6 then None
      else
        match CodeUnit(t[2..6])
        case None => None
        case Some(c) => Prefix(c, ReadString(t[6..]))
    else
      match Unescape(t[1])
      case None => None
      case Some(c) => Prefix(c, ReadString(t[2..]))
  }

  function Prefix(c: char, read: Option<(string, string)>): Option<(string, string)>
  {
    match read
    case None => None
    case Some((v, rest)) => Some(([c] + v, rest))
  }

  /** Reading one escaped character gives that character back. */
  lemma ReadEscapedChar(c: char, t: string)
    ensures ReadString(EscapeChar(c) + t) == Prefix(c, ReadString(t))
  {
    if ShortEscape(c).Some? {
      ReadShortEscape(c, t);
    } else if c < ' ' {
      ReadUnicodeEscape(c, t);
    } else {
      assert (EscapeChar(c) + t)[1..] == t;
    }
  }

  lemma ReadShortEscape(c: char, t: string)
    requires ShortEscape(c).Some?
    ensures ReadString(EscapeChar(c) + t) == Prefix(c, ReadString(t))
  {
    var u, e := EscapeChar(c) + t, ShortEscape(c).value;
    assert Unescape(e) == Some(c);
    assert u[0] == '\\' && u[1] == e && e != 'u';
    assert u[2..] == t;
  }

  lemma ReadUnicodeEscape(c: char, t: string)
    requires ShortEscape(c).None? && c < ' '
    ensures ReadString(EscapeChar(c) + t) == Prefix(c, ReadString(t))
  {
    var u := EscapeChar(c) + t;
    var hi, lo := c as int / 16, c as int % 16;
    assert u[2..6] == ['0', '0', HexDigit(hi), HexDigit(lo)];
    assert Hex4(u[2..6]) == Some(hi * 16 + lo);
    assert CodeUnit(u[2..6]) == Some(c);
    assert u[6..] == t;
  }

  /** A quoted string reads back as itself, and the reading stops right after its closing
      quote, whatever text follows. */
  lemma {:induction false} ReadQuoted(s: string, rest: string)
    ensures ReadString(Escape(s) + "\"" + rest) == Some((s, rest))
    decreases |s|
  {
    if s == [] {
      assert Escape(s) + "\"" + rest == "\"" + rest;
      assert ("\"" + rest)[1..] == rest;
    } else {
      ReadQuoted(s[1..], rest);
      assert Escape(s) + "\"" + rest == EscapeChar(s[0]) + (Escape(s[1..]) + "\"" + rest);
      ReadEscapedChar(s[0], Escape(s[1..]) + "\"" + rest);
      assert [s[0]] + s[1..] == s;
    }
  }

  // ---------------------------------------------------------------- JSON objects

  /** The values the route puts in its events: strings and counts. */
  datatype Json = JStr(s: string) | JNat(n: nat)

  datatype Member = Member(key: string, value: Json)

  function ValueText(v: Json): (r: string)
    ensures forall i :: 0 <= i < |r| ==> ' ' <= r[i]
  {
    match v
    case JStr(s) => Quote(s)
    case JNat(n) => NatToString(n)
  }

  function MemberText(m: Member): (r: string)
    ensures forall i :: 0 <= i < |r| ==> ' ' <= r[i]
  {
    Quote(m.key) + ":" + ValueText(m.value)
  }

  function MembersText(ms: seq<Member>): (r: string)
    ensures forall i :: 0 <= i < |r| ==> ' ' <= r[i]
  {
    if ms == [] then ""
    else if |ms| == 1 then MemberText(ms[0])
    else MemberText(ms[0]) + "," + MembersText(ms[1..])
  }

  /** JSON.stringify of an object, its members in insertion order. The text holds no control
      character, so it fits on one line of an event stream. */
  function Stringify(ms: seq<Member>): (r: string)
    ensures |r| >= 2 && r[0] == '{' && r[|r| - 1] == '}'
    ensures forall i :: 0 <= i < |r| ==> ' ' <= r[i]
  {
    "{" + MembersText(ms) + "}"
  }

  /** The position of the first member named key, or |obj| when there is none. */
  function KeyIndex(obj: seq<Member>, key: string): (i: nat)
    ensures i <= |obj|
    ensures i < |obj| ==> obj[i].key == key
    ensures forall j :: 0 <= j < i ==> obj[j].key != key
  {
    if obj == [] then 0
    else if obj[0].key == key then 0
    else 1 + KeyIndex(obj[1..], key)
  }

  /** Setting a property: an existing one keeps its place and takes the new value, a new one
      goes last. */
  function Assign(obj: seq<Member>, m: Member): (r: seq<Member>)
    ensures KeyIndex(obj, m.key) < |obj| ==> |r| == |obj| && r[KeyIndex(obj, m.key)] == m
    ensures KeyIndex(obj, m.key) == |obj| ==> r == obj + [m]
    ensures forall j :: 0 <= j < |obj| && j != KeyIndex(obj, m.key) ==> r[j] == obj[j]
  {
    var i := KeyIndex(obj, m.key);
    if i < |obj| then obj[i := m] else obj + [m]
  }

  /** The object literal { ...obj, ...data }: data's properties assigned in order. */
  function Spread(obj: seq<Member>, data: seq<Member>): seq<Member>
    decreases |data|
  {
    if data == [] then obj else Spread(Assign(obj, data[0]), data[1..])
  }

  /** Keys no two members share. */
  predicate DistinctKeys(ms: seq<Member>)
  {
    forall i, j :: 0 <= i < j < |ms| ==> ms[i].key != ms[j].key
  }

  /** No key of data is a key of obj. */
  predicate FreshKeys(obj: seq<Member>, data: seq<Member>)
  {
    forall i, j :: 0 <= i < |obj| && 0 <= j < |data| ==> obj[i].key != data[j].key
  }

  /** When data's keys are new to the object and distinct, spreading appends data as it is. */
  lemma {:induction false} SpreadFresh(obj: seq<Member>, data: seq<Member>)
    requires DistinctKeys(data) && FreshKeys(obj, data)
    ensures Spread(obj, data) == obj + data
    decreases |data|
  {
    if data != [] {
      var next := obj + [data[0]];
      assert Assign(obj, data[0]) == next by {
        FreshStep(obj, data);
        AssignNew(obj, data[0]);
      }
      assert Spread(next, data[1..]) == next + data[1..] by {
        FreshStep(obj, data);
        SpreadFresh(next, data[1..]);
      }
      assert next + data[1..] == obj + data;
    }
  }

  lemma FreshStep(obj: seq<Member>, data: seq<Member>)
    requires data != [] && DistinctKeys(data) && FreshKeys(obj, data)
    ensures forall i :: 0 <= i < |obj| ==> obj[i].key != data[0].key
    ensures DistinctKeys(data[1..]) && FreshKeys(obj + [data[0]], data[1..])
  {
    var next := obj + [data[0]];
    forall i, j | 0 <= i < |next| && 0 <= j < |data[1..]|
      ensures next[i].key != data[1..][j].key
    {
      assert data[1..][j] == data[j + 1];
    }
  }

  /** Assigning a property the object does not have appends it. */
  lemma AssignNew(obj: seq<Member>, m: Member)
    requires forall i :: 0 <= i < |obj| ==> obj[i].key != m.key
    ensures Assign(obj, m) == obj + [m]
  {
    assert KeyIndex(obj, m.key) == |obj|;
  }

  /** sseEvent: one event whose data line is the JSON object { type, ...data }. */
  function SseEvent(kind: string, data: seq<Member>): string
  {
    Frame(Stringify(Spread([Member("type", JStr(kind))], data)))
  }

  /** An event of one data line. */
  function Frame(payload: string): string
  {
    "data: " + payload + "\n\n"
  }

  // ---------------------------------------------------------------- reading an event stream

  /** The field name and value of a non-blank line: the text before the first colon and the
      text after it without one leading space; a line without a colon is a name alone. */
  function FieldOf(line: string): (string, string)
  {
    var i := IndexOf(line, ':');
    if i == |line| then (line, "")
    else
      var value := line[i + 1..];
      (line[..i], if value != [] && value[0] == ' ' then value[1..] else value)
  }

  /** The data of the events a list of lines dispatches, given the data buffer so far: a data
      field appends its value and a line feed, a blank line dispatches a non-empty buffer
      without its last line feed, a line starting with a colon is a comment, and the events
      still open when the lines end are dropped. */
  function Dispatch(lines: seq<string>, buffer: string): seq<string>
    decreases |lines|
  {
    if lines == [] then []
    else
      var line := lines[0];
      if line == [] then
        (if buffer == [] then [] else [buffer[..|buffer| - 1]]) + Dispatch(lines[1..], [])
      else if line[0] == ':' then Dispatch(lines[1..], buffer)
      else
        var (name, value) := FieldOf(line);
        if name == "data" then Dispatch(lines[1..], buffer + value + "\n")
        else Dispatch(lines[1..], buffer)
  }

  /** The data of every event a complete stream carries, its lines ended by line feeds. */
  function ReadStream(text: string): seq<string>
  {
    Dispatch(Split(text, '\n'), [])
  }

  /** The frames of a list of payloads, written one after the other. */
  function Frames(payloads: seq<string>): string
  {
    if payloads == [] then "" else Frame(payloads[0]) + Frames(payloads[1..])
  }

  /** A data line with a payload free of line feeds has the payload as its value. */
  lemma DataLine(payload: string)
    requires '\n' !in payload
    ensures FieldOf("data: " + payload) == ("data", payload)
  {
    var line := "data: " + payload;
    assert line[..4] == "data" && line[4] == ':';
    assert IndexOf(line, ':') == 4;
    assert line[5..][1..] == payload;
  }

  /** A frame splits into its data line and a blank line. */
  lemma FrameLines(p: string, rest: string)
    requires '\n' !in p
    ensures Split(Frame(p) + rest, '\n') == ["data: " + p, []] + Split(rest, '\n')
  {
    var line := "data: " + p;
    assert '\n' !in line by {
      assert forall i :: 6 <= i < |line| ==> line[i] == p[i - 6];
    }
    assert Frame(p) + rest == line + ['\n'] + ([] + ['\n'] + rest);
    SplitAtFirst(line, [] + ['\n'] + rest, '\n');
    SplitAtFirst([], rest, '\n');
  }

  /** A data line followed by a blank line dispatches the data line's value. */
  lemma DispatchFrame(p: string, lines: seq<string>)
    requires '\n' !in p
    ensures Dispatch(["data: " + p, []] + lines, []) == [p] + Dispatch(lines, [])
  {
    var all := ["data: " + p, []] + lines;
    DataLine(p);
    assert Dispatch(all, []) == Dispatch(all[1..], [] + p + "\n");
    assert all[1..][1..] == lines;
    assert ([] + p + "\n")[..|p|] == p;
  }

  /** A stream of frames reads back as its payloads, one event each, in order, when no payload
      holds a line feed. */
  lemma {:induction false} FramesReadBack(payloads: seq<string>)
    requires forall k :: 0 <= k < |payloads| ==> '\n' !in payloads[k]
    ensures ReadStream(Frames(payloads)) == payloads
    decreases |payloads|
  {
    if payloads == [] {
      assert Split("", '\n') == [""];
    } else {
      var p, rest := payloads[0], Frames(payloads[1..]);
      FramesReadBack(payloads[1..]);
      FrameLines(p, rest);
      DispatchFrame(p, Split(rest, '\n'));
    }
  }

  /** The events sseEvent writes read back as their JSON texts, one each, in order. */
  lemma EventsReadBack(events: seq<(string, seq<Member>)>)
    ensures ReadStream(Frames(seq(|events|, k requires 0 <= k < |events| =>
                Stringify(Spread([Member("type", JStr(events[k].0))], events[k].1)))))
         == seq(|events|, k requires 0 <= k < |events| =>
                Stringify(Spread([Member("type", JStr(events[k].0))], events[k].1)))
  {
    var ps := seq(|events|, k requires 0 <= k < |events| =>
                Stringify(Spread([Member("type", JStr(events[k].0))], events[k].1)));
    forall k | 0 <= k < |ps|
      ensures '\n' !in ps[k]
    {
      StringifyOneLine(Spread([Member("type", JStr(events[k].0))], events[k].1));
    }
    FramesReadBack(ps);
  }

  /** The JSON text of an object holds no line feed. */
  lemma StringifyOneLine(ms: seq<Member>)
    ensures '\n' !in Stringify(ms)
  {
    var r := Stringify(ms);
    assert forall i :: 0 <= i < |r| ==> ' ' <= r[i];
  }
}
