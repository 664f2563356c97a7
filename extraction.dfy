/** The deterministic part of the upload route's fallback to the remote extractor: the
    non-blank lines of the statement decide between one request and chunked requests; a
    chunked statement is cut into 200-line chunks that each carry the first 15 lines as
    context; every reply loses its Markdown code fence; a single reply gets the canonical
    header when its first line lacks one; and the chunk replies are merged, in chunk order,
    below one canonical header. */
module Extraction {
  import opened Wrappers
  import opened Text
  import opened Numbers
  import LocalParse

  /** At most this many non-blank lines go to the extractor in one request. */
  const SingleRequestLimit: nat := 300
  /** The leading lines every chunk repeats as context. */
  const ContextLines: nat := 15
  /** The data lines of one chunk. */
  const ChunkSize: nat := 200
  /** The chunks sent together. */
  const BatchSize: nat := 3

  function Min(a: nat, b: nat): nat
  {
    if a <= b then a else b
  }

  /** Math.ceil(n / d): the fewest groups of d that hold n items. */
  function CeilDiv(n: nat, d: nat): (q: nat)
    requires d > 0
    ensures q * d >= n
    ensures q > 0 ==> (q - 1) * d < n
  {
    var q := (n + d - 1) / d;
    var r := (n + d - 1) % d;
    assert q * d + r == n + d - 1 && 0 <= r < d;
    assert q > 0 ==> (q - 1) * d == q * d - d;
    q
  }

  // ---------------------------------------------------------------- lines

  /** The lines that hold more than white space, in their order. */
  function NonBlank(lines: seq<string>): (r: seq<string>)
    ensures |r| <= |lines|
    ensures forall k :: 0 <= k < |r| ==> !IsBlank(r[k]) && r[k] in lines
    ensures (forall k :: 0 <= k < |lines| ==> !IsBlank(lines[k])) ==> r == lines
  {
    if lines == [] then []
    else
      var rest := NonBlank(lines[1..]);
      assert forall k :: 0 <= k < |rest| ==> rest[k] in lines;
      assert [lines[0]] + lines[1..] == lines;
      (if IsBlank(lines[0]) then [] else [lines[0]]) + rest
  }

  /** A line is kept exactly when it is one of the given lines and is not blank. */
  lemma {:induction false} NonBlankMembers(lines: seq<string>)
    ensures forall l :: l in NonBlank(lines) <==> l in lines && !IsBlank(l)
  {
    if lines != [] {
      NonBlankMembers(lines[1..]);
      assert lines == [lines[0]] + lines[1..];
    }
  }

  /** Filtering lines split in two filters each part and keeps them in order: every
      non-blank line is kept once per occurrence, where it stood. */
  lemma {:induction false} NonBlankAppend(a: seq<string>, b: seq<string>)
    ensures NonBlank(a + b) == NonBlank(a) + NonBlank(b)
    decreases |a|
  {
    if a == [] {
      assert a + b == b;
    } else {
      var x, t := a[0], a[1..];
      calc {
        NonBlank(a + b);
        { assert a + b == [x] + (t + b); }
        NonBlank([x] + (t + b));
        { NonBlankCons(x, t + b); }
        NonBlank([x]) + NonBlank(t + b);
        { NonBlankAppend(t, b); }
        NonBlank([x]) + (NonBlank(t) + NonBlank(b));
        (NonBlank([x]) + NonBlank(t)) + NonBlank(b);
        { NonBlankCons(x, t); }
        NonBlank([x] + t) + NonBlank(b);
        { assert a == [x] + t; }
        NonBlank(a) + NonBlank(b);
      }
    }
  }

  /** Filtering a line followed by more lines: the line's own verdict, then the rest's. */
  lemma NonBlankCons(line: string, rest: seq<string>)
    ensures NonBlank([line] + rest) == NonBlank([line]) + NonBlank(rest)
  {
    assert ([line] + rest)[1..] == rest;
    assert [line][1..] == [];
  }

  /** One line is kept iff it is not blank. */
  lemma NonBlankOne(line: string)
    ensures NonBlank([line]) == if IsBlank(line) then [] else [line]
  {
  }

  /** The non-blank lines of a text. */
  function NonBlankLines(text: string): (r: seq<string>)
    ensures forall k :: 0 <= k < |r| ==> !IsBlank(r[k]) && '\n' !in r[k]
  {
    NonBlank(Split(text, '\n'))
  }

  /** A text of one line gives that line unless it is blank. */
  lemma NonBlankLinesSingle(line: string)
    requires '\n' !in line
    ensures NonBlankLines(line) == if IsBlank(line) then [] else [line]
  {
    SplitWithoutSeparator(line, '\n');
  }

  /** The first line of a text is kept in front of the rest's non-blank lines unless it is
      blank: with NonBlankLinesSingle this fixes the non-blank lines of every text, in order
      and with repeats. */
  lemma NonBlankLinesCons(line: string, rest: string)
    requires '\n' !in line
    ensures NonBlankLines(line + "\n" + rest)
         == (if IsBlank(line) then [] else [line]) + NonBlankLines(rest)
  {
    assert line + "\n" + rest == line + ['\n'] + rest;
    SplitAtFirst(line, rest, '\n');
    NonBlankAppend([line], Split(rest, '\n'));
  }

  /** A text with a non-blank line has a non-blank line. */
  lemma {:induction false} NonBlankKeeps(lines: seq<string>, k: nat)
    requires k < |lines| && !IsBlank(lines[k])
    ensures NonBlank(lines) != []
    decreases k
  {
    if k > 0 && IsBlank(lines[0]) {
      NonBlankKeeps(lines[1..], k - 1);
    }
  }

  /** A character other than the separator lies in one of the parts that join to the text. */
  lemma {:induction false} JoinMember(parts: seq<string>, sep: char, c: char)
    requires c != sep && c in Join(parts, sep)
    ensures exists k :: 0 <= k < |parts| && c in parts[k]
    decreases |parts|
  {
    if |parts| > 1 {
      var rest := Join(parts[1..], sep);
      assert Join(parts, sep) == parts[0] + [sep] + rest;
      if c !in parts[0] {
        JoinMember(parts[1..], sep, c);
        var k :| 0 <= k < |parts[1..]| && c in parts[1..][k];
        assert parts[k + 1] == parts[1..][k];
      }
    }
  }

  /** A text holding a comma has a non-blank line: the one with the comma. */
  lemma CommaLine(text: string)
    requires ',' in text
    ensures NonBlankLines(text) != []
  {
    var parts := Split(text, '\n');
    JoinMember(parts, '\n', ',');
    var k :| 0 <= k < |parts| && ',' in parts[k];
    NonBlankKeeps(parts, k);
  }

  // ---------------------------------------------------------------- code fences

  const Fence: string := "```"

  /** replace(/^```(?:csv)?\s*\/i, ""): an opening fence, an optional csv tag in any case and
      the white space after them. */
  function StripOpeningFence(s: string): string
  {
    if StartsWith(s, Fence) then
      var t := s[3..];
      TrimStart(if |t| >= 3 && ToLower(t[..3]) == "csv" then t[3..] else t)
    else s
  }

  /** replace(/\s*```$/i, ""): a closing fence at the very end and the white space before it. */
  function StripClosingFence(s: string): string
  {
    if |s| >= 3 && s[|s| - 3..] == Fence then
      var t := s[..|s| - 3];
      t[..|t| - TrailingSpaces(t)]
    else s
  }

  /** An extractor reply without its code fence, trimmed. */
  function Unfence(text: string): string
  {
    Trim(StripClosingFence(StripOpeningFence(text)))
  }

  /** A text with neither leading nor trailing white space. */
  predicate Trimmed(s: string)
  {
    s != [] ==> !IsSpace(s[0]) && !IsSpace(s[|s| - 1])
  }

  /** A fenced reply loses exactly its fence: ```csv, or ``` followed by white space, then the
      body, then white space and ``` give back the body. */
  lemma UnfenceFenced(tag: string, ws1: string, body: string, ws2: string)
    requires tag == [] || ToLower(tag) == "csv"
    requires tag == [] ==> ws1 != []
    requires IsBlank(ws1) && IsBlank(ws2)
    requires body != [] && Trimmed(body)
    ensures Unfence(Fence + tag + ws1 + body + ws2 + Fence) == body
  {
    var after := body + ws2 + Fence;
    assert Fence + tag + ws1 + body + ws2 + Fence == Fence + tag + ws1 + after;
    OpeningFence(tag, ws1, after);
    ClosingFence(body, ws2);
    TrimNoop(body);
  }

  lemma OpeningFence(tag: string, ws1: string, after: string)
    requires tag == [] || ToLower(tag) == "csv"
    requires tag == [] ==> ws1 != []
    requires IsBlank(ws1) && after != [] && !IsSpace(after[0])
    ensures StripOpeningFence(Fence + tag + ws1 + after) == after
  {
    var s := Fence + tag + ws1 + after;
    var t := s[3..];
    var u := ws1 + after;
    assert StartsWith(s, Fence) && t == tag + u;
    assert (if |t| >= 3 && ToLower(t[..3]) == "csv" then t[3..] else t) == u by {
      if tag == [] && |t| >= 3 {
        var p := t[..3];
        assert IsSpace(p[0]) by {
          assert p[0] == ws1[0];
        }
        assert ToLower(p)[0] == LowerChar(p[0]) == p[0];
      } else if tag != [] {
        assert t[..3] == tag && t[3..] == u;
      }
    }
    assert TrimStart(u) == after by {
      assert LeadingSpaces(u) == |ws1| by {
        assert forall i :: 0 <= i < |ws1| ==> IsSpace(u[i]);
        assert u[|ws1|] == after[0];
      }
    }
  }

  lemma ClosingFence(body: string, ws2: string)
    requires body != [] && !IsSpace(body[|body| - 1]) && IsBlank(ws2)
    ensures StripClosingFence(body + ws2 + Fence) == body
  {
    var after := body + ws2 + Fence;
    var w := body + ws2;
    assert after[..|after| - 3] == w && after[|after| - 3..] == Fence;
    assert TrailingSpaces(w) == |ws2| by {
      assert forall i :: |w| - |ws2| <= i < |w| ==> IsSpace(w[i]);
      assert w[|w| - 1 - |ws2|] == body[|body| - 1];
    }
    assert w[..|w| - |ws2|] == body;
  }

  /** A trimmed reply with no fence at either end is kept as it is. */
  lemma UnfencePlain(body: string)
    requires Trimmed(body) && !StartsWith(body, Fence)
    requires !(|body| >= 3 && body[|body| - 3..] == Fence)
    ensures Unfence(body) == body
  {
    TrimNoop(body);
  }

  // ---------------------------------------------------------------- header repair

  /** The first-line test of the repair: lower-cased and trimmed, it mentions both "date"
      and "amount". */
  predicate NamesDateAndAmount(line: string)
  {
    var l := Trim(ToLower(line));
    Contains(l, "date") && Contains(l, "amount")
  }

  /** A CSV text accepted from the extractor and the number of transactions it reports. */
  datatype Extracted = Extracted(csvText: string, rowCount: nat)

  /** The header repair of a single reply: an empty or comma-free reply is refused; a reply
      whose first line does not name both date and amount gets the canonical header in front,
      so every line of it counts as a transaction; otherwise its first line is the header and
      is not counted. */
  function Repair(csv: string): (r: Option<Extracted>)
    ensures r.None? <==> csv == [] || ',' !in csv
    ensures r.Some? ==> NamesDateAndAmount(FirstLine(r.value.csvText))
    ensures r.Some? ==> r.value.rowCount + 1 == |NonBlankLines(r.value.csvText)|
    ensures r.Some? && NamesDateAndAmount(FirstLine(csv)) ==>
      r.value.csvText == csv && r.value.rowCount == |NonBlankLines(csv)| - 1
    ensures r.Some? && !NamesDateAndAmount(FirstLine(csv)) ==>
      r.value.csvText == LocalParse.HeaderLine + "\n" + csv && r.value.rowCount == |NonBlankLines(csv)|
  {
    if csv == [] || ',' !in csv then None
    else
      var text := if NamesDateAndAmount(FirstLine(csv)) then csv else LocalParse.HeaderLine + "\n" + csv;
      CommaLine(csv);
      HeaderedLines(csv);
      Some(Extracted(text, |NonBlankLines(text)| - 1))
  }

  /** The canonical header in front of a text is its first line, names date and amount, and
      adds one non-blank line. */
  lemma HeaderedLines(csv: string)
    ensures var text := LocalParse.HeaderLine + "\n" + csv;
      && FirstLine(text) == LocalParse.HeaderLine
      && NamesDateAndAmount(LocalParse.HeaderLine)
      && NonBlankLines(text) == [LocalParse.HeaderLine] + NonBlankLines(csv)
  {
    HeaderLineFacts();
    SplitAtFirst(LocalParse.HeaderLine, csv, '\n');
    assert LocalParse.HeaderLine + "\n" + csv == LocalParse.HeaderLine + ['\n'] + csv;
    var parts := [LocalParse.HeaderLine] + Split(csv, '\n');
    assert parts[1..] == Split(csv, '\n');
  }

  /** The canonical header: no line feed, not blank, its own trimmed lower-case form, and it
      names date and amount. */
  lemma HeaderLineFacts()
    ensures var h := LocalParse.HeaderLine;
      && '\n' !in h && !IsBlank(h) && Trim(ToLower(h)) == h
      && Contains(h, "date") && Contains(h, "amount")
  {
    var h := LocalParse.HeaderLine;
    LocalParse.HeaderLineWords();
    LocalParse.ThreeWordLine("date", "description", "amount");
    assert OccursAt(h, "date", 0);
    assert OccursAt(h, "amount", 17);
    assert !IsSpace(h[0]) && !IsSpace(h[|h| - 1]);
    TrimNoop(h);
  }

  // ---------------------------------------------------------------- chunking

  /** The context every chunk repeats: the first 15 non-blank lines, joined. */
  function Context(lines: seq<string>): string
  {
    Join(lines[..Min(ContextLines, |lines|)], '\n')
  }

  /** The lines after the context. */
  function ChunkData(lines: seq<string>): seq<string>
  {
    lines[Min(ContextLines, |lines|)..]
  }

  /** The data lines of chunk k: slice(200k, 200k + 200). */
  function Piece(data: seq<string>, k: nat): (p: seq<string>)
    requires k * ChunkSize < |data|
    ensures 1 <= |p| <= ChunkSize
  {
    data[k * ChunkSize..Min((k + 1) * ChunkSize, |data|)]
  }

  /** The number of chunks of a statement's lines. */
  function ChunkCount(lines: seq<string>): nat
  {
    CeilDiv(|ChunkData(lines)|, ChunkSize)
  }

  /** Chunk k: the context, a line feed, and the chunk's data lines. */
  function ChunkText(lines: seq<string>, k: nat): string
    requires k < ChunkCount(lines)
  {
    Context(lines) + "\n" + Join(Piece(ChunkData(lines), k), '\n')
  }

  /** The chunk texts of a statement's lines. */
  function Chunks(lines: seq<string>): (chunks: seq<string>)
    ensures |chunks| == ChunkCount(lines)
  {
    seq(ChunkCount(lines), k requires 0 <= k < ChunkCount(lines) => ChunkText(lines, k))
  }

  /** The chunk-building loop. */
  method BuildChunks(lines: seq<string>) returns (chunks: seq<string>)
    ensures chunks == Chunks(lines)
  {
    var headerContext := Join(lines[..Min(ContextLines, |lines|)], '\n');
    var dataLines := lines[Min(ContextLines, |lines|)..];
    chunks := [];
    var i := 0;
    while i < |dataLines|
      invariant i == |chunks| * ChunkSize
      invariant |chunks| <= ChunkCount(lines)
      invariant chunks == Chunks(lines)[..|chunks|]
    {
      chunks := chunks + [headerContext + "\n" + Join(dataLines[i..Min(i + ChunkSize, |dataLines|)], '\n')];
      i := i + ChunkSize;
    }
  }

  /** The lines of a list of pieces, one after the other. */
  function Flatten(pieces: seq<seq<string>>): seq<string>
  {
    if pieces == [] then [] else Flatten(pieces[..|pieces| - 1]) + pieces[|pieces| - 1]
  }

  /** The first q pieces hold exactly the first 200q data lines. */
  lemma {:induction false} PiecesCover(data: seq<string>, q: nat)
    requires q <= CeilDiv(|data|, ChunkSize)
    ensures Flatten(seq(q, k requires 0 <= k < q && k < CeilDiv(|data|, ChunkSize) => Piece(data, k)))
         == data[..Min(q * ChunkSize, |data|)]
  {
    var ps := seq(q, k requires 0 <= k < q && k < CeilDiv(|data|, ChunkSize) => Piece(data, k));
    if q > 0 {
      PiecesCover(data, q - 1);
      assert ps[..q - 1] == seq(q - 1, k requires 0 <= k < q - 1 && k < CeilDiv(|data|, ChunkSize) => Piece(data, k));
      assert data[..Min(q * ChunkSize, |data|)]
          == data[..(q - 1) * ChunkSize] + data[(q - 1) * ChunkSize..Min(q * ChunkSize, |data|)];
    }
  }

  /** Chunking partitions the data lines: the chunks' data lines, in chunk order, are exactly
      the lines after the context, each chunk holds between 1 and 200 of them, and there are
      ceil((N - 15) / 200) chunks for N > 15 lines. */
  lemma ChunksPartition(lines: seq<string>)
    ensures var data := ChunkData(lines);
      && Flatten(seq(ChunkCount(lines), k requires 0 <= k < ChunkCount(lines) => Piece(data, k))) == data
      && (|lines| >= ContextLines ==> ChunkCount(lines) == CeilDiv(|lines| - ContextLines, ChunkSize))
      && forall k :: 0 <= k < ChunkCount(lines) ==>
           Chunks(lines)[k] == Context(lines) + "\n" + Join(Piece(data, k), '\n')
  {
    var data := ChunkData(lines);
    var q := ChunkCount(lines);
    PiecesCover(data, q);
    var a := seq(q, k requires 0 <= k < q && k < CeilDiv(|data|, ChunkSize) => Piece(data, k));
    var b := seq(ChunkCount(lines), k requires 0 <= k < ChunkCount(lines) => Piece(data, k));
    assert forall k :: 0 <= k < q ==> a[k] == b[k];
    assert a == b;
    assert data[..Min(q * ChunkSize, |data|)] == data;
  }

  // ---------------------------------------------------------------- merging replies

  /** A line the merge drops as a repeated header: it starts with "date," in any case. */
  predicate IsHeaderLike(line: string)
  {
    StartsWith(ToLower(line), "date,")
  }

  /** The lines kept from one reply: every one not starting with "date,". */
  function KeepData(lines: seq<string>): seq<string>
  {
    if lines == [] then []
    else
      var last := lines[|lines| - 1];
      KeepData(lines[..|lines| - 1]) + (if IsHeaderLike(last) then [] else [last])
  }

  /** Keeping one more line of the reply extends the kept lines by it unless it is a header. */
  lemma KeepDataStep(lines: seq<string>, k: nat)
    requires k < |lines|
    ensures KeepData(lines[..k + 1]) == KeepData(lines[..k]) + (if IsHeaderLike(lines[k]) then [] else [lines[k]])
  {
    assert lines[..k + 1][..k] == lines[..k];
  }

  /** The kept lines are lines of the reply, and none of them is a header. */
  lemma {:induction false} KeepDataFilters(lines: seq<string>)
    ensures forall k :: 0 <= k < |KeepData(lines)| ==>
      !IsHeaderLike(KeepData(lines)[k]) && KeepData(lines)[k] in lines
  {
    if lines != [] {
      var init, last := lines[..|lines| - 1], lines[|lines| - 1];
      var rest := KeepData(init);
      KeepDataFilters(init);
      var r := KeepData(lines);
      assert r == rest + (if IsHeaderLike(last) then [] else [last]);
      forall k | 0 <= k < |r|
        ensures !IsHeaderLike(r[k]) && r[k] in lines
      {
        if k < |rest| {
          assert r[k] == rest[k] && rest[k] in init;
        } else {
          assert r[k] == last;
        }
      }
    }
  }

  /** Every reply line that is no header is kept. */
  lemma {:induction false} KeepDataKeeps(lines: seq<string>, k: nat)
    requires k < |lines| && !IsHeaderLike(lines[k])
    ensures lines[k] in KeepData(lines)
    decreases |lines|
  {
    var init, last := lines[..|lines| - 1], lines[|lines| - 1];
    assert KeepData(lines) == KeepData(init) + (if IsHeaderLike(last) then [] else [last]);
    if k < |lines| - 1 {
      KeepDataKeeps(init, k);
      assert init[k] == lines[k];
    }
  }

  /** What one chunk contributes: nothing for a failed request, otherwise its non-blank lines
      other than headers, in order. */
  function Accepted(result: Option<string>): (r: seq<string>)
    ensures result.None? || result.value == [] ==> r == []
  {
    match result
    case None => []
    case Some(text) =>
      assert text == [] ==> Split(text, '\n') == [""];
      KeepData(NonBlankLines(text))
  }

  /** A line fit for the merged CSV: one line, not blank, not a header. */
  predicate CleanLine(line: string)
  {
    !IsBlank(line) && !IsHeaderLike(line) && '\n' !in line
  }

  /** Every accepted line is a non-blank single line that is no header. */
  lemma AcceptedClean(result: Option<string>)
    ensures forall k :: 0 <= k < |Accepted(result)| ==> CleanLine(Accepted(result)[k])
  {
    if result.Some? {
      var lines := NonBlankLines(result.value);
      KeepDataFilters(lines);
    }
  }

  /** The lines merged from the chunk results so far, in chunk order. */
  function Merged(results: seq<Option<string>>): seq<string>
  {
    if results == [] then []
    else Merged(results[..|results| - 1]) + Accepted(results[|results| - 1])
  }

  /** Every non-blank line of a chunk's result that is no header ends up in the merged
      lines. */
  lemma MergedKeeps(results: seq<Option<string>>, j: nat, line: string)
    requires j < |results| && results[j].Some?
    requires line in Split(results[j].value, '\n') && !IsBlank(line) && !IsHeaderLike(line)
    ensures line in Merged(results)
  {
    AcceptedKeeps(results[j].value, line);
    MergedHasAccepted(results, j, line);
  }

  lemma AcceptedKeeps(text: string, line: string)
    requires line in Split(text, '\n') && !IsBlank(line) && !IsHeaderLike(line)
    ensures line in Accepted(Some(text))
  {
    var lines := NonBlankLines(text);
    NonBlankMembers(Split(text, '\n'));
    var k :| 0 <= k < |lines| && lines[k] == line;
    KeepDataKeeps(lines, k);
  }

  lemma MergedHasAccepted(results: seq<Option<string>>, j: nat, line: string)
    requires j < |results| && line in Accepted(results[j])
    ensures line in Merged(results)
  {
    var upto := results[..j + 1];
    assert upto[..|upto| - 1] == results[..j] && upto[|upto| - 1] == results[j];
    var head, all := Merged(upto), Merged(results);
    assert line in head;
    MergedPrefix(results, j + 1);
    assert head == all[..|head|];
  }

  /** Every merged line is a non-blank single line that is no header. */
  lemma {:induction false} MergedClean(results: seq<Option<string>>)
    ensures forall k :: 0 <= k < |Merged(results)| ==> CleanLine(Merged(results)[k])
  {
    if results != [] {
      var n := |results|;
      var rest, more := Merged(results[..n - 1]), Accepted(results[n - 1]);
      MergedClean(results[..n - 1]);
      AcceptedClean(results[n - 1]);
      var r := rest + more;
      assert Merged(results) == r;
      forall k | 0 <= k < |r|
        ensures CleanLine(r[k])
      {
        if k < |rest| {
          assert r[k] == rest[k];
          assert CleanLine(rest[k]);
        } else {
          assert r[k] == more[k - |rest|];
          assert CleanLine(more[k - |rest|]);
        }
      }
    }
  }

  /** Merging more results only appends: the lines of the first c results are a prefix. */
  lemma {:induction false} MergedPrefix(results: seq<Option<string>>, c: nat)
    requires c <= |results|
    ensures |Merged(results[..c])| <= |Merged(results)|
    ensures Merged(results[..c]) == Merged(results)[..|Merged(results[..c])|]
    decreases |results| - c
  {
    if c < |results| {
      var n := |results|;
      assert results[..n - 1][..c] == results[..c];
      MergedPrefix(results[..n - 1], c);
    } else {
      assert results[..c] == results;
    }
  }

  /** The innermost loop of the merge: the kept lines of one result pushed in order. */
  method AppendResult(lines: seq<string>, result: Option<string>) returns (out: seq<string>)
    ensures out == lines + Accepted(result)
  {
    out := lines;
    if result.Some? && result.value != [] {
      var found := NonBlankLines(result.value);
      var k := 0;
      while k < |found|
        invariant 0 <= k <= |found|
        invariant out == lines + KeepData(found[..k])
      {
        KeepDataStep(found, k);
        if !IsHeaderLike(found[k]) {
          out := out + [found[k]];
        }
        k := k + 1;
      }
      assert found[..k] == found;
      assert KeepData(found) == Accepted(result);
    }
  }

  // ---------------------------------------------------------------- progress

  /** The progress of the extraction stage, Math.round(10 + done / total * 80), computed on
      integers: the nearest integer to (160 * done + 20 * total) / (2 * total), halves rounded
      up, is the quotient of 160 * done + 21 * total by 2 * total. */
  function Percent(done: nat, total: nat): (p: nat)
    requires 0 < done + total && done <= total
    ensures 10 <= p <= 90
    ensures done == 0 ==> p == 10
    ensures done == total ==> p == 90
  {
    var n, d := 160 * done + 21 * total, 2 * total;
    QuotientOf(10, total, d);
    QuotientOf(90, total, d);
    QuotientMonotonic(10 * d + total, n, d);
    QuotientMonotonic(n, 90 * d + total, d);
    Quotient(n, d)
  }

  /** n div d by repeated subtraction. */
  function Quotient(n: nat, d: nat): nat
    requires 0 < d
    decreases n
  {
    if n < d then 0 else 1 + Quotient(n - d, d)
  }

  /** The quotient q of n by d is the one with q * d <= n < q * d + d. */
  lemma {:induction false} QuotientBounds(n: nat, d: nat)
    requires 0 < d
    ensures Quotient(n, d) * d <= n < Quotient(n, d) * d + d
    decreases n
  {
    if n >= d {
      QuotientBounds(n - d, d);
      var q := Quotient(n - d, d);
      assert (q + 1) * d == q * d + d;
    }
  }

  /** k whole divisors and a remainder below the divisor make a quotient of k. */
  lemma {:induction false} QuotientOf(k: nat, r: nat, d: nat)
    requires r < d
    ensures Quotient(k * d + r, d) == k
  {
    if k > 0 {
      QuotientOf(k - 1, r, d);
      assert k * d + r - d == (k - 1) * d + r;
    }
  }

  /** A larger dividend never has a smaller quotient. */
  lemma {:induction false} QuotientMonotonic(m: nat, n: nat, d: nat)
    requires m <= n && 0 < d
    ensures Quotient(m, d) <= Quotient(n, d)
    decreases n
  {
    if m >= d {
      QuotientMonotonic(m - d, n - d, d);
    }
  }

  /** The integer computation is the rounding of the real one. */
  lemma PercentRounds(done: nat, total: nat)
    requires 0 < done + total && done <= total
    ensures Percent(done, total) == Round(10.0 + done as real / total as real * 80.0)
  {
    var n, d := 160 * done + 21 * total, 2 * total;
    var q := Quotient(n, d);
    QuotientBounds(n, d);
    CastProduct(q, d);
    CastProduct(q + 1, d);
    FloorOfRatio(n as real, d as real, q);
    HalfShift(done as real, total as real);
  }

  /** Adding a half to 10 + a / t * 80 gives (160 * a + 21 * t) / (2 * t). */
  lemma HalfShift(a: real, t: real)
    requires 0.0 < t
    ensures 10.0 + a / t * 80.0 + 0.5 == (160.0 * a + 21.0 * t) / (2.0 * t)
  {
    var x := 10.0 + a / t * 80.0 + 0.5;
    var p := x * (2.0 * t);
    assert p == 160.0 * a + 21.0 * t by {
      assert (a / t) * t == a;
    }
    MulDiv(x, 2.0 * t);
    assert p / (2.0 * t) == x;
  }

  lemma CastProduct(a: int, b: int)
    ensures (a * b) as real == a as real * b as real
  {
  }

  /** A q with q * d <= n < (q + 1) * d is the floor of n / d. */
  lemma FloorOfRatio(n: real, d: real, q: int)
    requires 0.0 < d && q as real * d <= n < (q + 1) as real * d
    ensures (n / d).Floor == q
  {
    var y := n / d;
    assert q as real <= y by {
      var a := q as real;
      DivMonotonic(a * d, n, d);
      assert a * d / d <= y;
      MulDiv(a, d);
      assert a * d / d == a;
    }
    assert y < q as real + 1.0 by {
      var b := (q + 1) as real;
      DivStrict(n, b * d, d);
      MulDiv(b, d);
      assert y < b;
    }
    FloorBetween(y, q);
  }

  lemma FloorBetween(y: real, q: int)
    requires q as real <= y < q as real + 1.0
    ensures y.Floor == q
  {
  }

  lemma DivMonotonic(a: real, b: real, c: real)
    requires a <= b && 0.0 < c
    ensures a / c <= b / c
  {
  }

  lemma DivStrict(a: real, b: real, c: real)
    requires a < b && 0.0 < c
    ensures a / c < b / c
  {
  }

  lemma MulDiv(x: real, c: real)
    requires 0.0 < c
    ensures x * c / c == x
  {
  }

  lemma MulCancel(x: real, y: real, c: real)
    requires 0.0 < c && x * c == y * c
    ensures x == y
  {
  }

  /** Progress never goes back as chunks complete. */
  lemma PercentMonotonic(a: nat, b: nat, total: nat)
    requires a <= b <= total && 0 < total
    ensures Percent(a, total) <= Percent(b, total)
  {
    QuotientMonotonic(160 * a + 21 * total, 160 * b + 21 * total, 2 * total);
  }
}
