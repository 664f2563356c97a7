/** The fallback to the remote extractor as the upload route runs it: with progress events
    (parseChunkedWithAIStream), as one JSON response (parseNonStream), or for a whole document
    (parseDocumentWithAI). The extractor itself is a parameter: a function from the request
    text to its reply, so the batches of three that the route sends at once become requests
    taken in chunk order. */
module Stream {
  import opened Wrappers
  import opened Text
  import opened Sse
  import opened Extraction
  import LocalParse

  // ---------------------------------------------------------------- requests and replies

  /** What one extractor request comes back with: the text of its first text block (None when
      it has none), or a thrown error with its message (None when what was thrown is not an
      Error). */
  datatype Reply = Answered(text: Option<string>) | Threw(error: Option<string>)

  /** The CSV of a reply: the block text trimmed, without its code fence. */
  function ReplyCsv(text: Option<string>): string
  {
    Unfence(Trim(text.GetOr("")))
  }

  /** A chunk's result: its CSV, or null when its request threw. */
  function ChunkResult(reply: Reply): Option<string>
  {
    match reply
    case Threw(_) => None
    case Answered(t) => Some(ReplyCsv(t))
  }

  /** The statement part of the single request. */
  function SingleRequest(fileName: string, content: string): string
  {
    "Bank statement: " + fileName + "\n\n" + content
  }

  /** The statement part of the request for chunk k (numbered from 1 in the text). */
  function ChunkRequest(fileName: string, k: nat, total: nat, chunk: string): string
  {
    "Bank statement: " + fileName + " (chunk " + NatToString(k + 1) + "/" + NatToString(total)
      + ")\n\n" + chunk
  }

  /** The results of all chunks, in chunk order. */
  function Results(chunks: seq<string>, fileName: string, extract: string -> Reply)
    : (rs: seq<Option<string>>)
    ensures |rs| == |chunks|
  {
    seq(|chunks|, k requires 0 <= k < |chunks| =>
      ChunkResult(extract(ChunkRequest(fileName, k, |chunks|, chunks[k]))))
  }

  // ---------------------------------------------------------------- events

  /** The events of the progress stream. */
  datatype Event =
    | Analyzing
    | Chunking(lineCount: nat, totalChunks: nat, totalBatches: nat)
    | BatchStarted(batch: nat, totalBatches: nat, percent: nat, completed: nat, totalChunks: nat, found: nat)
    | BatchDone(batch: nat, percent: nat, completed: nat, totalChunks: nat, found: nat)
    | Failed(message: string)
    | Completed(csvText: string, rowCount: nat)

  predicate IsTerminal(e: Event)
  {
    e.Failed? || e.Completed?
  }

  /** The number of chunks merged after b batches. */
  function Done(b: nat, n: nat): nat
  {
    Min(b * BatchSize, n)
  }

  /** The transactions found in the first c chunk results, for every c from 0 to n. */
  function FoundCounts(results: seq<Option<string>>): (found: seq<nat>)
    ensures |found| == |results| + 1
  {
    seq(|results| + 1, c requires 0 <= c <= |results| => |Merged(results[..c])|)
  }

  /** The event that opens the batch starting at chunk i of n = |found| - 1: its number, the
      chunks merged so far and the transactions found in them. */
  function Opening(found: seq<nat>, i: nat): Event
    requires i < |found| - 1
  {
    var n := |found| - 1;
    BatchStarted(i / BatchSize + 1, CeilDiv(n, BatchSize), Percent(i, n), i, n, found[i])
  }

  /** The event that closes the batch starting at chunk i, once its chunks are merged. */
  function Closing(found: seq<nat>, i: nat): Event
    requires i < |found| - 1
  {
    var n := |found| - 1;
    var c := Min(i + BatchSize, n);
    BatchDone(i / BatchSize + 1, Percent(c, n), c, n, found[c])
  }

  /** The events of the batches from chunk i on: two per batch, opening then closing. */
  function BatchEventsFrom(found: seq<nat>, i: nat): seq<Event>
    decreases |found| - i
  {
    if i >= |found| - 1 then []
    else [Opening(found, i), Closing(found, i)] + BatchEventsFrom(found, i + BatchSize)
  }

  /** The events of the batch loop. */
  function BatchEvents(results: seq<Option<string>>): seq<Event>
  {
    BatchEventsFrom(FoundCounts(results), 0)
  }

  /** Event 2 * b + r from chunk i on is event r from chunk s = i + 3 * b on. */
  lemma {:induction false} BatchEventIndex(found: seq<nat>, i: nat, b: nat, r: nat, s: nat)
    requires r < 2 && 2 * b + r < |BatchEventsFrom(found, i)| && s == i + b * BatchSize
    ensures r < |BatchEventsFrom(found, s)|
    ensures BatchEventsFrom(found, i)[2 * b + r] == BatchEventsFrom(found, s)[r]
    decreases b
  {
    if b > 0 {
      var es, rest := BatchEventsFrom(found, i), BatchEventsFrom(found, i + BatchSize);
      assert es == [Opening(found, i), Closing(found, i)] + rest;
      assert es[2 * b + r] == rest[2 * (b - 1) + r];
      assert s == (i + BatchSize) + (b - 1) * BatchSize;
      BatchEventIndex(found, i + BatchSize, b - 1, r, s);
    }
  }

  /** The first two events from chunk s on open and close the batch starting there. */
  lemma BatchEventPair(found: seq<nat>, s: nat, r: nat)
    requires r < 2 && r < |BatchEventsFrom(found, s)|
    ensures s < |found| - 1
    ensures BatchEventsFrom(found, s)[r] == if r == 0 then Opening(found, s) else Closing(found, s)
  {
  }

  /** From chunk i on the batch loop writes two events for each of the CeilDiv(n - i, 3)
      batches left. */
  lemma {:induction false} BatchEventCount(found: seq<nat>, i: nat)
    requires i < |found|
    ensures |BatchEventsFrom(found, i)| == 2 * CeilDiv(|found| - 1 - i, BatchSize)
    decreases |found| - i
  {
    var m := |found| - 1 - i;
    if i + BatchSize < |found| {
      BatchEventCount(found, i + BatchSize);
      assert CeilDiv(m, BatchSize) == CeilDiv(m - BatchSize, BatchSize) + 1;
    } else if i < |found| - 1 {
      assert BatchEventsFrom(found, i + BatchSize) == [];
      assert CeilDiv(m, BatchSize) == 1;
    }
  }

  /** The batch loop writes two events for each batch it announces in its chunking event. */
  lemma BatchEventsCount(results: seq<Option<string>>)
    ensures |BatchEvents(results)| == 2 * CeilDiv(|results|, BatchSize)
  {
    BatchEventCount(FoundCounts(results), 0);
  }

  /** The last batch event closes a batch that reaches the last chunk. */
  lemma {:induction false} LastBatchEvent(found: seq<nat>, i: nat)
    requires BatchEventsFrom(found, i) != []
    ensures var es := BatchEventsFrom(found, i);
      es[|es| - 1].BatchDone? && es[|es| - 1].completed == |found| - 1
    decreases |found| - i
  {
    var rest := BatchEventsFrom(found, i + BatchSize);
    if rest != [] {
      LastBatchEvent(found, i + BatchSize);
      var es := BatchEventsFrom(found, i);
      assert es[|es| - 1] == rest[|rest| - 1];
    }
  }

  /** The single request's outcome. */
  function SingleEvent(reply: Reply): Event
  {
    match reply
    case Threw(m) => Failed(m.GetOr("AI parsing failed"))
    case Answered(t) =>
      match Repair(ReplyCsv(t))
      case None => Failed("Could not extract transactions.")
      case Some(x) => Completed(x.csvText, x.rowCount)
  }

  /** The outcome of the merge: an error when nothing was merged below the header. */
  function FinalEvent(lines: seq<string>): Event
    requires lines != []
  {
    if |lines| <= 1 then Failed("Could not extract transactions.")
    else Completed(Join(lines, '\n'), |lines| - 1)
  }

  /** The events parseChunkedWithAIStream writes, in order. */
  function StreamEvents(content: string, fileName: string, hasKey: bool, extract: string -> Reply)
    : seq<Event>
  {
    if !hasKey then [Failed("API key not configured")]
    else
      var lines := NonBlankLines(content);
      if |lines| <= SingleRequestLimit then
        [Analyzing, SingleEvent(extract(SingleRequest(fileName, content)))]
      else
        var chunks := Chunks(lines);
        var results := Results(chunks, fileName, extract);
        [Chunking(|lines|, |chunks|, CeilDiv(|chunks|, BatchSize))]
          + BatchEvents(results)
          + [FinalEvent([LocalParse.HeaderLine] + Merged(results))]
  }

  // ---------------------------------------------------------------- the stream

  /** The batch loop: every batch announced, its results merged in chunk order, and its end
      reported with the progress so far. */
  method ExtractBatches(chunks: seq<string>, fileName: string, extract: string -> Reply)
    returns (allLines: seq<string>, events: seq<Event>)
    ensures allLines == [LocalParse.HeaderLine] + Merged(Results(chunks, fileName, extract))
    ensures events == BatchEvents(Results(chunks, fileName, extract))
  {
    ghost var results := Results(chunks, fileName, extract);
    ghost var found := FoundCounts(results);
    allLines := [LocalParse.HeaderLine];
    HeaderFirst(LocalParse.HeaderLine, [], Merged(results[..0]));
    events := [];
    var completedChunks := 0;
    var i := 0;
    while i < |chunks|
      invariant completedChunks == Min(i, |chunks|)
      invariant allLines == [LocalParse.HeaderLine] + Merged(results[..completedChunks])
      invariant events + BatchEventsFrom(found, i) == BatchEvents(results)
    {
      ghost var before := events;
      var started, done;
      allLines, completedChunks, started, done := RunBatch(chunks, fileName, extract, i, allLines);
      events := events + [started] + [done];
      EventsAdvance(found, i, before, BatchEvents(results));
      i := i + BatchSize;
    }
    assert results[..|chunks|] == results;
  }

  /** One turn of the batch loop at chunk i: the started event with the progress so far, the
      batch merged, and the done event with the progress after it. */
  method RunBatch(chunks: seq<string>, fileName: string, extract: string -> Reply, i: nat,
                  allLines: seq<string>)
    returns (out: seq<string>, completed: nat, started: Event, done: Event)
    requires i < |chunks|
    requires allLines == [LocalParse.HeaderLine] + Merged(Results(chunks, fileName, extract)[..i])
    ensures completed == Min(i + BatchSize, |chunks|)
    ensures out == [LocalParse.HeaderLine] + Merged(Results(chunks, fileName, extract)[..completed])
    ensures started == Opening(FoundCounts(Results(chunks, fileName, extract)), i)
    ensures done == Closing(FoundCounts(Results(chunks, fileName, extract)), i)
  {
    ghost var results := Results(chunks, fileName, extract);
    var totalChunks := |chunks|;
    var totalBatches := CeilDiv(totalChunks, BatchSize);
    var batchNum := i / BatchSize + 1;
    started := BatchStarted(batchNum, totalBatches, Percent(i, totalChunks), i, totalChunks,
                            |allLines| - 1);
    StartedMatches(results, i, allLines);
    out, completed := MergeBatch(chunks, fileName, extract, i, allLines, i);
    done := BatchDone(batchNum, Percent(completed, totalChunks), completed, totalChunks, |out| - 1);
    DoneMatches(results, i, completed, out);
  }

  /** Pushing the two events of the batch at chunk i keeps the pushed events followed by the
      rest of the batches equal to the whole list. */
  lemma EventsAdvance(found: seq<nat>, i: nat, events: seq<Event>, all: seq<Event>)
    requires i < |found| - 1
    requires events + BatchEventsFrom(found, i) == all
    ensures (events + [Opening(found, i)] + [Closing(found, i)])
            + BatchEventsFrom(found, i + BatchSize) == all
  {
    var rest := BatchEventsFrom(found, i + BatchSize);
    assert BatchEventsFrom(found, i) == [Opening(found, i), Closing(found, i)] + rest;
    assert (events + [Opening(found, i)] + [Closing(found, i)]) + rest
        == events + ([Opening(found, i), Closing(found, i)] + rest);
  }

  /** The merged lines after the header are the transactions found in the first c results. */
  lemma LinesFound(results: seq<Option<string>>, c: nat, lines: seq<string>)
    requires c <= |results|
    requires lines == [LocalParse.HeaderLine] + Merged(results[..c])
    ensures |lines| - 1 == FoundCounts(results)[c]
  {
  }

  /** The started event of the batch at chunk i, built from the lines merged so far, is the
      opening event of that batch. */
  lemma StartedMatches(results: seq<Option<string>>, i: nat, lines: seq<string>)
    requires i < |results|
    requires lines == [LocalParse.HeaderLine] + Merged(results[..i])
    ensures BatchStarted(i / BatchSize + 1, CeilDiv(|results|, BatchSize), Percent(i, |results|),
                         i, |results|, |lines| - 1)
         == Opening(FoundCounts(results), i)
  {
    LinesFound(results, i, lines);
    OpeningOf(FoundCounts(results), |results|, i, |lines| - 1);
  }

  /** The done event of the batch at chunk i, built once its chunks are merged, is the closing
      event of that batch. */
  lemma DoneMatches(results: seq<Option<string>>, i: nat, c: nat, lines: seq<string>)
    requires i < |results| && c == Min(i + BatchSize, |results|)
    requires lines == [LocalParse.HeaderLine] + Merged(results[..c])
    ensures BatchDone(i / BatchSize + 1, Percent(c, |results|), c, |results|, |lines| - 1)
         == Closing(FoundCounts(results), i)
  {
    LinesFound(results, c, lines);
    ClosingOf(FoundCounts(results), |results|, i, c, |lines| - 1);
  }

  lemma OpeningOf(found: seq<nat>, n: nat, i: nat, k: nat)
    requires n == |found| - 1 && i < n && k == found[i]
    ensures BatchStarted(i / BatchSize + 1, CeilDiv(n, BatchSize), Percent(i, n), i, n, k)
         == Opening(found, i)
  {
  }

  lemma ClosingOf(found: seq<nat>, n: nat, i: nat, c: nat, k: nat)
    requires n == |found| - 1 && i < n && c == Min(i + BatchSize, n) && k == found[c]
    ensures BatchDone(i / BatchSize + 1, Percent(c, n), c, n, k) == Closing(found, i)
  {
  }

  /** The merge of one batch: the results of chunks i .. i + 2, requested together, are
      appended in chunk order, each one counted as completed. */
  method MergeBatch(chunks: seq<string>, fileName: string, extract: string -> Reply, i: nat,
                    allLines: seq<string>, completed: nat)
    returns (out: seq<string>, completedOut: nat)
    requires i < |chunks| && completed == i
    requires allLines == [LocalParse.HeaderLine] + Merged(Results(chunks, fileName, extract)[..i])
    ensures completedOut == Min(i + BatchSize, |chunks|)
    ensures out == [LocalParse.HeaderLine] + Merged(Results(chunks, fileName, extract)[..completedOut])
  {
    ghost var results := Results(chunks, fileName, extract);
    var batchEnd := Min(i + BatchSize, |chunks|);
    var batch := seq(batchEnd - i, idx requires 0 <= idx < batchEnd - i =>
      ChunkResult(extract(ChunkRequest(fileName, i + idx, |chunks|, chunks[i + idx]))));
    out, completedOut := allLines, completed;
    var idx := 0;
    while idx < |batch|
      invariant 0 <= idx <= |batch| && completedOut == i + idx
      invariant out == [LocalParse.HeaderLine] + Merged(results[..completedOut])
    {
      assert batch[idx] == results[i + idx];
      ghost var before := out;
      out := AppendResult(out, batch[idx]);
      MergeOne(results, i + idx, before);
      completedOut := completedOut + 1;
      idx := idx + 1;
    }
  }

  /** Appending after the header line keeps it in front. */
  lemma HeaderFirst(header: string, merged: seq<string>, more: seq<string>)
    ensures ([header] + merged) + more == [header] + (merged + more)
  {
  }

  /** Appending the accepted lines of result k to the merge of the first k extends it to the
      merge of the first k + 1, header line still first. */
  lemma MergeOne(results: seq<Option<string>>, k: nat, lines: seq<string>)
    requires k < |results|
    requires lines == [LocalParse.HeaderLine] + Merged(results[..k])
    ensures lines + Accepted(results[k]) == [LocalParse.HeaderLine] + Merged(results[..k + 1])
  {
    MergedStep(results, k);
    HeaderFirst(LocalParse.HeaderLine, Merged(results[..k]), Accepted(results[k]));
  }

  /** Merging one more result appends its accepted lines. */
  lemma MergedStep(results: seq<Option<string>>, k: nat)
    requires k < |results|
    ensures Merged(results[..k + 1]) == Merged(results[..k]) + Accepted(results[k])
  {
    assert results[..k + 1][..k] == results[..k];
  }

  /** parseChunkedWithAIStream: without a key, one error; up to 300 non-blank lines, one
      request; otherwise the chunks, the batch loop and the merged result. */
  method StreamExtraction(content: string, fileName: string, hasKey: bool, extract: string -> Reply)
    returns (events: seq<Event>)
    ensures events == StreamEvents(content, fileName, hasKey, extract)
  {
    if !hasKey {
      return [Failed("API key not configured")];
    }
    var lines := NonBlankLines(content);
    if |lines| <= SingleRequestLimit {
      return [Analyzing, SingleEvent(extract(SingleRequest(fileName, content)))];
    }
    events := ChunkedExtraction(lines, fileName, extract);
  }

  /** The chunked branch of parseChunkedWithAIStream. */
  method ChunkedExtraction(lines: seq<string>, fileName: string, extract: string -> Reply)
    returns (events: seq<Event>)
    ensures var results := Results(Chunks(lines), fileName, extract);
      events == [Chunking(|lines|, |Chunks(lines)|, CeilDiv(|Chunks(lines)|, BatchSize))]
        + BatchEvents(results) + [FinalEvent([LocalParse.HeaderLine] + Merged(results))]
  {
    var chunks := BuildChunks(lines);
    var totalChunks := |chunks|;
    var allLines, progress := ExtractBatches(chunks, fileName, extract);
    events := [Chunking(|lines|, totalChunks, CeilDiv(totalChunks, BatchSize))] + progress;
    var final: Event;
    if |allLines| <= 1 {
      final := Failed("Could not extract transactions.");
    } else {
      final := Completed(Join(allLines, '\n'), |allLines| - 1);
    }
    assert final == FinalEvent(allLines);
    events := events + [final];
  }

  // ---------------------------------------------------------------- properties of the stream

  /** Every batch event is a progress event of batch j / 2 + 1, between 10 and 90 percent,
      counting no more chunks and transactions than the whole extraction has. */
  lemma BatchEventsBounded(results: seq<Option<string>>)
    ensures var es := BatchEvents(results);
      forall j :: 0 <= j < |es| ==>
        && (es[j].BatchStarted? || es[j].BatchDone?)
        && es[j].batch == j / 2 + 1
        && 10 <= es[j].percent <= 90
        && es[j].completed <= |results|
        && es[j].found <= |Merged(results)|
  {
    var found := FoundCounts(results);
    var es := BatchEvents(results);
    assert results[..|results|] == results;
    forall j | 0 <= j < |es|
      ensures BatchEventAt(found, j)
      ensures es[j].found <= |Merged(results)|
    {
      BatchEventFields(found, j);
      MergedPrefix(results, es[j].completed);
    }
  }

  /** The percentage, the chunks completed and the transactions found never go back. */
  lemma BatchEventsMonotone(results: seq<Option<string>>)
    ensures var es := BatchEvents(results);
      && (forall j :: 0 <= j < |es| ==> es[j].BatchStarted? || es[j].BatchDone?)
      && forall i, j :: 0 <= i <= j < |es| ==>
        && es[i].percent <= es[j].percent
        && es[i].completed <= es[j].completed
        && es[i].found <= es[j].found
  {
    var found := FoundCounts(results);
    var es := BatchEvents(results);
    FoundGrows(results);
    forall j | 0 <= j < |es|
      ensures es[j].BatchStarted? || es[j].BatchDone?
    {
      BatchEventFields(found, j);
    }
    forall i, j | 0 <= i <= j < |es|
      ensures es[i].percent <= es[j].percent
      ensures es[i].completed <= es[j].completed
      ensures es[i].found <= es[j].found
    {
      PairMonotone(found, i, j);
    }
  }

  /** Later batch events report at least what earlier ones do, when the found counts grow. */
  lemma PairMonotone(found: seq<nat>, i: nat, j: nat)
    requires i <= j < |BatchEventsFrom(found, 0)|
    requires forall a, b :: 0 <= a <= b < |found| ==> found[a] <= found[b]
    ensures var es := BatchEventsFrom(found, 0);
      && (es[i].BatchStarted? || es[i].BatchDone?)
      && (es[j].BatchStarted? || es[j].BatchDone?)
      && es[i].percent <= es[j].percent
      && es[i].completed <= es[j].completed
      && es[i].found <= es[j].found
  {
    var n := |found| - 1;
    BatchEventFields(found, i);
    BatchEventFields(found, j);
    DoneMonotone((i + 1) / 2, (j + 1) / 2, n);
    PercentMonotonic(Done((i + 1) / 2, n), Done((j + 1) / 2, n), n);
  }

  /** More batches never merge fewer chunks. */
  lemma DoneMonotone(a: nat, b: nat, n: nat)
    requires a <= b
    ensures Done(a, n) <= Done(b, n)
  {
    assert a * BatchSize <= b * BatchSize;
  }

  /** More chunks merged never mean fewer transactions found. */
  lemma FoundGrows(results: seq<Option<string>>)
    ensures var found := FoundCounts(results);
      forall a, b :: 0 <= a <= b < |found| ==> found[a] <= found[b]
  {
    var found := FoundCounts(results);
    forall a, b | 0 <= a <= b < |found|
      ensures found[a] <= found[b]
    {
      assert found[a] == |Merged(results[..a])|;
      assert found[b] == |Merged(results[..b])|;
      assert results[..b][..a] == results[..a];
      MergedPrefix(results[..b], a);
    }
  }

  /** The last batch event reports every chunk merged, 90 percent and every transaction found. */
  lemma BatchEventsEnd(results: seq<Option<string>>)
    ensures var es := BatchEvents(results);
      es != [] ==>
        && es[|es| - 1].BatchDone?
        && es[|es| - 1].completed == |results|
        && es[|es| - 1].percent == 90
        && es[|es| - 1].found == |Merged(results)|
  {
    var found := FoundCounts(results);
    var es := BatchEvents(results);
    if es != [] {
      LastBatchEvent(found, 0);
      BatchEventFields(found, |es| - 1);
      assert results[..|results|] == results;
    }
  }

  /** What event j of the batch loop reports: c = Done((j + 1) / 2) chunks merged and the
      transactions found in them. */
  predicate BatchEventAt(found: seq<nat>, j: nat)
    requires j < |BatchEventsFrom(found, 0)|
  {
    var n := |found| - 1;
    var e := BatchEventsFrom(found, 0)[j];
    var c := Done((j + 1) / 2, n);
    && (e.BatchStarted? || e.BatchDone?)
    && e.batch == j / 2 + 1
    && e.completed == c
    && c <= n
    && e.percent == Percent(c, n)
    && e.found == found[c]
  }

  lemma BatchEventFields(found: seq<nat>, j: nat)
    requires j < |BatchEventsFrom(found, 0)|
    ensures BatchEventAt(found, j)
  {
    var b, r := j / 2, j % 2;
    BatchEventIndex(found, 0, b, r, b * BatchSize);
    BatchEventPair(found, b * BatchSize, r);
    assert (b * BatchSize) / BatchSize == b;
    if j % 2 == 0 {
      assert (j + 1) / 2 == b;
    } else {
      assert (j + 1) / 2 == b + 1;
      assert (b + 1) * BatchSize == b * BatchSize + BatchSize;
    }
  }

  /** The stream is never empty, ends with exactly one error or completion, and every event
      before that reports progress. */
  lemma StreamTerminates(content: string, fileName: string, hasKey: bool, extract: string -> Reply)
    ensures EndsOnce(StreamEvents(content, fileName, hasKey, extract))
  {
    var lines := NonBlankLines(content);
    if !hasKey {
      assert EndsOnce([Failed("API key not configured")]);
    } else if |lines| <= SingleRequestLimit {
      var last := SingleEvent(extract(SingleRequest(fileName, content)));
      OneTerminalLast(Analyzing, [], last);
      assert [Analyzing] + [] + [last] == [Analyzing, last];
    } else {
      var chunks := Chunks(lines);
      ChunkedTerminates(|lines|, |chunks|, Results(chunks, fileName, extract));
    }
  }

  /** The chunked stream: its chunking event, the batch events and the final event. */
  lemma ChunkedTerminates(lineCount: nat, chunkCount: nat, results: seq<Option<string>>)
    ensures EndsOnce([Chunking(lineCount, chunkCount, CeilDiv(chunkCount, BatchSize))]
                     + BatchEvents(results)
                     + [FinalEvent([LocalParse.HeaderLine] + Merged(results))])
  {
    var bs := BatchEvents(results);
    BatchEventsBounded(results);
    assert forall k :: 0 <= k < |bs| ==> !IsTerminal(bs[k]);
    OneTerminalLast(Chunking(lineCount, chunkCount, CeilDiv(chunkCount, BatchSize)), bs,
                    FinalEvent([LocalParse.HeaderLine] + Merged(results)));
  }

  /** A non-empty stream whose last event, and only that one, is an error or a completion. */
  predicate EndsOnce(es: seq<Event>)
  {
    && es != []
    && IsTerminal(es[|es| - 1])
    && forall k :: 0 <= k < |es| - 1 ==> !IsTerminal(es[k])
  }

  /** A progress event, progress events and a terminal event: the terminal one comes last and
      only there. */
  lemma OneTerminalLast(head: Event, middle: seq<Event>, last: Event)
    requires !IsTerminal(head) && IsTerminal(last)
    requires forall k :: 0 <= k < |middle| ==> !IsTerminal(middle[k])
    ensures EndsOnce([head] + middle + [last])
  {
    var es := [head] + middle + [last];
    forall k | 0 <= k < |es| - 1
      ensures !IsTerminal(es[k])
    {
      if k > 0 {
        assert es[k] == middle[k - 1];
      }
    }
  }

  /** A completed extraction always starts with a line naming date and amount, and its row
      count is the number of non-blank lines below that first line. */
  predicate WellFormed(csvText: string, rowCount: nat)
  {
    NamesDateAndAmount(FirstLine(csvText)) && rowCount + 1 == |NonBlankLines(csvText)|
  }

  /** Splitting lines joined by line feeds gives them back when none holds a line feed. */
  lemma {:induction false} SplitJoin(lines: seq<string>)
    requires lines != [] && forall k :: 0 <= k < |lines| ==> '\n' !in lines[k]
    ensures Split(Join(lines, '\n'), '\n') == lines
    decreases |lines|
  {
    if |lines| == 1 {
      SplitWithoutSeparator(lines[0], '\n');
    } else {
      SplitJoin(lines[1..]);
      SplitAtFirst(lines[0], Join(lines[1..], '\n'), '\n');
      assert [lines[0]] + lines[1..] == lines;
    }
  }

  /** The merged text has the canonical header as its first line and one more non-blank line
      than the transactions it reports. */
  lemma MergedWellFormed(results: seq<Option<string>>)
    requires Merged(results) != []
    ensures var lines := [LocalParse.HeaderLine] + Merged(results);
      WellFormed(Join(lines, '\n'), |lines| - 1)
  {
    MergedClean(results);
    HeaderOverClean(Merged(results));
  }

  /** The canonical header over clean lines is a well-formed text reporting those lines. */
  lemma HeaderOverClean(body: seq<string>)
    requires forall k :: 0 <= k < |body| ==> CleanLine(body[k])
    ensures var lines := [LocalParse.HeaderLine] + body;
      WellFormed(Join(lines, '\n'), |lines| - 1)
  {
    var lines := [LocalParse.HeaderLine] + body;
    HeaderLineFacts();
    forall k | 0 <= k < |lines|
      ensures '\n' !in lines[k] && !IsBlank(lines[k])
    {
      if k > 0 {
        assert lines[k] == body[k - 1];
      }
    }
    SplitJoin(lines);
  }

  /** Whichever way the stream ends, a completion carries a well-formed CSV text. */
  lemma CompletedWellFormed(content: string, fileName: string, hasKey: bool, extract: string -> Reply)
    ensures var es := StreamEvents(content, fileName, hasKey, extract);
      es[|es| - 1].Completed? ==> WellFormed(es[|es| - 1].csvText, es[|es| - 1].rowCount)
  {
    StreamMatchesResponse(content, fileName, hasKey, extract);
  }

  // ---------------------------------------------------------------- the wire format

  function EventType(e: Event): string
  {
    match e
    case Failed(_) => "error"
    case Completed(_, _) => "complete"
    case _ => "progress"
  }

  /** The properties of each event after its type, in the order the route writes them. */
  function EventData(e: Event): seq<Member>
  {
    match e
    case Analyzing =>
      [Member("stage", JStr("analyzing")), Member("message", JStr("Analyzing transactions...")),
       Member("percent", JNat(20))]
    case Chunking(lineCount, totalChunks, totalBatches) =>
      [Member("stage", JStr("chunking")),
       Member("message", JStr("Splitting " + NatToString(lineCount) + " rows into "
         + NatToString(totalChunks) + " chunks (" + NatToString(totalBatches) + " batches)...")),
       Member("percent", JNat(5)), Member("totalChunks", JNat(totalChunks))]
    case BatchStarted(batch, totalBatches, percent, completed, totalChunks, found) =>
      [Member("stage", JStr("extracting")),
       Member("message", JStr("Processing batch " + NatToString(batch) + " of "
         + NatToString(totalBatches) + "...")),
       Member("percent", JNat(percent)), Member("completedChunks", JNat(completed)),
       Member("totalChunks", JNat(totalChunks)), Member("transactionsFound", JNat(found))]
    case BatchDone(batch, percent, completed, totalChunks, found) =>
      [Member("stage", JStr("extracting")),
       Member("message", JStr("Batch " + NatToString(batch) + " done — " + NatToString(found)
         + " transactions found")),
       Member("percent", JNat(percent)), Member("completedChunks", JNat(completed)),
       Member("totalChunks", JNat(totalChunks)), Member("transactionsFound", JNat(found))]
    case Failed(message) => [Member("message", JStr(message))]
    case Completed(csvText, rowCount) =>
      [Member("csvText", JStr(csvText)), Member("rowCount", JNat(rowCount)),
       Member("message", JStr("Extracted " + NatToString(rowCount) + " transactions"))]
  }

  /** The bytes of one event on the wire. */
  function Encode(e: Event): string
  {
    SseEvent(EventType(e), EventData(e))
  }

  /** The whole stream the route writes. */
  function Written(es: seq<Event>): string
  {
    if es == [] then "" else Encode(es[0]) + Written(es[1..])
  }

  /** The JSON text of an event: its type first, then its properties. */
  function Payload(e: Event): string
  {
    Stringify([Member("type", JStr(EventType(e)))] + EventData(e))
  }

  /** No event repeats a key or uses "type", so the spread keeps the route's key order. */
  lemma EventObject(e: Event)
    ensures Encode(e) == Frame(Payload(e))
  {
    var typed := [Member("type", JStr(EventType(e)))];
    var data := EventData(e);
    EventKeys(e);
    SpreadFresh(typed, data);
  }

  lemma EventKeys(e: Event)
    ensures DistinctKeys(EventData(e))
    ensures FreshKeys([Member("type", JStr(EventType(e)))], EventData(e))
  {
    if e.BatchStarted? || e.BatchDone? {
      BatchKeys(e);
    } else if e.Analyzing? || e.Chunking? {
      StageKeys(e);
    } else {
      OutcomeKeys(e);
    }
  }

  lemma BatchKeys(e: Event)
    requires e.BatchStarted? || e.BatchDone?
    ensures DistinctKeys(EventData(e))
    ensures FreshKeys([Member("type", JStr(EventType(e)))], EventData(e))
  {
    var keys := ["stage", "message", "percent", "completedChunks", "totalChunks", "transactionsFound"];
    UniqueKeys([Member("type", JStr(EventType(e)))], EventData(e), keys);
  }

  lemma StageKeys(e: Event)
    requires e.Analyzing? || e.Chunking?
    ensures DistinctKeys(EventData(e))
    ensures FreshKeys([Member("type", JStr(EventType(e)))], EventData(e))
  {
    var keys := ["stage", "message", "percent", "totalChunks"];
    UniqueKeys([Member("type", JStr(EventType(e)))], EventData(e), if e.Analyzing? then keys[..3] else keys);
  }

  lemma OutcomeKeys(e: Event)
    requires e.Failed? || e.Completed?
    ensures DistinctKeys(EventData(e))
    ensures FreshKeys([Member("type", JStr(EventType(e)))], EventData(e))
  {
    var keys := ["csvText", "rowCount", "message"];
    UniqueKeys([Member("type", JStr(EventType(e)))], EventData(e), if e.Failed? then keys[2..] else keys);
  }

  /** Members whose keys are the listed ones, pairwise distinct and other than "type". */
  lemma UniqueKeys(typed: seq<Member>, data: seq<Member>, keys: seq<string>)
    requires |typed| == 1 && typed[0].key == "type"
    requires |data| == |keys| && forall k :: 0 <= k < |data| ==> data[k].key == keys[k]
    requires forall i, j :: 0 <= i < j < |keys| ==> keys[i] != keys[j]
    requires "type" !in keys
    ensures DistinctKeys(data) && FreshKeys(typed, data)
  {
  }

  /** f applied to every element, in order. */
  function MapSeq<A, B>(f: A -> B, xs: seq<A>): seq<B>
  {
    if xs == [] then [] else [f(xs[0])] + MapSeq(f, xs[1..])
  }

  lemma {:induction false} MapSeqIndex<A, B>(f: A -> B, xs: seq<A>)
    ensures |MapSeq(f, xs)| == |xs|
    ensures forall k :: 0 <= k < |xs| ==> MapSeq(f, xs)[k] == f(xs[k])
  {
    if xs != [] {
      MapSeqIndex(f, xs[1..]);
      forall k | 1 <= k < |xs|
        ensures MapSeq(f, xs)[k] == f(xs[k])
      {
        assert MapSeq(f, xs)[k] == MapSeq(f, xs[1..])[k - 1];
        assert xs[1..][k - 1] == xs[k];
      }
    }
  }

  /** The JSON texts of a list of events, in order. */
  function Payloads(es: seq<Event>): seq<string>
  {
    MapSeq(Payload, es)
  }

  /** Entry k of the list is the JSON text of event k. */
  lemma PayloadsIndex(es: seq<Event>)
    ensures |Payloads(es)| == |es|
    ensures forall k :: 0 <= k < |es| ==> Payloads(es)[k] == Payload(es[k])
  {
    MapSeqIndex(Payload, es);
  }

  /** An event's JSON text holds no line feed. */
  lemma PayloadOneLine(e: Event)
    ensures '\n' !in Payload(e)
  {
    StringifyOneLine([Member("type", JStr(EventType(e)))] + EventData(e));
  }

  /** A client reading the stream as an event stream gets one event per event written, whose
      data is that event's JSON text, in order. */
  lemma StreamReadBack(es: seq<Event>)
    ensures ReadStream(Written(es)) == Payloads(es)
  {
    var ps := Payloads(es);
    WrittenFrames(es);
    PayloadsIndex(es);
    forall k | 0 <= k < |ps|
      ensures '\n' !in ps[k]
    {
      PayloadOneLine(es[k]);
    }
    FramesReadBack(ps);
  }

  lemma {:induction false} WrittenFrames(es: seq<Event>)
    ensures Written(es) == Frames(Payloads(es))
    decreases |es|
  {
    if es != [] {
      var ps := Payloads(es);
      WrittenFrames(es[1..]);
      EventObject(es[0]);
      assert ps[1..] == Payloads(es[1..]);
    }
  }

  // ---------------------------------------------------------------- without a stream

  /** A JSON response: the extracted CSV (status 200) or an error with its status. */
  datatype Response = Ok(csvText: string, rowCount: nat) | Err(status: nat, error: string)

  /** A single reply as a response. A thrown error escapes to the handler, which answers 500
      "Failed to parse file." for a CSV or raw-text upload. */
  function AnswerResponse(reply: Reply): Response
  {
    match reply
    case Threw(_) => Err(500, "Failed to parse file.")
    case Answered(t) =>
      match Repair(ReplyCsv(t))
      case None => Err(400, "Could not extract transactions.")
      case Some(x) => Ok(x.csvText, x.rowCount)
  }

  /** parseDocumentWithAI, given the extractor's reply to the document: a thrown request is
      the handler's 500, an empty or comma-free reply is a 400, and otherwise the answer is
      the unfenced reply, behind the standard header line when its first line lacks one. */
  function DocumentResponse(hasKey: bool, reply: Reply): (r: Response)
    ensures !hasKey ==> r == Err(500, "API key not configured")
    ensures r.Ok? ==> WellFormed(r.csvText, r.rowCount)
    ensures r.Err? ==> r.status == 400 || r.status == 500
    ensures hasKey && reply.Threw? ==> r == Err(500, "Failed to parse file.")
    ensures hasKey && reply.Answered? ==>
      var csv := ReplyCsv(reply.text);
      && (r.Ok? <==> csv != [] && ',' in csv)
      && (r.Err? ==> r == Err(400, "Could not extract transactions."))
      && (r.Ok? && NamesDateAndAmount(FirstLine(csv)) ==> r.csvText == csv)
      && (r.Ok? && !NamesDateAndAmount(FirstLine(csv)) ==> r.csvText == LocalParse.HeaderLine + "\n" + csv)
    ensures r.Ok? ==> hasKey && reply.Answered?
  {
    if !hasKey then Err(500, "API key not configured") else AnswerResponse(reply)
  }

  function MergedResponse(lines: seq<string>): Response
    requires lines != []
  {
    if |lines| <= 1 then Err(400, "Could not extract transactions.")
    else Ok(Join(lines, '\n'), |lines| - 1)
  }

  /** What parseNonStream answers, as the response of a CSV or raw-text upload: a single
      request that throws is the handler's 500. */
  function NonStreamResponse(content: string, fileName: string, hasKey: bool, extract: string -> Reply)
    : Response
  {
    if !hasKey then Err(500, "API key not configured")
    else
      var lines := NonBlankLines(content);
      if |lines| <= SingleRequestLimit then AnswerResponse(extract(SingleRequest(fileName, content)))
      else
        var results := Results(Chunks(lines), fileName, extract);
        MergedResponse([LocalParse.HeaderLine] + Merged(results))
  }

  /** parseNonStream: the same sizing, chunking and merge, answered as one response. */
  method ParseNonStream(content: string, fileName: string, hasKey: bool, extract: string -> Reply)
    returns (r: Response)
    ensures r == NonStreamResponse(content, fileName, hasKey, extract)
  {
    if !hasKey {
      return Err(500, "API key not configured");
    }
    var lines := NonBlankLines(content);
    if |lines| <= SingleRequestLimit {
      return AnswerResponse(extract(SingleRequest(fileName, content)));
    }
    var chunks := BuildChunks(lines);
    var allLines, _ := ExtractBatches(chunks, fileName, extract);
    if |allLines| <= 1 {
      return Err(400, "Could not extract transactions.");
    }
    return Ok(Join(allLines, '\n'), |allLines| - 1);
  }

  /** The response and the stream's last event agree: the same CSV and count when extraction
      succeeds, and the same message when it fails for want of a key or of transactions;
      only a single request that throws differs, answering 500 where the stream reports the
      error's own message. */
  predicate Agree(last: Event, r: Response)
  {
    && (last.Completed? <==> r.Ok?)
    && (r.Ok? ==> last.csvText == r.csvText && last.rowCount == r.rowCount)
    && (r.Err? ==> r.status == 400 || r.status == 500)
    && (r.Err? && r.error != "Failed to parse file." ==> last == Failed(r.error))
    && (r.Ok? ==> WellFormed(r.csvText, r.rowCount))
  }

  lemma StreamMatchesResponse(content: string, fileName: string, hasKey: bool, extract: string -> Reply)
    ensures var es := StreamEvents(content, fileName, hasKey, extract);
      Agree(es[|es| - 1], NonStreamResponse(content, fileName, hasKey, extract))
  {
    var lines := NonBlankLines(content);
    if hasKey && |lines| <= SingleRequestLimit {
      SingleAgrees(extract(SingleRequest(fileName, content)));
    } else if hasKey {
      var chunks := Chunks(lines);
      ChunkedAgrees(|lines|, |chunks|, Results(chunks, fileName, extract));
    }
  }

  lemma SingleAgrees(reply: Reply)
    ensures Agree(SingleEvent(reply), AnswerResponse(reply))
  {
  }

  lemma ChunkedAgrees(lineCount: nat, chunkCount: nat, results: seq<Option<string>>)
    ensures var es := [Chunking(lineCount, chunkCount, CeilDiv(chunkCount, BatchSize))]
                      + BatchEvents(results)
                      + [FinalEvent([LocalParse.HeaderLine] + Merged(results))];
      Agree(es[|es| - 1], MergedResponse([LocalParse.HeaderLine] + Merged(results)))
  {
    if Merged(results) != [] {
      MergedWellFormed(results);
    }
  }
}
