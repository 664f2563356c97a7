# Bank-statement normalisation, modelled in Dafny

Fynn.AI imports bank statements and turns them into a canonical `date,description,amount`
ledger. From that ledger it builds typed transactions (ISO `YYYY-MM-DD` date, absolute amount,
`credit`/`debit` type, upper-cased currency, optional category). This project models that
pipeline and the dashboard figures computed over the stored transactions, and proves what each
step promises.

- **FileParser** (`src/lib/file-parser.ts`) is the browser preview path. It covers file-type
  detection, the standard-headers gate, the date normaliser with the smart day/month rule, the
  amount normaliser and `normalizeTransactions`, which stops at the first bad row.
- **CsvParser** (`src/lib/csv-parser.ts`) is the older builder that the server import uses. Its
  date policy reads numeric dates month-first, with 4-digit years only and no range check. Its
  amount normaliser strips only `$`.
- **Ledger** holds the per-row builder that both files share, word for word. It takes each file's
  own date and amount normaliser as parameters.
- **ParserComparison** states where the preview and the stored data diverge, as lemmas.
- **LocalParse** (`tryLocalParse`, `fc`, `pn`, `normDate` in the parse-file route) covers:
  - the keyword header scan over the first 20 rows;
  - column resolution;
  - the row loop that skips rows rather than aborting;
  - description quoting;
  - two-decimal amounts.
- **Extraction**, **Sse** and **Stream** cover the deterministic part of the fallback to the
  remote extractor:
  - sizing, 15-line context and 200-line chunks;
  - batches of three;
  - the merge that drops repeated header lines;
  - the progress percentage;
  - fence stripping and header repair;
  - `JSON.stringify` of the event objects and the `text/event-stream` framing, read back by a
    reader that follows section 9.2 of the WHATWG HTML Living Standard.
- **Kpis** (`src/app/api/dashboard/kpis/route.ts`) covers cash position, leakage, recovered
  total, tax reserve, currency and count, over exact reals.
- **Text**, **Numbers**, **DatePatterns** and **Wrappers** hold the helpers:
  - the JavaScript string operations used (trim, split, join, includes, `\b` word tests, ASCII
    case mapping);
  - `parseFloat` as a decimal prefix parser;
  - `toFixed(2)`;
  - `Math.round`;
  - the date regexes, written out as digit-run scanners;
  - `Option`/`Result`.

The native `new Date(t)` fallback is a parameter, `native: string -> Option<string>`. It maps the
trimmed text to the `toISOString().split("T")[0]` text, or to None when the date is invalid. The
extractor is the parameter `extract`. It maps a request text to a `Reply`: either the reply's
text block or a thrown error.

The date policies of the two lib files disagree, and so does the route's `normDate`. The model
keeps each as written and proves where they differ:

- `ParserComparison.AmbiguousDatesDisagree`: `03/04/2025` is 3 April in the preview but March 4
  when stored.
- `ParserComparison.DayFirstDatesSplit`: `25/01/2025` is a valid date in the preview but becomes
  the impossible `2025-25-01` when stored.
- `ParserComparison.RouteDayFirstDates`: the route's local parser emits `2025-25-01` for that
  input. The server import keeps it unchanged, and the preview reads it back as 25 January.
- `ParserComparison.ForeignSignAmounts`: an amount such as `€12` parses in the preview and fails
  when stored.

Two more edge cases of the preview's `normalizeDate` are kept as written:

- `FileParser.ThreeDigitYearKept`: the numeric patterns accept a 3-digit year, which the
  two-digit rule does not expand. `1/2/202` comes out as `202-02-01`, which is not a calendar
  date.
- `Ledger.MissingDate`: a row whose date column is missing (for example a header named
  `Transaction Date`, whose key is `transaction_date`) fails at `raw.trim()`. The whole list then
  fails with `Row n: Cannot read properties of undefined (reading 'trim')`. A missing amount is
  read as the text `undefined`, which is no number.

## Model

| member | source | states |
|---|---|---|
| FileParser.DetectFileType | src/lib/file-parser.ts:25-32 | a result exactly when the lower-cased text after the last dot is csv/xlsx/xls/pdf, and then that type |
| FileParser.DetectByExtension | src/lib/file-parser.ts:25-32 | for `base.ext` with a dot-free extension: the type is t iff the lower-cased extension is t's name |
| FileParser.DetectWithoutDot | src/lib/file-parser.ts:26 | a name without a dot is read whole as its extension: it is detected as a type iff, lower-cased, it spells that extension (so `CSV` is a CSV file) |
| FileParser.WholeWordDate | src/lib/file-parser.ts:64-70 | words are matched whole: the header line `Txn Date,Memo,Amount` is standard |
| FileParser.DateInsideWord | src/lib/file-parser.ts:64-70 | the `date` inside `Updated` is no whole word: `Updated,Memo,Amount` is not standard |
| FileParser.HeadersOnlyFirstLine | src/lib/file-parser.ts:65 | lines after the first never change the answer |
| FileParser.SmartDayMonth | src/lib/file-parser.ts:156-182 | succeeds iff one of the two readings is a valid month/day; day-first wins when both are valid; otherwise fails with `Invalid date values: a/b/y` |
| FileParser.SmartDayMonthRules | src/lib/file-parser.ts:162-174 | the three branches as documented: a>12 gives day a, b>12 gives day b, both ≤12 gives day a; both >12 fails |
| FileParser.NormalizeDate | src/lib/file-parser.ts:87-148 | every failure is either `Cannot parse date` carrying the raw input or `Invalid date values` |
| FileParser.IsoDateKept | src/lib/file-parser.ts:91-97 | an ISO date with a valid month and day is returned zero-padded |
| FileParser.IsoDateSwapped | src/lib/file-parser.ts:98-101 | an ISO date whose month is invalid but whose swapped reading is valid comes back with month and day swapped |
| FileParser.NormalizeDateIdempotent | src/lib/file-parser.ts:91-97 | its own valid output is a fixed point |
| FileParser.NumericDate | src/lib/file-parser.ts:104-126 | slash, dash and dot dates go to smartDayMonth with the 2-digit year expanded |
| FileParser.NumericDateIsCalendarDate | src/lib/file-parser.ts:104-126 | a numeric date with a 2- or 4-digit year that succeeds is an ISO calendar date YYYY-MM-DD with month 1..12 and day 1..31 |
| FileParser.ThreeDigitYearKept | src/lib/file-parser.ts:104-126 | a numeric date with a 3-digit year that succeeds keeps the year as written and is nine characters long, so it is not a calendar date |
| FileParser.ThreeDigitYearExample | src/lib/file-parser.ts:104-126 | `1/2/202` normalises to `202-02-01`, which is not a calendar date |
| FileParser.NamedDate | src/lib/file-parser.ts:128-138 | `d Mon yy` with a known month gives year-expanded `y-mm-dd`, the day not range-checked |
| FileParser.UnknownMonthName | src/lib/file-parser.ts:137-147 | an unknown month name falls to the native fallback, and is `Cannot parse date` when that fails too |
| FileParser.NormalizeAmount | src/lib/file-parser.ts:184-200 | after stripping ₹$€£¥, commas and spaces: fails iff parseFloat fails; otherwise amount ≥ 0, the signed amount is the number, debit iff negative |
| FileParser.NormalizeTransactions | src/lib/file-parser.ts:202-229 | succeeds iff every row builds; then one result per row, in order; otherwise the error names the first failing row (1-based) and its cause |
| CsvParser.NormalizeDate | src/lib/csv-parser.ts:31-61 | fails only when the native fallback fails too, with `Cannot parse date` carrying the raw input |
| CsvParser.IsoDatePadded | src/lib/csv-parser.ts:35-38 | any ISO-shaped date is zero-padded, without a range check |
| CsvParser.NormalizeDateIdempotent | src/lib/csv-parser.ts:35-38 | padded ISO dates are a fixed point |
| CsvParser.MonthFirstDate | src/lib/csv-parser.ts:40-52 | `m/d/YYYY` and `m-d-YYYY` become `YYYY-mm-dd`, first number as month, no validation |
| CsvParser.OtherDatesNative | src/lib/csv-parser.ts:54-60 | dot dates and short years go to the native fallback, otherwise `Cannot parse date` |
| CsvParser.NormalizeAmount | src/lib/csv-parser.ts:63-78 | as the preview, but only `$`, commas and spaces are stripped |
| CsvParser.NormalizeTransactions | src/lib/csv-parser.ts:103-130 | same all-or-first-failing-row contract as the preview, with this file's normalisers |
| Ledger.RowMessage | src/lib/file-parser.ts:224-226 | every row error message starts with `Row i: ` |
| Ledger.ReadAmount | src/lib/file-parser.ts:189-199 | the shared amount reading: fails iff parseFloat fails; amount ≥ 0, signed amount is the number, debit iff negative |
| Ledger.ExplicitType | src/lib/file-parser.ts:210 | a type exactly when the trimmed, lower-cased type column is credit or debit, and then that type |
| Ledger.Describe | src/lib/file-parser.ts:214 | never empty: the trimmed description, or `Transaction i+1` when it is missing or blank |
| Ledger.Categorize | src/lib/file-parser.ts:221 | the trimmed category, or null when it is missing or blank |
| Ledger.BuildRow | src/lib/file-parser.ts:207-222 | builds iff date and amount both succeed (date error first); fields are the date, amount, description, upper-cased currency (default USD), category |
| Ledger.TypeOverride | src/lib/file-parser.ts:217-220 | an explicit credit/debit wins over the sign; without one the sign decides |
| Ledger.NormalizeRows | src/lib/file-parser.ts:206-228 | the `rows.map` that throws on the first failing row, for any date and amount normaliser |
| Ledger.NormalizeRowsAppend | src/lib/file-parser.ts:206-228 | rows are built independently: a prefix builds to the prefix of the result |
| Ledger.MissingDate | src/lib/file-parser.ts:208 | a row without a date fails with the TypeError of trimming undefined, so the list fails at that row or earlier |
| DatePatterns.MatchNumeric | src/lib/file-parser.ts:105 | a match yields three digit runs of the given widths around the separator |
| DatePatterns.MatchNumericComplete | src/lib/file-parser.ts:105 | every string of that shape is matched, with those fields |
| DatePatterns.MatchNamed | src/lib/file-parser.ts:129 | a match yields day digits, a 3-9 word-character name and year digits separated by space or dash |
| DatePatterns.MatchNamedComplete | src/lib/file-parser.ts:129 | every string of that shape is matched, with those fields |
| DatePatterns.MonthCodeKeys | src/lib/file-parser.ts:133-136 | the table has exactly the twelve keys jan..dec |
| DatePatterns.MonthCodeNumbers | src/lib/file-parser.ts:133-136 | the k-th key maps to the two-digit month k+1 |
| DatePatterns.MonthOf | src/lib/file-parser.ts:137 | any month found is two digits between 01 and 12 |
| DatePatterns.ExpandYear | src/lib/file-parser.ts:108 | a 2-digit year gains 19 when above 50, else 20 (1951..2050); other years are unchanged |
| DatePatterns.YmdIsCalendarDate | src/lib/file-parser.ts:181 | the padded year-month-day text is an ISO calendar date |
| DatePatterns.PaddedIsoOf | src/lib/csv-parser.ts:35-38 | an ISO-shaped date is split on dashes and zero-padded |
| ParserComparison.AmbiguousDatesDisagree | src/lib/csv-parser.ts:41-45 | on a/b/YYYY with both ≤ 12 and a ≠ b, the preview reads day-first, the stored path month-first, and they differ |
| ParserComparison.DayFirstDatesSplit | src/lib/csv-parser.ts:41-52 | a day-first date with day > 12 is a calendar date in the preview and an invalid month when stored |
| ParserComparison.ForeignSignAmounts | src/lib/csv-parser.ts:67-72 | ₹€£¥ before an amount is ignored by the preview and makes the stored path fail |
| ParserComparison.RouteDayFirstDates | src/app/api/transactions/parse-file/route.ts:80-81 | the route emits `y-dd-mm` for a day-first date; the stored path keeps that invalid text, and the preview swaps it back |
| LocalParse.FirstHeader | src/app/api/transactions/parse-file/route.ts:26-35 | the first of the first min(n,20) rows with ≥2 cells, a date keyword and an amount/debit/credit keyword, or -1 when none is |
| LocalParse.FindHeader | src/app/api/transactions/parse-file/route.ts:26-34 | the scan loop with its break computes FirstHeader |
| LocalParse.FirstContaining | src/app/api/transactions/parse-file/route.ts:73 | findIndex: the first header containing the keyword, or -1 iff none does |
| LocalParse.ColumnMeaning | src/app/api/transactions/parse-file/route.ts:72-74 | -1 iff no keyword occurs in any header; otherwise the first match of the earliest matching keyword |
| LocalParse.ColumnMissing | src/app/api/transactions/parse-file/route.ts:72-74 | the -1 half of that statement, by induction on the keywords |
| LocalParse.ColumnFound | src/app/api/transactions/parse-file/route.ts:72-74 | the found half: some keyword matches there and every earlier keyword matches nothing |
| LocalParse.FindColumn | src/app/api/transactions/parse-file/route.ts:72-74 | the keyword loop with its early return computes the column |
| LocalParse.FindColumns | src/app/api/transactions/parse-file/route.ts:37-42 | resolves the five columns from the cleaned header row |
| LocalParse.CreditKeywordInDescription | src/app/api/transactions/parse-file/route.ts:17-20 | the credit keyword `cr` occurs inside `description`, so a description header also counts as a credit column |
| LocalParse.ParseNumberToFixed2 | src/app/api/transactions/parse-file/route.ts:65 | reading an emitted amount back gives the amount rounded to cents |
| LocalParse.NormDate | src/app/api/transactions/parse-file/route.ts:78-90 | null only when the native fallback fails on the trimmed text |
| LocalParse.NormDateMonthFirst | src/app/api/transactions/parse-file/route.ts:80-83 | slash, dash and dot dates become `y-aa-bb`, the first number in the month slot, no validation |
| LocalParse.NormDateIso | src/app/api/transactions/parse-file/route.ts:84 | ISO dates are zero-padded without validation |
| LocalParse.DebitCreditAmount | src/app/api/transactions/parse-file/route.ts:54-57 | a positive credit wins; else a positive debit, negated; else the row is skipped |
| LocalParse.RowAmount | src/app/api/transactions/parse-file/route.ts:53-61 | a kept amount is never 0; debit/credit columns when both exist, else the amount column skipping 0 |
| LocalParse.UndoubleDoubleQuotes | src/app/api/transactions/parse-file/route.ts:64 | doubling the quotes can be undone |
| LocalParse.QuoteField | src/app/api/transactions/parse-file/route.ts:64 | a description is unchanged without a comma; with one it is wrapped in quotes around the doubled-quote text |
| LocalParse.RowLine | src/app/api/transactions/parse-file/route.ts:50-65 | a row gives a line iff its date cell has a digit, it has a nonzero amount and its date normalises |
| LocalParse.RowLineAmount | src/app/api/transactions/parse-file/route.ts:65 | the line's last field is the amount with two decimals, and reads back as the amount rounded to cents |
| LocalParse.DataLines | src/app/api/transactions/parse-file/route.ts:49-66 | at most one line per row |
| LocalParse.DataLinesFromRows | src/app/api/transactions/parse-file/route.ts:49-66 | every emitted line comes from some row |
| LocalParse.DataLinesKeepRows | src/app/api/transactions/parse-file/route.ts:49-66 | every row that gives a line has it emitted: skipping never aborts |
| LocalParse.CollectLines | src/app/api/transactions/parse-file/route.ts:48-66 | the loop pushes, after the header, exactly the lines of the kept rows in order |
| LocalParse.ParseBelow | src/app/api/transactions/parse-file/route.ts:44-68 | the column checks, the row loop and the success test, as one result |
| LocalParse.TryLocalParse | src/app/api/transactions/parse-file/route.ts:24-70 | success iff a header is found, its columns are usable and some row is kept; then the header line plus the kept lines, and rowCount is their number |
| LocalParse.LocalHeaderIsStandard | src/app/api/transactions/parse-file/route.ts:48 | the local parser's output passes the preview's standard-headers gate |
| Numbers.Round | src/app/api/transactions/parse-file/route.ts:169 | Math.round: the integer within half of x, halves rounding up |
| Numbers.RoundMonotonic | src/app/api/transactions/parse-file/route.ts:169 | rounding never reverses order |
| Numbers.ToFixed2Shape | src/app/api/transactions/parse-file/route.ts:65 | toFixed(2) text ends in `.dd`, has no comma or quote, and starts with `-` iff the number is negative |
| Numbers.Rounded2Close | src/app/api/transactions/parse-file/route.ts:65 | the two-decimal value is within half a cent of the number |
| Numbers.ParseToFixed2 | src/app/api/transactions/parse-file/route.ts:65 | parseFloat reads toFixed(2) text back as the number rounded to cents |
| Text.Split | src/lib/file-parser.ts:26 | the parts contain no separator and join back to the input |
| Text.LastPartAfterSeparator | src/lib/file-parser.ts:26 | pop() after a split gives the text after the last separator |
| Text.Trim | src/lib/file-parser.ts:88 | empty iff the text is all whitespace; otherwise no whitespace at either end; and the result is a slice of the text with only whitespace cut before and after it |
| Extraction.CeilDiv | src/app/api/transactions/parse-file/route.ts:154 | Math.ceil(n/d): the least q with q·d ≥ n |
| Extraction.NonBlank | src/app/api/transactions/parse-file/route.ts:117 | the filter keeps non-blank lines from the input, and all of them when none is blank |
| Extraction.NonBlankMembers | src/app/api/transactions/parse-file/route.ts:117 | a line is kept iff it is one of the input lines and is not blank |
| Extraction.NonBlankAppend | src/app/api/transactions/parse-file/route.ts:117 | filtering two runs of lines filters each and keeps them in order, so each non-blank line is kept once per occurrence where it stood |
| Extraction.NonBlankLines | src/app/api/transactions/parse-file/route.ts:117 | every kept line is non-blank and has no newline |
| Extraction.NonBlankLinesSingle | src/app/api/transactions/parse-file/route.ts:117 | a one-line text gives that line unless it is blank |
| Extraction.NonBlankLinesCons | src/app/api/transactions/parse-file/route.ts:117 | the first line is kept, unless blank, in front of the non-blank lines of the rest, so the count behind the 300-line limit is exact |
| Extraction.CommaLine | src/app/api/transactions/parse-file/route.ts:133 | text with a comma has a non-blank line |
| Extraction.UnfenceFenced | src/app/api/transactions/parse-file/route.ts:132 | a reply fenced in ``` or ```csv comes back as its body |
| Extraction.UnfencePlain | src/app/api/transactions/parse-file/route.ts:132 | an unfenced reply is unchanged |
| Extraction.Repair | src/app/api/transactions/parse-file/route.ts:133-136 | an error iff the CSV is empty or has no comma; afterwards the first line names date and amount, the header is prepended only when it did not, and rowCount is the non-blank lines minus one |
| Extraction.HeaderedLines | src/app/api/transactions/parse-file/route.ts:135 | the prepended header becomes the first line and adds one non-blank line |
| Extraction.Piece | src/app/api/transactions/parse-file/route.ts:150 | each chunk holds between 1 and 200 data lines |
| Extraction.BuildChunks | src/app/api/transactions/parse-file/route.ts:145-151 | the chunk loop computes the chunks |
| Extraction.Chunks | src/app/api/transactions/parse-file/route.ts:145-151 | one chunk per 200 data lines |
| Extraction.ChunksPartition | src/app/api/transactions/parse-file/route.ts:145-153 | the chunks' data pieces concatenate to the data lines in order; there are ⌈(N−15)/200⌉ of them, each the 15-line context plus its piece |
| Extraction.PiecesCover | src/app/api/transactions/parse-file/route.ts:149-151 | the first q pieces cover the first min(200q, N) data lines |
| Extraction.KeepDataFilters | src/app/api/transactions/parse-file/route.ts:193-194 | kept lines never start with `date,` and come from the result |
| Extraction.KeepDataKeeps | src/app/api/transactions/parse-file/route.ts:193-194 | every result line that does not start with `date,` is kept |
| Extraction.Accepted | src/app/api/transactions/parse-file/route.ts:192 | a null or empty result adds nothing |
| Extraction.AcceptedClean | src/app/api/transactions/parse-file/route.ts:192-195 | every accepted line is non-blank, newline-free and not a header |
| Extraction.MergedClean | src/app/api/transactions/parse-file/route.ts:190-197 | the accumulator never gains a blank line or a second header |
| Extraction.MergedPrefix | src/app/api/transactions/parse-file/route.ts:190-197 | merging only appends: the lines after c results are a prefix of the final lines |
| Extraction.MergedKeeps | src/app/api/transactions/parse-file/route.ts:190-197 | every non-blank line of a chunk result that does not start with `date,` ends up in the merged lines |
| Extraction.AppendResult | src/app/api/transactions/parse-file/route.ts:192-196 | the push loop appends exactly the accepted lines of one result |
| Extraction.Percent | src/app/api/transactions/parse-file/route.ts:169 | always within 10..90; 10 before any chunk, 90 after the last |
| Extraction.PercentRounds | src/app/api/transactions/parse-file/route.ts:169 | the integer formula is Math.round(10 + done/total·80) |
| Extraction.PercentMonotonic | src/app/api/transactions/parse-file/route.ts:169 | more chunks done never lowers the percentage |
| Sse.ReadQuoted | src/app/api/transactions/parse-file/route.ts:102 | a JSON string literal reads back to the string it encodes |
| Sse.Stringify | src/app/api/transactions/parse-file/route.ts:102 | the object text is braced and holds no control character |
| Sse.StringifyOneLine | src/app/api/transactions/parse-file/route.ts:102 | the object text has no newline |
| Sse.SpreadFresh | src/app/api/transactions/parse-file/route.ts:102 | `{ type, ...data }` with fresh distinct keys is the type member followed by the data members |
| Sse.Assign | src/app/api/transactions/parse-file/route.ts:102 | an existing key is overwritten in place and every other member is unchanged; a new key is appended |
| Sse.DataLine | src/app/api/transactions/parse-file/route.ts:102 | the framed line is a `data` field carrying the payload |
| Sse.FramesReadBack | src/app/api/transactions/parse-file/route.ts:101-103 | an event-stream reader recovers every framed payload, in order |
| Sse.EventsReadBack | src/app/api/transactions/parse-file/route.ts:101-103 | a sequence of events reads back as their JSON objects |
| Stream.Results | src/app/api/transactions/parse-file/route.ts:173-188 | one result per chunk |
| Stream.ExtractBatches | src/app/api/transactions/parse-file/route.ts:159-205 | the batch loop leaves the header plus the merged lines, and writes the batch events |
| Stream.RunBatch | src/app/api/transactions/parse-file/route.ts:163-204 | one batch: opening event, merge of up to three results, closing event |
| Stream.MergeBatch | src/app/api/transactions/parse-file/route.ts:190-197 | merging a batch advances the completed count by up to three and appends those results' lines |
| Stream.StreamExtraction | src/app/api/transactions/parse-file/route.ts:108-216 | the method writes the events parseChunkedWithAIStream writes |
| Stream.ChunkedExtraction | src/app/api/transactions/parse-file/route.ts:145-215 | chunking event, batch events, then the final outcome |
| Stream.BatchEventsCount | src/app/api/transactions/parse-file/route.ts:154 | two events per batch, ⌈chunks/3⌉ batches |
| Stream.BatchEventsBounded | src/app/api/transactions/parse-file/route.ts:166-204 | every batch event carries its batch number, a percentage in 10..90 and counts within bounds |
| Stream.BatchEventsMonotone | src/app/api/transactions/parse-file/route.ts:166-204 | percentage, completed chunks and transactions found never decrease |
| Stream.BatchEventsEnd | src/app/api/transactions/parse-file/route.ts:199-204 | the last batch event reports every chunk done, 90 percent and all merged lines |
| Stream.BatchEventFields | src/app/api/transactions/parse-file/route.ts:164-170 | each batch event has the fields of its batch |
| Stream.StreamTerminates | src/app/api/transactions/parse-file/route.ts:111-215 | the stream ends with exactly one error or complete event, and it comes last |
| Stream.MergedWellFormed | src/app/api/transactions/parse-file/route.ts:207-213 | the merged text splits back into the header and non-blank lines, rowCount of them after it |
| Stream.CompletedWellFormed | src/app/api/transactions/parse-file/route.ts:137 | a complete event's text and rowCount agree |
| Stream.EventObject | src/app/api/transactions/parse-file/route.ts:101-103 | every event is written as one `data:` frame of its JSON object |
| Stream.PayloadsIndex | src/app/api/transactions/parse-file/route.ts:101-103 | one payload per event, in order |
| Stream.StreamReadBack | src/app/api/transactions/parse-file/route.ts:101-103 | a reader of the written stream recovers the payload of every event, in order |
| Stream.WrittenFrames | src/app/api/transactions/parse-file/route.ts:101-103 | the stream is the frames of the payloads |
| Stream.DocumentResponse | src/app/api/transactions/parse-file/route.ts:221-239 | no key gives 500; a thrown request gives the handler's 500; an answered reply succeeds iff its unfenced text is non-empty and has a comma, and otherwise gives 400 `Could not extract transactions.`; a success is that text, behind the standard header when its first line lacks date or amount, and is well-formed |
| Stream.ParseNonStream | src/app/api/transactions/parse-file/route.ts:319-367 | the method computes the one-response answer |
| Stream.StreamMatchesResponse | src/app/api/transactions/parse-file/route.ts:319-367 | the last stream event and the non-streaming answer agree on the outcome |
| Kpis.OfKind | src/app/api/dashboard/kpis/route.ts:43-48 | a row is kept iff it is in the input and has that type |
| Kpis.OfKindCounts | src/app/api/dashboard/kpis/route.ts:43-48 | each row of the type is kept as many times as it occurs, rows of other types never |
| Kpis.OfKindAppend | src/app/api/dashboard/kpis/route.ts:43-48 | filtering two runs of rows filters each and keeps them in order |
| Kpis.OutstandingOnly | src/app/api/dashboard/kpis/route.ts:52-53 | an invoice is kept iff it is in the input and is unpaid or overdue |
| Kpis.OutstandingCounts | src/app/api/dashboard/kpis/route.ts:52-53 | each unpaid or overdue invoice is kept as many times as it occurs, others never |
| Kpis.OutstandingAppend | src/app/api/dashboard/kpis/route.ts:52-53 | filtering two runs of invoices filters each and keeps them in order |
| Kpis.TaxReserve | src/app/api/dashboard/kpis/route.ts:61-62 | never negative; a quarter of a positive net income, otherwise 0 |
| Kpis.Compute | src/app/api/dashboard/kpis/route.ts:39-73 | a null list counts as empty; the cash position is the running signed total, the leakage the running total of what outstanding invoices owe, the recovered total the sum of paid amounts; the tax reserve follows the cash position; the currency is the first row's when present (even empty text), else USD; the count is the number of transactions |
| Kpis.KindTotalStep | src/app/api/dashboard/kpis/route.ts:43-48 | one more row adds its amount to its own type's total only |
| Kpis.CashPositionStep | src/app/api/dashboard/kpis/route.ts:43-49 | one more row moves the cash position by its signed amount |
| Kpis.CashPositionSigned | src/app/api/dashboard/kpis/route.ts:43-49 | cash position = sum of credits minus debits, other types contributing nothing |
| Kpis.LeakageStep | src/app/api/dashboard/kpis/route.ts:52-54 | one more invoice adds its unpaid part only when it is unpaid or overdue |
| Kpis.LeakageOwed | src/app/api/dashboard/kpis/route.ts:52-54 | the leakage is the running sum of the unpaid parts of unpaid and overdue invoices, other invoices adding nothing |
| Kpis.LeakageIgnoresSettled | src/app/api/dashboard/kpis/route.ts:52-54 | paid, partial or other invoices do not change the leakage |
| Kpis.RecoveredStep | src/app/api/dashboard/kpis/route.ts:57-58 | one more invoice adds its paid amount, whatever its status |
| Kpis.RecoveredIgnoresStatus | src/app/api/dashboard/kpis/route.ts:57-58 | the recovered total depends on paid amounts only |

## Left out

- The calls to the remote extractor are network I/O. Each is the parameter `extract`. A reply's text block, or the error it threw, is its input to the model. The model name, token limits and prompt are not modelled.
- `Promise.all`, the `ReadableStream` controller and the response headers are not modelled. The three requests of a batch are taken in chunk order, which is the order in which their results are merged.
- The SSE reader in the upload page is not part of this model. The reader that reads the stream back splits lines on LF only, which is all the writer produces.
- `Papa.parse` (`parseCSV` in both lib files), `XLSX.read`, `sheet_to_json` and `sheet_to_csv` are not modelled. Their output rows are inputs.
- The native `new Date(t)` fallback is the parameter `native`. Its calendar rules are not modelled.
- `parseFloat` is modelled as a decimal prefix parser: optional spaces, a sign, digits and a fraction. It does not accept exponents, `Infinity` or hex. `toFixed(2)` and all arithmetic are on exact reals, with halves rounded away from zero, so binary floating-point rounding is not modelled.
- Numbers.ToFixed2Shape: the `….dd` shape holds only for |x| < 10^21. For larger numbers JavaScript's `toFixed(2)` prints exponent notation such as `1e+21`, which the model does not produce.
- `toLowerCase` and `toUpperCase` map ASCII letters only.
- JSON escaping in `Sse.Stringify` writes every character as itself except quote, backslash and control characters. Lone surrogates are not treated specially.
- Row cells are strings. The non-string cells that `(c || "")` guards against, and `String(raw)` for numeric amounts, are not modelled.
- The try/catch around `tryLocalParse` catches nothing in the model, since the modelled body cannot throw.
- The base64 document request in `parseDocumentWithAI` is not modelled. Only its reply handling is, in `Stream.DocumentResponse`, on a given `Reply`.
- For a CSV or raw-text upload, a thrown extractor error in `parseNonStream`'s single request reaches the outer `catch` of `POST`. So does one in `parseDocumentWithAI`. Both are modelled as that catch's 500 answer `Failed to parse file.`, without the `detail` text.
- The workbook branch of `POST` (src/app/api/transactions/parse-file/route.ts:258-284) is not modelled. There, `parseNonStream` runs inside the `try` whose empty `catch` swallows its rejection. The workbook is then sent again through `parseDocumentWithAI`, so a thrown single request does not answer 500 there. `Stream.NonStreamResponse` describes CSV and raw-text uploads only.
- Auth, the request dispatch by extension in `POST` (src/app/api/transactions/parse-file/route.ts:244-316), and Supabase access are not modelled.
- In the dashboard, a failed transaction query answers 500, and a failed invoice query is logged and ignored. Neither is modelled. A list the query does not return is None and counts as empty.
- `Number(t.amount)` is not modelled. Amounts are already reals.
- `console.error` logging is not modelled.
