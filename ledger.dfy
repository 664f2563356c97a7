/** The ledger builder both library parsers share: a raw statement row becomes a typed
    transaction, and a list of rows becomes a list of transactions or the error of the first
    row that fails. Each parser supplies its own date and amount normalisers. */
module Ledger {
  import opened Wrappers
  import opened Text
  import opened Numbers

  datatype TxType = Credit | Debit

  /** The JSON spelling of a transaction type. */
  function TypeName(t: TxType): string
  {
    match t
    case Credit => "credit"
    case Debit => "debit"
  }

  /** A row as the CSV reader hands it over; a column the row does not have is None. */
  datatype RawTransaction = RawTransaction(
    date: Option<string>,
    description: Option<string>,
    amount: Option<string>,
    kind: Option<string>,
    category: Option<string>)

  datatype NormalizedTransaction = NormalizedTransaction(
    date: string,
    description: string,
    amount: real,
    currency: string,
    kind: TxType,
    category: Option<string>)

  /** What an amount normaliser reads: the magnitude and the type its sign implies. */
  datatype Reading = Reading(amount: real, kind: TxType)

  /** The errors the normalisers throw; UndefinedDate is the TypeError of trimming a date
      the row does not have. */
  datatype ParseError =
    | UndefinedDate
    | CannotParseDate(raw: string)
    | InvalidDateValues(a: string, b: string, y: string)
    | CannotParseAmount(raw: string)

  function Message(e: ParseError): string
  {
    match e
    case UndefinedDate => "Cannot read properties of undefined (reading 'trim')"
    case CannotParseDate(raw) => "Cannot parse date: " + raw
    case InvalidDateValues(a, b, y) => "Invalid date values: " + a + "/" + b + "/" + y
    case CannotParseAmount(raw) => "Cannot parse amount: " + raw
  }

  /** The error of a whole list: the 1-based number of the first failing row and its cause. */
  datatype RowError = RowError(row: nat, cause: ParseError)

  function RowMessage(e: RowError): (m: string)
    ensures StartsWith(m, "Row " + NatToString(e.row) + ": ")
  {
    "Row " + NatToString(e.row) + ": " + Message(e.cause)
  }

  /** The number a reading stands for: the magnitude, negated for a debit. */
  function SignedAmount(r: Reading): real
  {
    if r.kind == Debit then -r.amount else r.amount
  }

  /** The amount normaliser of both parsers, given the characters it strips: parseFloat of the
      remaining text, its magnitude as the amount and its sign as the type (zero is a credit). */
  function ReadAmount(raw: string, noise: char -> bool): (r: Result<Reading, ParseError>)
    ensures r.Success? <==> ParseFloat(Trim(RemoveAll(raw, noise))).Some?
    ensures r.Failure? ==> r.error == CannotParseAmount(raw)
    ensures r.Success? ==>
      var num := ParseFloat(Trim(RemoveAll(raw, noise))).value;
      && r.value.amount >= 0.0
      && SignedAmount(r.value) == num
      && (r.value.kind == Debit <==> num < 0.0)
  {
    match ParseFloat(Trim(RemoveAll(raw, noise)))
    case None => Failure(CannotParseAmount(raw))
    case Some(num) => Success(Reading(Abs(num), if num >= 0.0 then Credit else Debit))
  }

  /** An explicit type column: "credit" or "debit" after trimming and lower-casing. */
  function ExplicitType(kind: Option<string>): (r: Option<TxType>)
    ensures r.Some? <==> kind.Some? && ToLower(Trim(kind.value)) in {"credit", "debit"}
    ensures r.Some? ==> TypeName(r.value) == ToLower(Trim(kind.value))
  {
    match kind
    case None => None
    case Some(k) =>
      var t := ToLower(Trim(k));
      if t == "credit" then Some(Credit) else if t == "debit" then Some(Debit) else None
  }

  /** The description, or "Transaction n" (n the 1-based row number) when it is missing or
      blank. */
  function Describe(description: Option<string>, index: nat): (d: string)
    ensures d != []
    ensures description.Some? && !IsBlank(description.value) ==> d == Trim(description.value)
    ensures description.None? || IsBlank(description.value) ==>
      d == "Transaction " + NatToString(index + 1)
  {
    if description.Some? && Trim(description.value) != [] then Trim(description.value)
    else "Transaction " + NatToString(index + 1)
  }

  /** The category, trimmed; a missing or blank category is null. */
  function Categorize(category: Option<string>): (c: Option<string>)
    ensures c.Some? ==> c.value != [] && category.Some? && c.value == Trim(category.value)
    ensures c.None? <==> category.None? || IsBlank(category.value)
  {
    if category.Some? && Trim(category.value) != [] then Some(Trim(category.value)) else None
  }

  /** One row, given what the parser's date and amount normalisers made of its cells. The date
      is normalised first, so its error wins; the currency defaults to USD. */
  function BuildRow(row: RawTransaction, index: nat, currency: Option<string>,
                    date: Result<string, ParseError>, amount: Result<Reading, ParseError>)
    : (r: Result<NormalizedTransaction, ParseError>)
    ensures r.Success? <==> date.Success? && amount.Success?
    ensures date.Failure? ==> r == Failure(date.error)
    ensures date.Success? && amount.Failure? ==> r == Failure(amount.error)
    ensures r.Success? ==>
      && r.value.date == date.value
      && r.value.amount == amount.value.amount
      && r.value.description == Describe(row.description, index)
      && r.value.currency == ToUpper(currency.GetOr("USD"))
      && r.value.category == Categorize(row.category)
  {
    match date
    case Failure(e) => Failure(e)
    case Success(d) =>
      match amount
      case Failure(e) => Failure(e)
      case Success(reading) =>
        Success(NormalizedTransaction(
          d,
          Describe(row.description, index),
          reading.amount,
          ToUpper(currency.GetOr("USD")),
          ExplicitType(row.kind).GetOr(reading.kind),
          Categorize(row.category)))
  }

  /** An explicit type overrides the sign; without one the sign decides. */
  lemma TypeOverride(row: RawTransaction, index: nat, currency: Option<string>,
                     d: string, reading: Reading)
    ensures var r := BuildRow(row, index, currency, Success(d), Success(reading));
      && r.Success?
      && (ToLower(Trim(row.kind.GetOr(""))) == "credit" && row.kind.Some? ==> r.value.kind == Credit)
      && (ToLower(Trim(row.kind.GetOr(""))) == "debit" && row.kind.Some? ==> r.value.kind == Debit)
      && (ExplicitType(row.kind).None? ==> r.value.kind == reading.kind)
  {
  }

  /** Row i of a list, normalised. A missing date fails as soon as it is trimmed; a missing
      amount is read as the text "undefined", which is no number. */
  function Row(rows: seq<RawTransaction>, i: nat, currency: Option<string>,
               date: string -> Result<string, ParseError>,
               amount: string -> Result<Reading, ParseError>): Result<NormalizedTransaction, ParseError>
    requires i < |rows|
  {
    var d := if rows[i].date.None? then Failure(UndefinedDate) else date(rows[i].date.value);
    BuildRow(rows[i], i, currency, d, amount(rows[i].amount.GetOr("undefined")))
  }

  /** A row without a date column fails with the TypeError of trimming it, whatever the
      parser's normalisers, so the whole list fails no later than that row. */
  lemma MissingDate(rows: seq<RawTransaction>, i: nat, currency: Option<string>,
                    date: string -> Result<string, ParseError>,
                    amount: string -> Result<Reading, ParseError>)
    requires i < |rows| && rows[i].date.None?
    ensures Row(rows, i, currency, date, amount) == Failure(UndefinedDate)
    ensures var r := NormalizeRows(rows, currency, date, amount);
      r.Failure? && r.error.row <= i + 1
  {
  }

  /** A map over the positions start .. n - 1 in which the first item that fails aborts the
      whole list, reporting its 1-based position. */
  function CollectFrom<T>(n: nat, start: nat, item: nat -> Result<T, ParseError>)
    : (r: Result<seq<T>, RowError>)
    requires start <= n
    ensures r.Success? <==> forall i :: start <= i < n ==> item(i).Success?
    ensures r.Success? ==> |r.value| == n - start
    ensures r.Success? ==> forall i :: start <= i < n ==> item(i) == Success(r.value[i - start])
    ensures r.Failure? ==>
      && start < r.error.row <= n
      && item(r.error.row - 1) == Failure(r.error.cause)
      && forall i :: start <= i < r.error.row - 1 ==> item(i).Success?
    decreases n - start
  {
    if start == n then Success([])
    else
      match item(start)
      case Failure(e) => Failure(RowError(start + 1, e))
      case Success(t) =>
        match CollectFrom(n, start + 1, item)
        case Failure(e) => Failure(e)
        case Success(ts) =>
          var all := [t] + ts;
          assert forall i :: start <= i < n ==> item(i) == Success(all[i - start]) by {
            forall i | start < i < n
              ensures item(i) == Success(all[i - start])
            {
              assert all[i - start] == ts[i - (start + 1)];
            }
          }
          Success(all)
  }

  /** normalizeTransactions: every row normalised, in order, or the first failing row's error. */
  function NormalizeRows(rows: seq<RawTransaction>, currency: Option<string>,
                         date: string -> Result<string, ParseError>,
                         amount: string -> Result<Reading, ParseError>)
    : (r: Result<seq<NormalizedTransaction>, RowError>)
    ensures r.Success? <==> forall i :: 0 <= i < |rows| ==> Row(rows, i, currency, date, amount).Success?
    ensures r.Success? ==> |r.value| == |rows|
    ensures r.Success? ==> forall i :: 0 <= i < |rows| ==>
      Row(rows, i, currency, date, amount) == Success(r.value[i])
    ensures r.Failure? ==>
      && 1 <= r.error.row <= |rows|
      && Row(rows, r.error.row - 1, currency, date, amount) == Failure(r.error.cause)
      && forall i :: 0 <= i < r.error.row - 1 ==> Row(rows, i, currency, date, amount).Success?
  {
    var item := (i: nat) =>
      if i < |rows| then Row(rows, i, currency, date, amount) else Failure(CannotParseDate(""));
    assert forall i :: 0 <= i < |rows| ==> item(i) == Row(rows, i, currency, date, amount);
    CollectFrom(|rows|, 0, item)
  }

  /** Appending rows to a list that normalises keeps its transactions as a prefix. */
  lemma NormalizeRowsAppend(rows: seq<RawTransaction>, more: seq<RawTransaction>,
                            currency: Option<string>,
                            date: string -> Result<string, ParseError>,
                            amount: string -> Result<Reading, ParseError>)
    requires NormalizeRows(rows + more, currency, date, amount).Success?
    ensures NormalizeRows(rows, currency, date, amount).Success?
    ensures NormalizeRows(rows, currency, date, amount).value
         == NormalizeRows(rows + more, currency, date, amount).value[..|rows|]
  {
    var all := NormalizeRows(rows + more, currency, date, amount).value;
    forall i | 0 <= i < |rows|
      ensures Row(rows, i, currency, date, amount) == Success(all[i])
    {
      assert Row(rows, i, currency, date, amount) == Row(rows + more, i, currency, date, amount);
    }
  }
}
