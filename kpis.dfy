/** The dashboard figures: filter/reduce sums over the user's transactions and invoices,
    computed on exact reals. The queries that fetch the two lists are not part of this model;
    a list the query could not return (a null result) is None. */
module Kpis {
  import opened Wrappers

  /** A fetched transaction row: amount, type and currency columns. */
  datatype TxRow = TxRow(amount: real, kind: string, currency: Option<string>)

  /** A fetched invoice row: amount, paid_amount and status columns. */
  datatype InvoiceRow = InvoiceRow(amount: real, paidAmount: real, status: string)

  /** The figures the dashboard answers with. */
  datatype Figures = Figures(cashPosition: real, totalLeakage: real, totalRecovered: real,
                             taxReserve: real, currency: string, transactionCount: nat)

  // ---------------------------------------------------------------- filter and reduce

  /** The transactions of one type, in their fetched order. */
  function OfKind(txs: seq<TxRow>, kind: string): (r: seq<TxRow>)
    ensures |r| <= |txs|
    ensures forall t :: t in r <==> t in txs && t.kind == kind
  {
    if txs == [] then []
    else
      var rest := OfKind(txs[..|txs| - 1], kind);
      var last := txs[|txs| - 1];
      assert txs == txs[..|txs| - 1] + [last];
      rest + (if last.kind == kind then [last] else [])
  }

  /** Filtering a list split in two filters each part and keeps them in order, so each row
      of the type is kept once per occurrence, where it stood. */
  lemma {:induction false} OfKindAppend(a: seq<TxRow>, b: seq<TxRow>, kind: string)
    ensures OfKind(a + b, kind) == OfKind(a, kind) + OfKind(b, kind)
    decreases |b|
  {
    if b == [] {
      assert a + b == a;
    } else {
      var init, last := b[..|b| - 1], b[|b| - 1];
      var x := if last.kind == kind then [last] else [];
      calc {
        OfKind(a + b, kind);
        { assert a + b == (a + init) + [last]; OfKindSnoc(a + init, last, kind); }
        OfKind(a + init, kind) + x;
        { OfKindAppend(a, init, kind); }
        (OfKind(a, kind) + OfKind(init, kind)) + x;
        OfKind(a, kind) + (OfKind(init, kind) + x);
        { assert b == init + [last]; OfKindSnoc(init, last, kind); }
        OfKind(a, kind) + OfKind(b, kind);
      }
    }
  }

  /** Each row of the type is kept as many times as it occurs; rows of other types never. */
  lemma {:induction false} OfKindCounts(txs: seq<TxRow>, kind: string)
    ensures forall t :: multiset(OfKind(txs, kind))[t] == if t.kind == kind then multiset(txs)[t] else 0
  {
    if txs != [] {
      var init, last := txs[..|txs| - 1], txs[|txs| - 1];
      OfKindCounts(init, kind);
      assert txs == init + [last];
      OfKindSnoc(init, last, kind);
    }
  }

  lemma OfKindSnoc(txs: seq<TxRow>, t: TxRow, kind: string)
    ensures OfKind(txs + [t], kind) == OfKind(txs, kind) + (if t.kind == kind then [t] else [])
  {
    assert (txs + [t])[..|txs|] == txs;
  }

  /** The sum of the amounts, added from the left starting at 0. */
  function SumAmounts(txs: seq<TxRow>): real
  {
    if txs == [] then 0.0 else SumAmounts(txs[..|txs| - 1]) + txs[|txs| - 1].amount
  }

  /** An invoice still owed: status "unpaid" or "overdue". */
  predicate Outstanding(inv: InvoiceRow)
  {
    inv.status == "unpaid" || inv.status == "overdue"
  }

  /** The unpaid and overdue invoices, in their fetched order. */
  function OutstandingOnly(invs: seq<InvoiceRow>): (r: seq<InvoiceRow>)
    ensures |r| <= |invs|
    ensures forall inv :: inv in r <==> inv in invs && Outstanding(inv)
  {
    if invs == [] then []
    else
      var rest := OutstandingOnly(invs[..|invs| - 1]);
      var last := invs[|invs| - 1];
      assert invs == invs[..|invs| - 1] + [last];
      rest + (if Outstanding(last) then [last] else [])
  }

  /** Filtering an invoice list split in two filters each part and keeps them in order. */
  lemma {:induction false} OutstandingAppend(a: seq<InvoiceRow>, b: seq<InvoiceRow>)
    ensures OutstandingOnly(a + b) == OutstandingOnly(a) + OutstandingOnly(b)
    decreases |b|
  {
    if b == [] {
      assert a + b == a;
    } else {
      var init, last := b[..|b| - 1], b[|b| - 1];
      var x := if Outstanding(last) then [last] else [];
      calc {
        OutstandingOnly(a + b);
        { assert a + b == (a + init) + [last]; OutstandingSnoc(a + init, last); }
        OutstandingOnly(a + init) + x;
        { OutstandingAppend(a, init); }
        (OutstandingOnly(a) + OutstandingOnly(init)) + x;
        OutstandingOnly(a) + (OutstandingOnly(init) + x);
        { assert b == init + [last]; OutstandingSnoc(init, last); }
        OutstandingOnly(a) + OutstandingOnly(b);
      }
    }
  }

  /** Each unpaid or overdue invoice is kept as many times as it occurs; others never. */
  lemma {:induction false} OutstandingCounts(invs: seq<InvoiceRow>)
    ensures forall inv :: multiset(OutstandingOnly(invs))[inv]
                       == if Outstanding(inv) then multiset(invs)[inv] else 0
  {
    if invs != [] {
      var init, last := invs[..|invs| - 1], invs[|invs| - 1];
      OutstandingCounts(init);
      assert invs == init + [last];
      OutstandingSnoc(init, last);
    }
  }

  lemma OutstandingSnoc(invs: seq<InvoiceRow>, inv: InvoiceRow)
    ensures OutstandingOnly(invs + [inv]) == OutstandingOnly(invs) + (if Outstanding(inv) then [inv] else [])
  {
    assert (invs + [inv])[..|invs|] == invs;
  }

  /** The sum of what is left to pay on each invoice: amount less paid amount. */
  function SumUnpaid(invs: seq<InvoiceRow>): real
  {
    if invs == [] then 0.0
    else SumUnpaid(invs[..|invs| - 1]) + (invs[|invs| - 1].amount - invs[|invs| - 1].paidAmount)
  }

  /** The sum of the paid amounts. */
  function SumPaid(invs: seq<InvoiceRow>): real
  {
    if invs == [] then 0.0 else SumPaid(invs[..|invs| - 1]) + invs[|invs| - 1].paidAmount
  }

  // ---------------------------------------------------------------- the figures

  function TotalCredits(txs: seq<TxRow>): real
  {
    SumAmounts(OfKind(txs, "credit"))
  }

  function TotalDebits(txs: seq<TxRow>): real
  {
    SumAmounts(OfKind(txs, "debit"))
  }

  /** Cash position: total credits minus total debits. */
  function CashPosition(txs: seq<TxRow>): real
  {
    TotalCredits(txs) - TotalDebits(txs)
  }

  /** Total leakage: what is still owed on unpaid and overdue invoices. */
  function TotalLeakage(invs: seq<InvoiceRow>): real
  {
    SumUnpaid(OutstandingOnly(invs))
  }

  /** Total recovered: the paid amounts of every invoice, whatever its status. */
  function TotalRecovered(invs: seq<InvoiceRow>): real
  {
    SumPaid(invs)
  }

  /** Tax reserve: a quarter of a positive net income, otherwise nothing. */
  function TaxReserve(netIncome: real): (r: real)
    ensures r >= 0.0
    ensures netIncome > 0.0 ==> r * 4.0 == netIncome
    ensures netIncome <= 0.0 ==> r == 0.0
    ensures r <= if netIncome > 0.0 then netIncome else 0.0
  {
    if netIncome > 0.0 then netIncome * 0.25 else 0.0
  }

  /** The first transaction's currency, or "USD" when there is none or it is null; a
      currency that is present is kept even when it is empty text. */
  function PrimaryCurrency(txs: seq<TxRow>): string
  {
    if txs != [] && txs[0].currency.Some? then txs[0].currency.value else "USD"
  }

  /** The dashboard answer for the fetched lists; a list the query did not return counts as
      empty. */
  function Compute(transactions: Option<seq<TxRow>>, invoices: Option<seq<InvoiceRow>>): (f: Figures)
    ensures f.transactionCount == |transactions.GetOr([])|
    ensures f.taxReserve >= 0.0
    ensures f.cashPosition > 0.0 ==> f.taxReserve * 4.0 == f.cashPosition
    ensures f.cashPosition <= 0.0 ==> f.taxReserve == 0.0
    ensures f.cashPosition == SignedTotal(transactions.GetOr([]))
    ensures f.totalLeakage == OwedTotal(invoices.GetOr([]))
    ensures f.totalRecovered == SumPaid(invoices.GetOr([]))
    ensures var txs := transactions.GetOr([]);
      && (txs != [] && txs[0].currency.Some? ==> f.currency == txs[0].currency.value)
      && (txs == [] || txs[0].currency.None? ==> f.currency == "USD")
  {
    var txList := transactions.GetOr([]);
    var invList := invoices.GetOr([]);
    CashPositionSigned(txList);
    LeakageOwed(invList);
    var cash := CashPosition(txList);
    Figures(cash, TotalLeakage(invList), TotalRecovered(invList), TaxReserve(cash),
            PrimaryCurrency(txList), |txList|)
  }

  // ---------------------------------------------------------------- one row at a time

  /** What one transaction adds to the cash position: its amount for a credit, minus it for a
      debit, nothing for any other type. */
  function Signed(t: TxRow): real
  {
    if t.kind == "credit" then t.amount else if t.kind == "debit" then -t.amount else 0.0
  }

  /** The cash position as one running sum of signed amounts. */
  function SignedTotal(txs: seq<TxRow>): real
  {
    if txs == [] then 0.0 else SignedTotal(txs[..|txs| - 1]) + Signed(txs[|txs| - 1])
  }

  /** Adding one more row to a reduce adds its amount. */
  lemma SumAmountsStep(txs: seq<TxRow>, t: TxRow)
    ensures SumAmounts(txs + [t]) == SumAmounts(txs) + t.amount
  {
    assert (txs + [t])[..|txs|] == txs;
  }

  /** One more transaction adds its amount to the total of its own type and nothing to the
      others. */
  lemma KindTotalStep(txs: seq<TxRow>, t: TxRow, kind: string)
    ensures SumAmounts(OfKind(txs + [t], kind))
         == SumAmounts(OfKind(txs, kind)) + (if t.kind == kind then t.amount else 0.0)
  {
    var all := txs + [t];
    assert all[..|all| - 1] == txs;
    var before := OfKind(txs, kind);
    if t.kind == kind {
      assert OfKind(all, kind) == before + [t];
      SumAmountsStep(before, t);
    } else {
      assert OfKind(all, kind) == before + [];
      assert before + [] == before;
    }
  }

  /** One more transaction moves the cash position by its signed amount. */
  lemma CashPositionStep(txs: seq<TxRow>, t: TxRow)
    ensures CashPosition(txs + [t]) == CashPosition(txs) + Signed(t)
  {
    KindTotalStep(txs, t, "credit");
    KindTotalStep(txs, t, "debit");
  }

  /** The cash position is the running sum of signed amounts: credits count up, debits count
      down, and rows of any other type contribute nothing. */
  lemma {:induction false} CashPositionSigned(txs: seq<TxRow>)
    ensures CashPosition(txs) == SignedTotal(txs)
  {
    if txs != [] {
      var init := txs[..|txs| - 1];
      CashPositionSigned(init);
      CashPositionStep(init, txs[|txs| - 1]);
      assert init + [txs[|txs| - 1]] == txs;
    }
  }

  /** What one invoice adds to the leakage: its unpaid part when it is unpaid or overdue. */
  function Owed(inv: InvoiceRow): real
  {
    if Outstanding(inv) then inv.amount - inv.paidAmount else 0.0
  }

  /** One more invoice adds its unpaid part to the leakage only when it is unpaid or overdue. */
  lemma LeakageStep(invs: seq<InvoiceRow>, inv: InvoiceRow)
    ensures TotalLeakage(invs + [inv]) == TotalLeakage(invs) + Owed(inv)
  {
    var all := invs + [inv];
    assert all[..|all| - 1] == invs;
    var owed := OutstandingOnly(invs);
    if Outstanding(inv) {
      assert OutstandingOnly(all) == owed + [inv];
      assert (owed + [inv])[..|owed|] == owed;
    } else {
      assert OutstandingOnly(all) == owed + [];
      assert owed + [] == owed;
    }
  }

  /** The leakage as one running sum of what each invoice still owes. */
  function OwedTotal(invs: seq<InvoiceRow>): real
  {
    if invs == [] then 0.0 else OwedTotal(invs[..|invs| - 1]) + Owed(invs[|invs| - 1])
  }

  /** The leakage is the running sum of what each invoice still owes: the unpaid part of an
      unpaid or overdue invoice, nothing for any other. */
  lemma {:induction false} LeakageOwed(invs: seq<InvoiceRow>)
    ensures TotalLeakage(invs) == OwedTotal(invs)
  {
    if invs != [] {
      var init := invs[..|invs| - 1];
      LeakageOwed(init);
      LeakageStep(init, invs[|invs| - 1]);
      assert init + [invs[|invs| - 1]] == invs;
    }
  }

  /** The leakage does not depend on invoices that are paid, partial or of any other status. */
  lemma {:induction false} LeakageIgnoresSettled(invs: seq<InvoiceRow>, settled: seq<InvoiceRow>)
    requires forall k :: 0 <= k < |settled| ==> !Outstanding(settled[k])
    ensures TotalLeakage(invs + settled) == TotalLeakage(invs)
  {
    if settled != [] {
      var init := settled[..|settled| - 1];
      LeakageIgnoresSettled(invs, init);
      assert !Outstanding(settled[|settled| - 1]);
      LeakageStep(invs + init, settled[|settled| - 1]);
      assert (invs + init) + [settled[|settled| - 1]] == invs + settled;
    } else {
      assert invs + settled == invs;
    }
  }

  /** One more invoice adds its paid amount to the recovered total, whatever its status. */
  lemma RecoveredStep(invs: seq<InvoiceRow>, inv: InvoiceRow)
    ensures TotalRecovered(invs + [inv]) == TotalRecovered(invs) + inv.paidAmount
  {
    assert (invs + [inv])[..|invs|] == invs;
  }

  /** The recovered total reads only paid amounts: invoices that differ only in their amount
      or status give the same total. */
  lemma {:induction false} RecoveredIgnoresStatus(invs: seq<InvoiceRow>, others: seq<InvoiceRow>)
    requires |invs| == |others|
    requires forall k :: 0 <= k < |invs| ==> invs[k].paidAmount == others[k].paidAmount
    ensures TotalRecovered(invs) == TotalRecovered(others)
  {
    if invs != [] {
      var n := |invs|;
      RecoveredIgnoresStatus(invs[..n - 1], others[..n - 1]);
    }
  }
}
