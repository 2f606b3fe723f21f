/**
 * The customer's installment page. From the policy and the policy's
 * transaction list it builds a schedule of policyTerm x paymentsPerYear equal
 * installments, pairs installment i with the i-th transaction by position
 * (whatever that transaction's status), and marks the first installment whose
 * status is "PENDING" as the one that can be paid next.
 */
module ViewInstallments {
  import opened Common
  import opened Entities

  /** The policy fields the page reads from the policy response. */
  datatype PolicyView = PolicyView(totalInvestmentAmount: int, paymentInterval: string, policyTerm: int)

  /** One element of the transaction list the page receives. */
  datatype TxView = TxView(transactionId: string, date: string, amount: real, status: string)

  /** The transaction-amount cell: the amount, or "N/A". */
  datatype AmountCell = Amount(value: real) | AmountNotAvailable

  /**
   * One schedule row. `installmentAmount` is what toFixed(2) shows, held as a
   * whole number of hundredths.
   */
  datatype InstallmentRow = InstallmentRow(
    installmentId: nat,
    installmentAmount: int,
    transactionId: string,
    transactionDate: string,
    transactionAmount: AmountCell,
    transactionStatus: string)

  const NotAvailable: string := "N/A"
  const Pending: string := "PENDING"

  /** getInterval: payments per year for the interval's name, 0 for any other text. */
  function GetInterval(interval: string): (m: int)
    ensures m in {0, 1, 2, 4}
    ensures m == 0 <==> ParseInterval(interval).None?
  {
    match interval
    case "QUARTERLY" => 4
    case "HALF_YEARLY" => 2
    case "YEARLY" => 1
    case _ => 0
  }

  /** JavaScript's `s || fallback` on a string: the empty string is falsy. */
  function OrElse(s: string, fallback: string): (r: string)
    ensures r == s || r == fallback
    ensures r == "" ==> fallback == ""
  {
    if s != "" then s else fallback
  }

  /**
   * Number.prototype.toFixed(2) as hundredths: the integer nearest to x*100,
   * with ties taken away from zero (toFixed rounds the magnitude).
   */
  function ToFixed2(x: real): (cents: int)
    ensures x >= 0.0 ==> cents as real - 0.5 <= x * 100.0 < cents as real + 0.5
    ensures x < 0.0 ==> cents as real - 0.5 < x * 100.0 <= cents as real + 0.5
  {
    if x < 0.0 then -((-x * 100.0 + 0.5).Floor) else (x * 100.0 + 0.5).Floor
  }

  /** totalInstallments = policyTerm x intervalMultiplier. */
  function InstallmentCount(p: PolicyView): int
  {
    p.policyTerm * GetInterval(p.paymentInterval)
  }

  /**
   * The guard of generateInstallments: a truthy installment amount, a positive
   * multiplier and a positive term.
   */
  predicate Builds(p: PolicyView)
  {
    GetInterval(p.paymentInterval) > 0 && p.policyTerm > 0
    && (p.totalInvestmentAmount as real) / (InstallmentCount(p) as real) != 0.0
  }

  /** The amount every row shows: the exact share of the total, to two decimals. */
  function InstallmentShare(p: PolicyView): int
    requires Builds(p)
  {
    ToFixed2((p.totalInvestmentAmount as real) / (InstallmentCount(p) as real))
  }

  /** Row i (1-based), paired with the transaction at position i-1 when there is one. */
  function RowAt(i: nat, cents: int, txs: seq<TxView>): InstallmentRow
    requires i >= 1
  {
    if i - 1 < |txs| then
      var t := txs[i - 1];
      InstallmentRow(i, cents, OrElse(t.transactionId, NotAvailable), OrElse(t.date, NotAvailable),
                     if t.amount != 0.0 then Amount(t.amount) else AmountNotAvailable,
                     OrElse(t.status, Pending))
    else
      InstallmentRow(i, cents, NotAvailable, NotAvailable, AmountNotAvailable, Pending)
  }

  /** The schedule the page shows, or None when the guard fails and nothing is built. */
  function Schedule(p: PolicyView, txs: seq<TxView>): Option<seq<InstallmentRow>>
  {
    if Builds(p) then
      var n := InstallmentCount(p);
      var cents := InstallmentShare(p);
      Some(seq(n, k requires 0 <= k < n => RowAt(k + 1, cents, txs)))
    else
      None
  }

  /** The id of the first row whose status is exactly "PENDING" (Array.prototype.find). */
  function FirstPending(rows: seq<InstallmentRow>): (r: Option<nat>)
    ensures r.None? ==> forall k :: 0 <= k < |rows| ==> rows[k].transactionStatus != Pending
    ensures r.Some? ==> exists j :: 0 <= j < |rows| && rows[j].installmentId == r.value
                                 && rows[j].transactionStatus == Pending
                                 && forall k :: 0 <= k < j ==> rows[k].transactionStatus != Pending
  {
    if rows == [] then None
    else if rows[0].transactionStatus == Pending then Some(rows[0].installmentId)
    else
      var rest := FirstPending(rows[1..]);
      if rest.Some? then
        ghost var j :| 0 <= j < |rows[1..]| && rows[1..][j].installmentId == rest.value
                        && rows[1..][j].transactionStatus == Pending
                        && forall k :: 0 <= k < j ==> rows[1..][k].transactionStatus != Pending;
        assert rows[j + 1].installmentId == rest.value;
        assert forall k :: 0 <= k < j + 1 ==> rows[k].transactionStatus != Pending by {
          forall k | 0 <= k < j + 1
            ensures rows[k].transactionStatus != Pending
          {
            if k > 0 {
              assert rows[k] == rows[1..][k - 1];
            }
          }
        }
        rest
      else
        assert forall k :: 1 <= k < |rows| ==> rows[k] == rows[1..][k - 1];
        rest
  }

  /** The loop of generateInstallments: push rows 1..N in order. */
  method BuildInstallments(p: PolicyView, txs: seq<TxView>) returns (r: Option<seq<InstallmentRow>>)
    ensures r == Schedule(p, txs)
  {
    var multiplier := GetInterval(p.paymentInterval);
    if !(multiplier > 0 && p.policyTerm > 0) {
      return None;
    }
    var amount := (p.totalInvestmentAmount as real) / ((p.policyTerm * multiplier) as real);
    if amount == 0.0 {
      return None;
    }
    var total := p.policyTerm * multiplier;
    var cents := ToFixed2(amount);
    var rows: seq<InstallmentRow> := [];
    var i := 1;
    while i <= total
      invariant 1 <= i <= total + 1
      invariant |rows| == i - 1
      invariant forall k :: 0 <= k < i - 1 ==> rows[k] == RowAt(k + 1, cents, txs)
    {
      var row: InstallmentRow;
      if i - 1 < |txs| {
        var t := txs[i - 1];
        row := InstallmentRow(i, cents, OrElse(t.transactionId, NotAvailable), OrElse(t.date, NotAvailable),
                              if t.amount != 0.0 then Amount(t.amount) else AmountNotAvailable,
                              OrElse(t.status, Pending));
      } else {
        row := InstallmentRow(i, cents, NotAvailable, NotAvailable, AmountNotAvailable, Pending);
      }
      rows := rows + [row];
      i := i + 1;
    }
    assert rows == seq(total, k requires 0 <= k < total => RowAt(k + 1, cents, txs));
    r := Some(rows);
  }

  /** newInstallments.find(status === "PENDING"), returning the row's id or null. */
  method FindNextPending(rows: seq<InstallmentRow>) returns (r: Option<nat>)
    ensures r == FirstPending(rows)
  {
    var k := 0;
    while k < |rows|
      invariant 0 <= k <= |rows|
      invariant FirstPending(rows) == FirstPending(rows[k..])
    {
      if rows[k].transactionStatus == Pending {
        return Some(rows[k].installmentId);
      }
      assert rows[k..][1..] == rows[k + 1..];
      k := k + 1;
    }
    r := None;
  }

  /** The page state that generateInstallments writes. */
  class InstallmentTable {
    var installmentData: seq<InstallmentRow>
    var nextPendingInstallmentId: Option<nat>

    constructor ()
      ensures installmentData == [] && nextPendingInstallmentId == None
    {
      installmentData := [];
      nextPendingInstallmentId := None;
    }

    /**
     * generateInstallments: when the guard holds, replace the rows and the next
     * payable id; otherwise log and leave the page state as it was.
     */
    method GenerateInstallments(p: PolicyView, txs: seq<TxView>)
      modifies this
      ensures Schedule(p, txs).Some? ==>
                installmentData == Schedule(p, txs).value
                && nextPendingInstallmentId == FirstPending(installmentData)
      ensures Schedule(p, txs).None? ==>
                installmentData == old(installmentData)
                && nextPendingInstallmentId == old(nextPendingInstallmentId)
    {
      var built := BuildInstallments(p, txs);
      if built.Some? {
        installmentData := built.value;
        nextPendingInstallmentId := FindNextPending(built.value);
      }
    }
  }

  /** The guard holds exactly when the interval is known, the term positive and the total non-zero. */
  lemma BuildsIffKnownIntervalPositiveTermNonZeroTotal(p: PolicyView)
    ensures Builds(p) <==> (ParseInterval(p.paymentInterval).Some? && p.policyTerm > 0
                            && p.totalInvestmentAmount != 0)
  {
    if GetInterval(p.paymentInterval) > 0 && p.policyTerm > 0 {
      var n := InstallmentCount(p) as real;
      assert n > 0.0;
      if p.totalInvestmentAmount != 0 {
        assert (p.totalInvestmentAmount as real) / n * n == p.totalInvestmentAmount as real;
      }
    }
  }

  /**
   * The schedule has one row per installment, numbered 1..N in order, all with
   * the same amount, and row i carries the i-th transaction's fields or the
   * "N/A"/"PENDING" defaults.
   */
  lemma ScheduleShape(p: PolicyView, txs: seq<TxView>)
    requires Builds(p)
    ensures var rows := Schedule(p, txs).value;
      |rows| == p.policyTerm * GetInterval(p.paymentInterval)
      && (forall k :: 0 <= k < |rows| ==> rows[k].installmentId == k + 1)
      && (forall k :: 0 <= k < |rows| ==> rows[k].installmentAmount == InstallmentShare(p))
      && (forall k :: 0 <= k < |rows| && k < |txs| ==>
            rows[k].transactionStatus == OrElse(txs[k].status, Pending)
            && rows[k].transactionId == OrElse(txs[k].transactionId, NotAvailable))
      && (forall k :: 0 <= k < |rows| && k >= |txs| ==>
            rows[k].transactionStatus == Pending && rows[k].transactionId == NotAvailable
            && rows[k].transactionDate == NotAvailable && rows[k].transactionAmount == AmountNotAvailable)
  {
  }

  /** Transactions after the N-th do not show anywhere in the schedule. */
  lemma ExtraTransactionsIgnored(p: PolicyView, txs: seq<TxView>)
    requires Builds(p) && |txs| >= InstallmentCount(p)
    ensures Schedule(p, txs) == Schedule(p, txs[..InstallmentCount(p)])
  {
    var n := InstallmentCount(p);
    var a := Schedule(p, txs).value;
    var b := Schedule(p, txs[..n]).value;
    assert |a| == |b|;
    forall k | 0 <= k < n
      ensures a[k] == b[k]
    {
      assert txs[..n][k] == txs[k];
    }
    assert a == b;
  }

  /** Appending transactions never changes the rows already paired with earlier ones. */
  lemma AppendingTransactionsKeepsEarlierRows(p: PolicyView, txs: seq<TxView>, more: seq<TxView>, k: nat)
    requires Builds(p) && k < |txs| && k < InstallmentCount(p)
    ensures Schedule(p, txs + more).value[k] == Schedule(p, txs).value[k]
  {
    assert (txs + more)[k] == txs[k];
  }

  /**
   * When the first k transactions all carry a non-empty status other than
   * "PENDING" and there are no more, installments 1..min(k, N) are settled and
   * the next payable installment is k+1, or none once every slot is taken.
   */
  lemma {:induction false} NextPendingAfterSettledPrefix(p: PolicyView, txs: seq<TxView>)
    requires Builds(p)
    requires forall j :: 0 <= j < |txs| ==> txs[j].status != "" && txs[j].status != Pending
    ensures var rows := Schedule(p, txs).value;
      (forall j :: 0 <= j < |rows| && j < |txs| ==> rows[j].transactionStatus != Pending)
      && FirstPending(rows) == (if |txs| < |rows| then Some(|txs| + 1) else None)
  {
    var rows := Schedule(p, txs).value;
    assert forall j :: 0 <= j < |rows| && j < |txs| ==> rows[j].transactionStatus == txs[j].status;
    var r := FirstPending(rows);
    if |txs| < |rows| {
      assert rows[|txs|].transactionStatus == Pending;
      if r.None? {
        assert false;
      }
      var j :| 0 <= j < |rows| && rows[j].installmentId == r.value && rows[j].transactionStatus == Pending
               && forall k :: 0 <= k < j ==> rows[k].transactionStatus != Pending;
      assert j == |txs|;
    } else {
      assert forall j :: 0 <= j < |rows| ==> rows[j].transactionStatus != Pending;
    }
  }
}
