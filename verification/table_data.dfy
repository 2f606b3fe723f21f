/**
 * The client's TableData component: the generic table, the policy actions
 * (Claim, Withdraw, Installment) and the installment actions (Receipt or
 * Payment). It is a render function of its props; the model returns what is
 * rendered as data.
 */
module TableData {
  import opened Common
  import opened Js
  import opened ViewInstallments

  type Row = seq<(string, JsValue)>

  /** A cell: objects (not null) as JSON text, booleans as YES/NO, anything else as it is. */
  function RenderCell(v: JsValue): (r: JsValue)
    ensures !r.Obj? && !r.Bool?
    ensures v.Obj? ==> r == Str(v.json)
    ensures v.Bool? ==> r == Str(if v.b then "YES" else "NO")
    ensures !v.Obj? && !v.Bool? ==> r == v
  {
    match v
    case Obj(_, json) => Str(json)
    case Bool(b) => if b then Str("YES") else Str("NO")
    case _ => v
  }

  /** The action columns after the data columns, in their order. */
  function ActionColumns(isCustomerTable: bool, isViewPolicyTable: bool, isViewInstallmentTable: bool)
    : (cols: seq<string>)
    ensures "Payment" in cols <==> isViewInstallmentTable
    ensures "Claim" in cols <==> isViewPolicyTable
    ensures ("Edit" in cols) == ("Status" in cols) == (!isViewPolicyTable && !isViewInstallmentTable)
  {
    (if !isViewPolicyTable && !isViewInstallmentTable then ["Edit", "Status"] else [])
    + (if isViewPolicyTable then ["Claim", "Withdraw", "View Installment"] else [])
    + (if isViewInstallmentTable then ["Payment"] else [])
    + (if isCustomerTable then ["Verify Documents"] else [])
  }

  datatype Rendered =
    | NoDataAvailable
    | Table(headers: seq<string>, cells: seq<seq<JsValue>>)

  /** The table: the first row's keys as columns, one rendered cell per row and column. */
  function RenderTable(data: Option<seq<Row>>): (r: Rendered)
    ensures r.NoDataAvailable? <==> data.None? || data.value == []
    ensures r.Table? ==>
              r.headers == Keys(data.value[0]) && |r.cells| == |data.value|
              && forall i, j :: 0 <= i < |r.cells| && 0 <= j < |r.headers| ==>
                   |r.cells[i]| == |r.headers| && r.cells[i][j] == RenderCell(Get(data.value[i], r.headers[j]))
  {
    if data.None? || data.value == [] then NoDataAvailable
    else
      var rows := data.value;
      var headers := Keys(rows[0]);
      Table(headers, seq(|rows|, i requires 0 <= i < |rows| =>
                       seq(|headers|, j requires 0 <= j < |headers| => RenderCell(Get(rows[i], headers[j])))))
  }

  // ----- policy actions -----

  /** The Claim button is disabled for a withdrawn, completed or claimed policy. */
  predicate ClaimDisabled(status: string)
  {
    status == "APPROVED_WITHDRAWAL" || status == "COMPLETED_TERM" || status == "APPROVED_CLAIM"
  }

  /** The Withdraw button: disabled for a withdrawn or completed policy. */
  predicate WithdrawDisabled(status: string)
  {
    status == "APPROVED_WITHDRAWAL" || status == "COMPLETED_TERM"
  }

  /** The Installment button: the same test as Withdraw. */
  predicate InstallmentDisabled(status: string)
  {
    status == "APPROVED_WITHDRAWAL" || status == "COMPLETED_TERM"
  }

  /**
   * Claim is disabled for more statuses than the other two: a claimed policy
   * can still be withdrawn and paid.
   */
  lemma ClaimedPolicyStillPayable()
    ensures ClaimDisabled("APPROVED_CLAIM")
    ensures !WithdrawDisabled("APPROVED_CLAIM") && !InstallmentDisabled("APPROVED_CLAIM")
    ensures forall s :: WithdrawDisabled(s) ==> ClaimDisabled(s)
    ensures forall s :: WithdrawDisabled(s) <==> InstallmentDisabled(s)
  {
  }

  // ----- installment actions -----

  datatype InstallmentAction =
    | Receipt(transactionId: string)
    | PayEnabled(amount: int)
    | PayDisabled

  const SucceededStatus: string := "succeeded"

  /**
   * A settled row (status exactly 'succeeded') shows its receipt; otherwise
   * the row whose id is the next pending one may be paid, and the rest are
   * disabled.
   */
  function ActionFor(row: InstallmentRow, nextPending: Option<nat>): (a: InstallmentAction)
    ensures a.Receipt? <==> row.transactionStatus == SucceededStatus
    ensures a.Receipt? ==> a.transactionId == row.transactionId
    ensures a.PayEnabled? <==> row.transactionStatus != SucceededStatus && nextPending == Some(row.installmentId)
    ensures a.PayEnabled? ==> a.amount == row.installmentAmount
  {
    if row.transactionStatus == SucceededStatus then Receipt(row.transactionId)
    else if nextPending == Some(row.installmentId) then PayEnabled(row.installmentAmount)
    else PayDisabled
  }

  predicate DistinctIds(rows: seq<InstallmentRow>)
  {
    forall i, j :: 0 <= i < j < |rows| ==> rows[i].installmentId != rows[j].installmentId
  }

  /** With distinct installment ids a table has at most one enabled Payment button. */
  lemma AtMostOnePayable(rows: seq<InstallmentRow>, nextPending: Option<nat>)
    requires DistinctIds(rows)
    ensures forall i, j :: 0 <= i < |rows| && 0 <= j < |rows|
                           && ActionFor(rows[i], nextPending).PayEnabled?
                           && ActionFor(rows[j], nextPending).PayEnabled?
                           ==> i == j
  {
  }

  /** The rows of a built schedule have distinct ids, so its table has at most one Payment button. */
  lemma ScheduleHasAtMostOnePayable(p: PolicyView, txs: seq<TxView>)
    requires Schedule(p, txs).Some?
    ensures DistinctIds(Schedule(p, txs).value)
    ensures forall i, j :: 0 <= i < |Schedule(p, txs).value| && 0 <= j < |Schedule(p, txs).value|
                           && ActionFor(Schedule(p, txs).value[i], FirstPending(Schedule(p, txs).value)).PayEnabled?
                           && ActionFor(Schedule(p, txs).value[j], FirstPending(Schedule(p, txs).value)).PayEnabled?
                           ==> i == j
  {
    var rows := Schedule(p, txs).value;
    ScheduleShape(p, txs);
    assert DistinctIds(rows);
    AtMostOnePayable(rows, FirstPending(rows));
  }
}
