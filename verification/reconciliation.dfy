/**
 * How the client's views read what the backend stores. The backend and the
 * client each carry their own table of payment intervals, their own status
 * strings and their own installment arithmetic; the lemmas here state where
 * they agree and where they do not.
 */
module Reconciliation {
  import opened Common
  import opened Entities
  import opened ViewInstallments
  import PolicyService
  import PaymentService
  import TableData
  import PoliciesGraph
  import Mappers
  import TransactionService

  /** The three interval tables agree on the backend's own interval names. */
  lemma IntervalTablesAgreeOnNames(p: PaymentInterval)
    ensures GetInterval(IntervalName(p)) == PolicyService.PaymentsPerYear(p)
    ensures PoliciesGraph.PaymentIntervalValue(Some(IntervalName(p))) == PolicyService.PaymentsPerYear(p)
  {
    PoliciesGraph.KnownNamesLowerCase(p);
  }

  /**
   * An interval text the installment page does not know builds no schedule
   * there, while the chart counts it as one payment a year unless its lower
   * case is a known name.
   */
  lemma UnknownIntervalsDiffer(s: string, total: int, term: int, invested: real, paid: Option<real>)
    requires ParseInterval(s).None?
    requires ToLower(s) != "half_yearly" && ToLower(s) != "quarterly"
    ensures !Builds(PolicyView(total, s, term))
    ensures Schedule(PolicyView(total, s, term), []).None?
    ensures PoliciesGraph.TotalInstallments(PoliciesGraph.GraphPolicy(Some(s), term, invested, paid)) == term
  {
  }

  /**
   * None of the statuses the backend assigns is one the policy table gates
   * on, so Claim, Withdraw and Installment stay enabled for every stored
   * policy, cancelled, claimed and expired ones included.
   */
  lemma BackendStatusesNeverGate(s: PolicyStatus)
    ensures !TableData.ClaimDisabled(PolicyStatusName(s))
    ensures !TableData.WithdrawDisabled(PolicyStatusName(s))
    ensures !TableData.InstallmentDisabled(PolicyStatusName(s))
  {
  }

  /**
   * The backend's stored installment is the truncated share, never above the
   * share the installment page shows, and less than one rupee below it, as
   * long as the number of payments fits in an int.
   */
  lemma StoredInstallmentBelowShownShare(req: PolicyService.PolicyRequest, p: PaymentInterval)
    requires PolicyService.ParseRequestInterval(req.paymentInterval) == Success(p)
    requires 0 <= req.totalInvestmentAmount <= 0x7FFF_FFFF && req.policyTerm > 0
    requires req.policyTerm * PolicyService.PaymentsPerYear(p) <= 0x7FFF_FFFF
    ensures var shown := (req.totalInvestmentAmount as real)
                         / ((req.policyTerm * GetInterval(IntervalName(p))) as real);
            var stored := PolicyService.CalculateInstallmentAmount(req).value as real;
            stored <= shown < stored + 1.0
  {
    IntervalTablesAgreeOnNames(p);
    PolicyService.InstallmentTruncates(req);
    var n := req.policyTerm * PolicyService.PaymentsPerYear(p);
    TruncatedQuotientBelowShare(req.totalInvestmentAmount, n, PolicyService.CalculateInstallmentAmount(req).value);
  }

  /** An integer quotient q with q×n ≤ total < q×n + n lies within one below the exact share. */
  lemma TruncatedQuotientBelowShare(total: int, n: int, q: int)
    requires n > 0 && q * n <= total < q * n + n
    ensures q as real <= (total as real) / (n as real) < q as real + 1.0
  {
    var bigN := n as real;
    CastProduct(q, n);
    CastProduct(q + 1, n);
    ShareBetween(q as real, total as real, bigN);
  }

  lemma CastProduct(a: int, b: int)
    ensures (a * b) as real == a as real * b as real
  {
  }

  lemma ShareBetween(lo: real, total: real, n: real)
    requires n > 0.0 && lo * n <= total < (lo + 1.0) * n
    ensures lo <= total / n < lo + 1.0
  {
    var shown := total / n;
    assert shown * n == total;
    var hi := lo + 1.0;
    if shown < lo {
      MulMonotone(shown, lo, n);
    }
    if shown >= hi {
      MulMonotone(hi, shown, n);
    }
  }

  /** What the installment page receives for one stored transaction, with the date as serialised. */
  function TxViewOf(r: Mappers.TransactionResponse, dateText: string): (v: TxView)
    ensures v.transactionId == r.transactionId && v.amount == r.amount && v.status == r.status
  {
    TxView(r.transactionId, dateText, r.amount, r.status)
  }

  /** The policy's feed as the installment page receives it. */
  function FeedViews(ledger: seq<Transaction>, policyId: string, dateText: Instant -> string): (vs: seq<TxView>)
    ensures |vs| == |TransactionService.ForPolicy(ledger, policyId)|
    ensures forall i :: 0 <= i < |vs| ==> vs[i].status == TransactionService.ForPolicy(ledger, policyId)[i].status
  {
    var rs := TransactionService.MapResponses(TransactionService.ForPolicy(ledger, policyId));
    seq(|rs|, i requires 0 <= i < |rs| => TxViewOf(rs[i], dateText(rs[i].date)))
  }

  /**
   * When every stored transaction of the policy is a payment the backend
   * recorded ("SUCCESSFUL"), the schedule pairs them with installments
   * 1..k, shows none of them a receipt (the table looks for "succeeded"), and
   * enables exactly one Payment button, on installment k+1, or none once all
   * N slots are taken.
   */
  lemma RecordedPaymentsOnSchedule(p: PolicyView, ledger: seq<Transaction>, policyId: string,
                                   dateText: Instant -> string)
    requires Builds(p)
    requires forall t :: t in TransactionService.ForPolicy(ledger, policyId) ==> t.status == PaymentService.Successful
    ensures var txs := FeedViews(ledger, policyId, dateText);
            var rows := Schedule(p, txs).value;
            FirstPending(rows) == (if |txs| < |rows| then Some(|txs| + 1) else None)
            && forall k :: 0 <= k < |rows| ==>
                 TableData.ActionFor(rows[k], FirstPending(rows))
                 == if k == |txs| then TableData.PayEnabled(rows[k].installmentAmount) else TableData.PayDisabled
  {
    var feed := TransactionService.ForPolicy(ledger, policyId);
    var txs := FeedViews(ledger, policyId, dateText);
    assert forall j :: 0 <= j < |txs| ==> txs[j].status == feed[j].status && feed[j] in feed;
    NextPendingAfterSettledPrefix(p, txs);
    ScheduleShape(p, txs);
  }

  /**
   * Every payment the backend records moves the page's payable installment
   * one slot on, until the schedule is full.
   */
  lemma PaymentAdvancesPayableInstallment(p: PolicyView, ledger: seq<Transaction>, t: Transaction,
                                          dateText: Instant -> string)
    requires Builds(p)
    requires t.status == PaymentService.Successful
    requires forall u :: u in TransactionService.ForPolicy(ledger, t.policyId) ==> u.status == PaymentService.Successful
    ensures var before := FirstPending(Schedule(p, FeedViews(ledger, t.policyId, dateText)).value);
            var after := FirstPending(Schedule(p, FeedViews(ledger + [t], t.policyId, dateText)).value);
            (before.Some? && before.value < InstallmentCount(p) ==> after == Some(before.value + 1))
            && (before.None? ==> after.None?)
  {
    var id := t.policyId;
    TransactionService.ForPolicyAppend(ledger, t, id);
    assert TransactionService.ForPolicy(ledger + [t], id) == TransactionService.ForPolicy(ledger, id) + [t];
    RecordedPaymentsOnSchedule(p, ledger, id, dateText);
    RecordedPaymentsOnSchedule(p, ledger + [t], id, dateText);
    ScheduleShape(p, FeedViews(ledger, id, dateText));
    ScheduleShape(p, FeedViews(ledger + [t], id, dateText));
  }

  /** What the chart reads from a policy response: there is no amount paid in it. */
  function GraphInputOf(r: Mappers.PolicyResponse): (g: PoliciesGraph.GraphPolicy)
    ensures g.totalAmountPaid.None?
    ensures g.policyTerm == r.policyTerm && g.totalInvestmentAmount == r.totalInvestmentAmount as real
  {
    PoliciesGraph.GraphPolicy(Some(IntervalName(r.paymentInterval)), r.policyTerm,
                              r.totalInvestmentAmount as real, None)
  }

  /**
   * The policy response carries no totalAmountPaid, so the chart of any
   * served policy counts no installment paid and has a single point, however
   * much was paid.
   */
  lemma ChartIgnoresPayments(id: string, policy: Policy)
    ensures PoliciesGraph.InstallmentsPaid(GraphInputOf(Mappers.PolicyToResponse(id, policy))) == 0
    ensures |PoliciesGraph.ChartFor(GraphInputOf(Mappers.PolicyToResponse(id, policy))).amounts| == 1
  {
  }
}
