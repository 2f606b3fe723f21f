/**
 * The customer's policies chart: for each policy on the first page of the
 * customer's policies, how many installments have been paid and the
 * cumulative amount after each of them. Fetching the page is a network call
 * and is not modelled; the chart is a function of the policies received.
 */
module PoliciesGraph {
  import opened Common
  import opened Entities

  /**
   * The policy fields the chart reads, as JSON values: a missing interval or
   * a missing amount paid is None.
   */
  datatype GraphPolicy = GraphPolicy(
    paymentInterval: Option<string>,
    policyTerm: int,
    totalInvestmentAmount: real,
    totalAmountPaid: Option<real>)

  /** getPaymentIntervalValue: the lower-cased name decides; anything else, missing included, is 1. */
  function PaymentIntervalValue(interval: Option<string>): (m: int)
    ensures m == 1 || m == 2 || m == 4
    ensures m == 2 <==> interval.Some? && ToLower(interval.value) == "half_yearly"
    ensures m == 4 <==> interval.Some? && ToLower(interval.value) == "quarterly"
  {
    if interval.None? then 1
    else
      match ToLower(interval.value)
      case "yearly" => 1
      case "half_yearly" => 2
      case "quarterly" => 4
      case _ => 1
  }

  /** Lower-casing the backend's interval names gives the names the chart looks for. */
  lemma KnownNamesLowerCase(p: PaymentInterval)
    ensures PaymentIntervalValue(Some(IntervalName(p))) == (match p case Yearly => 1 case HalfYearly => 2 case Quarterly => 4)
  {
    var name := IntervalName(p);
    var lower := ToLower(name);
    match p
    case Yearly =>
      assert lower == "yearly";
    case HalfYearly =>
      assert lower == "half_yearly";
    case Quarterly =>
      assert lower == "quarterly";
  }

  function TotalInstallments(p: GraphPolicy): int
  {
    PaymentIntervalValue(p.paymentInterval) * p.policyTerm
  }

  /** The amount of one installment: the exact share of the total, or 0 without installments. */
  function PerInstallment(p: GraphPolicy): (a: real)
    ensures TotalInstallments(p) > 0 ==> a * TotalInstallments(p) as real == p.totalInvestmentAmount
    ensures TotalInstallments(p) <= 0 ==> a == 0.0
  {
    if TotalInstallments(p) > 0 then p.totalInvestmentAmount / TotalInstallments(p) as real else 0.0
  }

  /**
   * installmentsPaid: how many whole installments the amount paid covers, when
   * both it and the installment are positive; 0 otherwise.
   */
  function InstallmentsPaid(p: GraphPolicy): (k: nat)
    ensures k > 0 ==> p.totalAmountPaid.Some? && PerInstallment(p) > 0.0
    ensures p.totalAmountPaid.Some? && p.totalAmountPaid.value > 0.0 && PerInstallment(p) > 0.0 ==>
              k as real * PerInstallment(p) <= p.totalAmountPaid.value < (k + 1) as real * PerInstallment(p)
  {
    var per := PerInstallment(p);
    if p.totalAmountPaid.Some? && p.totalAmountPaid.value > 0.0 && per > 0.0 then
      var q := p.totalAmountPaid.value / per;
      assert q > 0.0;
      var k := q.Floor;
      assert k as real <= q < (k + 1) as real;
      assert q * per == p.totalAmountPaid.value;
      MulMonotone(k as real, q, per);
      MulMonotone(q, (k + 1) as real, per);
      assert (k + 1) as real == k as real + 1.0;
      assert p.totalAmountPaid.value < (k + 1) as real * per;
      k
    else 0
  }

  /** One chart: its labels and the cumulative amounts. */
  datatype Chart = Chart(labels: seq<string>, amounts: seq<real>)

  /** The chart of one policy: max(1, installmentsPaid) points, point i at (i+1) installments. */
  function ChartFor(p: GraphPolicy): (c: Chart)
    ensures |c.labels| == |c.amounts| == Max1(InstallmentsPaid(p))
    ensures forall i :: 0 <= i < |c.amounts| ==> c.amounts[i] == PerInstallment(p) * (i + 1) as real
    ensures forall i :: 0 <= i < |c.labels| ==> c.labels[i] == "Installment " + NatToString(i + 1)
  {
    var n := Max1(InstallmentsPaid(p));
    Chart(seq(n, i requires 0 <= i < n => "Installment " + NatToString(i + 1)),
          seq(n, i requires 0 <= i < n => PerInstallment(p) * (i + 1) as real))
  }

  function Max1(k: nat): (n: nat)
    ensures n >= 1 && n >= k && (n == k || n == 1)
  {
    if k > 1 then k else 1
  }

  /** With a non-negative installment the cumulative series never decreases. */
  lemma SeriesNonDecreasing(p: GraphPolicy, i: nat, j: nat)
    requires PerInstallment(p) >= 0.0
    requires i <= j < |ChartFor(p).amounts|
    ensures ChartFor(p).amounts[i] <= ChartFor(p).amounts[j]
  {
    var per := PerInstallment(p);
    MulMonotone((i + 1) as real, (j + 1) as real, per);
  }

  datatype GraphView = NoDataAvailable | Carousel(charts: seq<Chart>)

  /** An empty list shows the "No Data Available" card; otherwise one chart per policy, in order. */
  function RenderGraph(policies: seq<GraphPolicy>): (v: GraphView)
    ensures v.NoDataAvailable? <==> policies == []
    ensures v.Carousel? ==> |v.charts| == |policies|
                            && forall i :: 0 <= i < |policies| ==> v.charts[i] == ChartFor(policies[i])
  {
    if policies == [] then NoDataAvailable
    else Carousel(seq(|policies|, i requires 0 <= i < |policies| => ChartFor(policies[i])))
  }
}
