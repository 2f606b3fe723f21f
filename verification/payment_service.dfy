/**
 * The backend's PaymentService: the amount quoted for an installment (tax,
 * late penalty, minimum, rounding to paise), the next due date, and the
 * bookkeeping after the card gateway reports a charge.
 *
 * The gateway is not modelled: its answer to the charge request is a
 * parameter. So are the clock (today's date and the current instant) and the
 * fresh transaction id.
 */
module PaymentService {
  import opened Common
  import opened Dates
  import opened Entities
  import opened Store
  import opened AdminService
  import opened PolicyService

  const MinimumAmountInRupees: real := 40.0
  const Succeeded: string := "succeeded"
  const Successful: string := "SUCCESSFUL"

  /** Math.round: the nearest integer, halves rounded up. */
  function JavaRound(x: real): (n: int)
    ensures x - 0.5 < n as real <= x + 0.5
  {
    (x + 0.5).Floor
  }

  /** Math.round is monotone. */
  lemma JavaRoundMonotone(x: real, y: real)
    requires x <= y
    ensures JavaRound(x) <= JavaRound(y)
  {
  }

  // ----- the next due date -----

  /** Months between two installments. */
  function MonthsPerInstallment(p: PaymentInterval): (m: nat)
    ensures m * PaymentsPerYear(p) == 12
  {
    match p
    case Yearly => 12
    case HalfYearly => 6
    case Quarterly => 3
  }

  /**
   * calculateNextPaymentDate: one year, six months or three months on. The
   * stored date is never null (the column is declared not-null), so the
   * missing-date branch cannot be taken.
   */
  function NextPaymentDate(current: Date, interval: PaymentInterval): (r: Date)
    requires ValidDate(current)
    ensures ValidDate(r) && IsAfter(r, current)
    ensures r == PlusMonths(current, MonthsPerInstallment(interval))
  {
    PlusYearsIsTwelveMonths(current, 1);
    PlusMonthsMovesForward(current, MonthsPerInstallment(interval));
    match interval
    case Yearly => PlusYears(current, 1)
    case HalfYearly => PlusMonths(current, 6)
    case Quarterly => PlusMonths(current, 3)
  }

  // ----- the quote -----

  /** The tax percentage in force: the latest setting, or 0.0 from a fresh TaxSetting. */
  function TaxPercentageInForce(taxSettings: seq<TaxSetting>): real
  {
    match GetLastTaxSetting(taxSettings)
    case Some(t) => t
    case None => 0.0
  }

  /** installment + tax + (late ? late penalty : 0), before rounding. */
  function QuoteBeforeRounding(installment: real, taxPercentage: real, late: bool, latePenalty: real): real
  {
    installment + installment * taxPercentage / 100.0 + (if late then installment * latePenalty / 100.0 else 0.0)
  }

  /** Math.round(x * 100.0) / 100.0: the nearest whole number of paise. */
  function RoundToPaise(x: real): (r: real)
    ensures x - 0.005 < r <= x + 0.005
    ensures r * 100.0 == JavaRound(x * 100.0) as real
  {
    JavaRound(x * 100.0) as real / 100.0
  }

  /**
   * calculateTotalAmount: the quote for paying `installment` on `today`.
   * A missing insurance setting is dereferenced only when the payment is late.
   */
  function CalculateTotalAmount(installment: real, policyId: string, policies: map<string, Policy>,
                                taxSettings: seq<TaxSetting>, insuranceSettings: seq<InsuranceSetting>,
                                today: Date): (r: Result<real>)
    ensures policyId !in policies ==> r == Failure(NotFound("Policy not found"))
    ensures policyId in policies ==>
              var late := IsAfter(today, policies[policyId].nextPaymentDate);
              var latePenalty := if insuranceSettings == [] then 0.0 else insuranceSettings[|insuranceSettings| - 1].latePenalty;
              var q := QuoteBeforeRounding(installment, TaxPercentageInForce(taxSettings), late, latePenalty);
              (late && insuranceSettings == [] ==> r == Failure(NullDereference))
              && (!(late && insuranceSettings == []) ==>
                    (r.Success? <==> q >= MinimumAmountInRupees)
                    && (r.Failure? ==> r.error == ApiError("The installment amount is below the minimum allowed"))
                    && (r.Success? ==> r.value == RoundToPaise(q))
                    && (r.Success? ==> q - 0.005 < r.value <= q + 0.005 && r.value >= MinimumAmountInRupees))
  {
    var taxPercentage := TaxPercentageInForce(taxSettings);
    if policyId !in policies then Failure(NotFound("Policy not found"))
    else
      var setting := GetLastInsuranceSetting(insuranceSettings);
      var late := IsAfter(today, policies[policyId].nextPaymentDate);
      if late && setting.None? then Failure(NullDereference)
      else
        var penalty := if late then setting.value.latePenalty else 0.0;
        var total := QuoteBeforeRounding(installment, taxPercentage, late, penalty);
        if total < MinimumAmountInRupees then Failure(ApiError("The installment amount is below the minimum allowed"))
        else
          RoundedStaysAboveMinimum(total);
          Success(RoundToPaise(total))
  }

  /** A quote that passes the minimum still passes it after rounding. */
  lemma RoundedStaysAboveMinimum(q: real)
    requires q >= MinimumAmountInRupees
    ensures RoundToPaise(q) >= MinimumAmountInRupees
  {
    JavaRoundMonotone(MinimumAmountInRupees * 100.0, q * 100.0);
    assert JavaRound(MinimumAmountInRupees * 100.0) == 4000;
  }

  /** With non-negative installment and penalty, paying late never costs less than paying on time. */
  lemma LateQuoteNotLower(installment: real, taxPercentage: real, latePenalty: real)
    requires installment >= 0.0 && latePenalty >= 0.0
    ensures QuoteBeforeRounding(installment, taxPercentage, true, latePenalty)
            >= QuoteBeforeRounding(installment, taxPercentage, false, latePenalty)
  {
    assert installment * latePenalty >= 0.0;
  }

  // ----- the charge and its bookkeeping -----

  datatype PaymentRequest = PaymentRequest(policyAccountId: string, amount: Option<real>, paymentMethodId: string)

  /** The gateway's answer: a charge id and its status. */
  datatype Charge = Charge(id: string, status: string)

  /** The payment-intent parameters sent to the gateway. */
  datatype ChargeRequest = ChargeRequest(amountMinor: int, currency: string, paymentMethod: string, confirm: bool)

  /** The charge request for `amount` rupees: round(amount × 100) paise in "inr". */
  function ChargeRequestFor(amount: real, paymentMethod: string): (c: ChargeRequest)
    ensures c.currency == "inr" && c.confirm && c.paymentMethod == paymentMethod
    ensures amount * 100.0 - 0.5 < c.amountMinor as real <= amount * 100.0 + 0.5
  {
    ChargeRequest(JavaRound(amount * 100.0), "inr", paymentMethod, true)
  }

  /**
   * The policy after a succeeded charge on `today`: one installment more paid,
   * the due date one interval on, and EXPIRED when today is past the end date.
   */
  function Settle(p: Policy, today: Date): (q: Policy)
    requires ValidDate(p.nextPaymentDate)
    ensures q.totalAmountPaid == p.totalAmountPaid + p.installmentAmount as real
    ensures ValidDate(q.nextPaymentDate) && IsAfter(q.nextPaymentDate, p.nextPaymentDate)
    ensures q.status == (if IsAfter(today, p.endDate) then Expired else p.status)
    ensures q.(totalAmountPaid := p.totalAmountPaid, nextPaymentDate := p.nextPaymentDate, status := p.status) == p
  {
    var status := if IsAfter(today, p.endDate) then Expired else p.status;
    p.(status := status,
       totalAmountPaid := p.totalAmountPaid + p.installmentAmount as real,
       nextPaymentDate := NextPaymentDate(p.nextPaymentDate, p.paymentInterval))
  }

  /** The refusals of processPayment before and after the charge, in order. */
  function PaymentRefusal(policies: map<string, Policy>, caller: Caller, req: PaymentRequest, charge: Charge)
    : (r: Option<Error>)
    ensures r.None? <==>
              caller.Some? && req.policyAccountId in policies
              && req.amount.Some? && req.amount.value > 0.0 && charge.status == Succeeded
  {
    if caller.None? then Some(NotFound("User not found"))
    else if req.policyAccountId !in policies then Some(ApiError("Policy not found"))
    else if req.amount.None? || req.amount.value <= 0.0 then Some(ApiError("Invalid payment amount."))
    else if charge.status != Succeeded then Some(ApiError("Payment failed with status: " + charge.status))
    else None
  }

  /**
   * processPayment. `charge` is the gateway's answer to
   * ChargeRequestFor(amount, paymentMethodId). A succeeded charge saves one
   * SUCCESSFUL transaction for the charged amount and settles the policy,
   * which grows by the installment, not by the amount charged.
   */
  method ProcessPayment(db: Db, caller: Caller, req: PaymentRequest, charge: Charge,
                        today: Date, now: Instant, freshTxId: string) returns (r: Result<string>)
    requires db.Valid()
    modifies db`transactions, db`policies
    ensures db.Valid()
    ensures match PaymentRefusal(old(db.policies), caller, req, charge)
            case Some(e) => r == Failure(e) && db.transactions == old(db.transactions) && db.policies == old(db.policies)
            case None =>
              var id := req.policyAccountId;
              r == Success("Payment successful, Charge ID: " + charge.id)
              && db.transactions == old(db.transactions) + [Transaction(freshTxId, id, req.amount.value, now, Successful)]
              && db.policies == old(db.policies)[id := Settle(old(db.policies)[id], today)]
  {
    if caller.None? {
      return Failure(NotFound("User not found"));
    }
    var id := req.policyAccountId;
    if id !in db.policies {
      return Failure(ApiError("Policy not found"));
    }
    if req.amount.None? || req.amount.value <= 0.0 {
      return Failure(ApiError("Invalid payment amount."));
    }
    if charge.status != Succeeded {
      return Failure(ApiError("Payment failed with status: " + charge.status));
    }
    r := RecordPayment(db, Transaction(freshTxId, id, req.amount.value, now, Successful), today, charge.id);
  }

  /** The part of processPayment after a succeeded charge: save the transaction, then settle the policy. */
  method RecordPayment(db: Db, transaction: Transaction, today: Date, chargeId: string) returns (r: Result<string>)
    requires db.Valid() && transaction.policyId in db.policies
    modifies db`transactions, db`policies
    ensures db.Valid()
    ensures r == Success("Payment successful, Charge ID: " + chargeId)
    ensures db.transactions == old(db.transactions) + [transaction]
    ensures db.policies == old(db.policies)[transaction.policyId := Settle(old(db.policies)[transaction.policyId], today)]
  {
    var id := transaction.policyId;
    var stored := db.policies[id];
    var policy := stored;
    if IsAfter(today, policy.endDate) {
      policy := policy.(status := Expired);
    }
    db.AppendTransaction(transaction);
    policy := policy.(totalAmountPaid := policy.totalAmountPaid + policy.installmentAmount as real);
    policy := policy.(nextPaymentDate := NextPaymentDate(policy.nextPaymentDate, policy.paymentInterval));
    assert policy == Settle(stored, today);
    db.SavePolicy(id, policy);
    r := Success("Payment successful, Charge ID: " + chargeId);
  }

  /** The policy after `k` succeeded charges on the same day. */
  function SettleTimes(p: Policy, today: Date, k: nat): (q: Policy)
    requires ValidDate(p.nextPaymentDate)
    ensures ValidDate(q.nextPaymentDate)
    decreases k
  {
    if k == 0 then p else Settle(SettleTimes(p, today, k - 1), today)
  }

  /**
   * After k succeeded charges the amount paid has grown by k installments,
   * whatever was actually charged, and the due date has moved strictly on.
   */
  lemma {:induction false} PaidGrowsByInstallments(p: Policy, today: Date, k: nat)
    requires ValidDate(p.nextPaymentDate)
    ensures SettleTimes(p, today, k).totalAmountPaid == p.totalAmountPaid + (k * p.installmentAmount) as real
    ensures SettleTimes(p, today, k).installmentAmount == p.installmentAmount
    ensures k > 0 ==> IsAfter(SettleTimes(p, today, k).nextPaymentDate, p.nextPaymentDate)
  {
    if k > 0 {
      PaidGrowsByInstallments(p, today, k - 1);
      var prev := SettleTimes(p, today, k - 1);
      assert (k * p.installmentAmount) as real == ((k - 1) * p.installmentAmount) as real + p.installmentAmount as real;
      if k > 1 {
        IsAfterIsStrictOrder(SettleTimes(p, today, k).nextPaymentDate, prev.nextPaymentDate, p.nextPaymentDate);
      }
    }
  }
}
