/**
 * Policy creation: a customer's request is checked against the chosen plan's
 * inclusive ranges, and the new policy is initialised with its installment,
 * which the backend fixes by truncating integer division.
 *
 * The caller's identity is the user the token resolved to; the fresh policy id
 * comes from the id generator, the day from the clock and the customer's age
 * in whole years from the date library; all of these are parameters.
 */
module PolicyService {
  import opened Common
  import opened Dates
  import opened Entities
  import opened Store
  import opened Mappers

  datatype PolicyRequest = PolicyRequest(
    planId: string,
    policyTerm: int,
    totalInvestmentAmount: int,
    paymentInterval: string,
    agentId: Option<string>)

  const Registered: string := "Customer successfully registered for policy"

  /** Installments per year. */
  function PaymentsPerYear(p: PaymentInterval): (n: int)
    ensures n == 1 || n == 2 || n == 4
    ensures p == Yearly <==> n == 1
    ensures p == Quarterly <==> n == 4
  {
    match p
    case Yearly => 1
    case HalfYearly => 2
    case Quarterly => 4
  }

  /** PaymentInterval.valueOf on the upper-cased text, with its exception. */
  function ParseRequestInterval(s: string): (r: Result<PaymentInterval>)
    ensures r.Success? <==> ParseInterval(ToUpper(s)).Some?
    ensures r.Success? ==> IntervalName(r.value) == ToUpper(s)
  {
    match ParseInterval(ToUpper(s))
    case Some(p) => Success(p)
    case None => Failure(IllegalArgument("No enum constant com.insurance.enums.PaymentInterval." + ToUpper(s)))
  }

  /**
   * calculateInstallmentAmount: the total divided by term × payments per year,
   * truncated toward zero. The number of payments is a Java int, so the
   * product wraps to 32 bits; a zero divisor is Java's ArithmeticException.
   */
  function CalculateInstallmentAmount(req: PolicyRequest): (r: Result<int>)
    ensures ParseRequestInterval(req.paymentInterval).Failure? ==> r == ParseRequestInterval(req.paymentInterval).PropagateFailure()
    ensures ParseRequestInterval(req.paymentInterval).Success? ==>
              var n := Int32(req.policyTerm * PaymentsPerYear(ParseRequestInterval(req.paymentInterval).value));
              (r.Failure? <==> n == 0) && (r.Failure? ==> r.error == DivisionByZero)
    ensures r.Success? ==> -0x8000_0000 <= r.value <= 0x7FFF_FFFF
  {
    var interval :- ParseRequestInterval(req.paymentInterval);
    var totalPayments := Int32(req.policyTerm * PaymentsPerYear(interval));
    if totalPayments == 0 then Failure(DivisionByZero)
    else Success(Int32(JavaDiv(req.totalInvestmentAmount, totalPayments)))
  }

  /**
   * The stored installment is the truncated quotient when the number of
   * payments fits in an int: for a non-negative total,
   * installment × payments ≤ total < (installment + 1) × payments.
   */
  lemma InstallmentTruncates(req: PolicyRequest)
    requires ParseRequestInterval(req.paymentInterval).Success?
    requires 0 <= req.totalInvestmentAmount <= 0x7FFF_FFFF && req.policyTerm > 0
    requires req.policyTerm * PaymentsPerYear(ParseRequestInterval(req.paymentInterval).value) <= 0x7FFF_FFFF
    ensures var n := req.policyTerm * PaymentsPerYear(ParseRequestInterval(req.paymentInterval).value);
            CalculateInstallmentAmount(req).Success?
            && 0 <= CalculateInstallmentAmount(req).value
            && CalculateInstallmentAmount(req).value * n <= req.totalInvestmentAmount
            && req.totalInvestmentAmount < CalculateInstallmentAmount(req).value * n + n
  {
    var n := req.policyTerm * PaymentsPerYear(ParseRequestInterval(req.paymentInterval).value);
    assert n > 0 && Int32(n) == n;
    var q := JavaDiv(req.totalInvestmentAmount, n);
    assert CalculateInstallmentAmount(req) == Success(Int32(q));
    QuotientWithinDividend(req.totalInvestmentAmount, n, q);
    assert Int32(q) == q;
  }

  /** A truncated quotient of a non-negative int by a positive divisor lies between 0 and the dividend. */
  lemma QuotientWithinDividend(a: int, n: int, q: int)
    requires 0 <= a && n > 0 && q == JavaDiv(a, n)
    ensures 0 <= q <= a && q * n <= a < q * n + n
  {
    assert q >= 0;
    assert q * n <= a < q * n + n;
    assert q <= q * n by {
      assert q * n == q + q * (n - 1);
      assert q * (n - 1) >= 0;
    }
  }

  /**
   * A policy term of 2^30 years paid quarterly makes 2^32 payments, which
   * wrap to 0 in an int: the installment fails as a division by zero.
   */
  lemma PaymentCountWraps(req: PolicyRequest)
    requires ParseRequestInterval(req.paymentInterval) == Success(Quarterly)
    requires req.policyTerm == 0x4000_0000
    ensures CalculateInstallmentAmount(req) == Failure(DivisionByZero)
  {
    assert Int32(0x4000_0000 * 4) == 0;
  }

  predicate InRange(x: int, lo: int, hi: int) { lo <= x <= hi }

  /**
   * What createPolicy decides, in the order the checks are made: the new
   * policy, or the first error.
   */
  ghost function CreatePolicySpec(users: map<string, User>, customers: map<string, Customer>,
                                  plans: map<string, InsurancePlan>, agents: map<string, Agent>,
                                  caller: Caller, req: PolicyRequest, today: Date, age: int): (r: Result<Policy>)
    requires ValidDate(today)
    requires caller.Some? ==> caller.value in users
    // The initial state of a created policy.
    ensures r.Success? ==> caller.Some? && KeyOfUser(customers, CustomerUser, caller.value).Some?
    ensures r.Success? ==>
              var p := r.value;
              p.status == Active && p.totalAmountPaid == 0.0
              && p.startDate == today && p.nextPaymentDate == today
              && p.endDate.year == today.year + req.policyTerm && p.endDate.month == today.month
              && p.customerId == KeyOfUser(customers, CustomerUser, caller.value).value
              && p.planId == req.planId && p.agentId == req.agentId
              && p.policyTerm == req.policyTerm && p.totalInvestmentAmount == req.totalInvestmentAmount
              && IntervalName(p.paymentInterval) == ToUpper(req.paymentInterval)
              && CalculateInstallmentAmount(req) == Success(p.installmentAmount)
  {
    if caller.None? then Failure(Unauthorized("User is not available for token"))
    else
      match KeyOfUser(customers, CustomerUser, caller.value)
      case None => Failure(ApiError("Customer not found for " + users[caller.value].username))
      case Some(cid) =>
        var plan :- CheckAgainstPlan(customers[cid], plans, req, age);
        NewPolicy(cid, req, agents, today)
  }

  /** Everything that refuses a request, and nothing else. */
  lemma CreatePolicyAccepts(users: map<string, User>, customers: map<string, Customer>,
                            plans: map<string, InsurancePlan>, agents: map<string, Agent>,
                            caller: Caller, req: PolicyRequest, today: Date, age: int)
    requires ValidDate(today)
    requires caller.Some? ==> caller.value in users
    ensures CreatePolicySpec(users, customers, plans, agents, caller, req, today, age).Success? <==>
              caller.Some?
              && KeyOfUser(customers, CustomerUser, caller.value).Some?
              && customers[KeyOfUser(customers, CustomerUser, caller.value).value].status == CreationApproved
              && req.planId in plans && plans[req.planId].active
              && InRange(req.policyTerm, plans[req.planId].minimumPolicyTerm, plans[req.planId].maximumPolicyTerm)
              && InRange(age, plans[req.planId].minimumAge, plans[req.planId].maximumAge)
              && InRange(req.totalInvestmentAmount, plans[req.planId].minimumInvestmentAmount,
                         plans[req.planId].maximumInvestmentAmount)
              && CalculateInstallmentAmount(req).Success?
              && (req.agentId.Some? ==> req.agentId.value in agents)
  {
    if caller.Some? && KeyOfUser(customers, CustomerUser, caller.value).Some? {
      var cid := KeyOfUser(customers, CustomerUser, caller.value).value;
      var checked := CheckAgainstPlan(customers[cid], plans, req, age);
      if checked.Success? {
        assert CreatePolicySpec(users, customers, plans, agents, caller, req, today, age)
               == NewPolicy(cid, req, agents, today);
      }
    }
  }

  /** A rejected customer is refused before the plan is looked up; then an unknown plan is refused. */
  lemma CreatePolicyRefusalOrder(users: map<string, User>, customers: map<string, Customer>,
                                 plans: map<string, InsurancePlan>, agents: map<string, Agent>,
                                 caller: Caller, req: PolicyRequest, today: Date, age: int)
    requires ValidDate(today)
    requires caller.Some? ==> caller.value in users
    ensures caller.Some? && KeyOfUser(customers, CustomerUser, caller.value).Some?
            && customers[KeyOfUser(customers, CustomerUser, caller.value).value].status == CreationRejected
            ==> CreatePolicySpec(users, customers, plans, agents, caller, req, today, age)
                == Failure(ApiError("Sorry, you cannot create a policy"))
    ensures caller.Some? && KeyOfUser(customers, CustomerUser, caller.value).Some?
            && customers[KeyOfUser(customers, CustomerUser, caller.value).value].status != CreationRejected
            && req.planId !in plans
            ==> CreatePolicySpec(users, customers, plans, agents, caller, req, today, age)
                == Failure(IllegalArgument("Invalid Insurance Plan ID"))
  {
  }

  /**
   * The checks of createPolicy that follow the customer lookup, in their
   * order: the plan the request names, or the first refusal.
   */
  function CheckAgainstPlan(c: Customer, plans: map<string, InsurancePlan>, req: PolicyRequest, age: int)
    : (r: Result<InsurancePlan>)
    ensures r.Success? ==> req.planId in plans && r.value == plans[req.planId]
  {
    if c.status == CreationRejected then Failure(ApiError("Sorry, you cannot create a policy"))
    else if req.planId !in plans then Failure(IllegalArgument("Invalid Insurance Plan ID"))
    else
      var plan := plans[req.planId];
      if !plan.active then Failure(ApiError("Insurance Plan is not active"))
      else if !InRange(req.policyTerm, plan.minimumPolicyTerm, plan.maximumPolicyTerm) then
        Failure(IllegalArgument("Policy term is outside the allowed range for the selected plan."))
      else if c.status != CreationApproved then Failure(ApiError("Customer is not verified"))
      else if !InRange(age, plan.minimumAge, plan.maximumAge) then
        Failure(ApiError("Age does not meet the requirements for the selected insurance plan."))
      else if !InRange(req.totalInvestmentAmount, plan.minimumInvestmentAmount, plan.maximumInvestmentAmount) then
        Failure(IllegalArgument("Total investment amount is outside the allowed range for the selected plan."))
      else Success(plan)
  }

  /** The policy createPolicy fills in once the request has passed the checks. */
  function NewPolicy(cid: string, req: PolicyRequest, agents: map<string, Agent>, today: Date): (r: Result<Policy>)
    requires ValidDate(today)
    ensures r.Success? <==> CalculateInstallmentAmount(req).Success? && (req.agentId.Some? ==> req.agentId.value in agents)
    ensures r.Success? ==>
              var p := r.value;
              p.status == Active && p.totalAmountPaid == 0.0
              && p.startDate == today && p.nextPaymentDate == today
              && p.endDate.year == today.year + req.policyTerm && p.endDate.month == today.month
              && p.customerId == cid && p.planId == req.planId && p.agentId == req.agentId
              && p.policyTerm == req.policyTerm && p.totalInvestmentAmount == req.totalInvestmentAmount
              && IntervalName(p.paymentInterval) == ToUpper(req.paymentInterval)
              && CalculateInstallmentAmount(req) == Success(p.installmentAmount)
  {
    var interval :- ParseRequestInterval(req.paymentInterval);
    var installment :- CalculateInstallmentAmount(req);
    if req.agentId.Some? && req.agentId.value !in agents then Failure(NotFound("Agent not found"))
    else Success(Policy(req.planId, cid, req.agentId, today, PlusYears(today, req.policyTerm),
                        req.policyTerm, req.totalInvestmentAmount, interval, installment,
                        0.0, today, Active))
  }

  /** createPolicy: validate the request and save the new policy under the fresh id. */
  method CreatePolicy(db: Db, caller: Caller, req: PolicyRequest, today: Date, age: int, freshId: string)
    returns (r: Result<string>)
    requires db.Valid() && ValidDate(today)
    requires caller.Some? ==> caller.value in db.users
    requires freshId !in db.policies
    modifies db`policies
    ensures db.Valid()
    ensures var s := CreatePolicySpec(db.users, db.customers, db.plans, db.agents, caller, req, today, age);
            match s
            case Success(p) => r == Success(Registered) && db.policies == old(db.policies)[freshId := p]
            case Failure(e) => r == Failure(e) && db.policies == old(db.policies)
  {
    if caller.None? {
      return Failure(Unauthorized("User is not available for token"));
    }
    var u := caller.value;
    var key := db.FindCustomer(u);
    if key.None? {
      return Failure(ApiError("Customer not found for " + db.users[u].username));
    }
    var customer := db.customers[key.value];
    var checked := ValidateRequest(customer, db.plans, req, age);
    if checked.Failure? {
      return Failure(checked.error);
    }
    r := FillAndSave(db, key.value, req, today, freshId);
  }

  /** The second half of createPolicy: fill the policy's fields in the order of the setters and save it. */
  method FillAndSave(db: Db, cid: string, req: PolicyRequest, today: Date, freshId: string) returns (r: Result<string>)
    requires db.Valid() && ValidDate(today)
    requires cid in db.customers && req.planId in db.plans
    requires freshId !in db.policies
    modifies db`policies
    ensures db.Valid()
    ensures match NewPolicy(cid, req, db.agents, today)
            case Success(p) => r == Success(Registered) && db.policies == old(db.policies)[freshId := p]
            case Failure(e) => r == Failure(e) && db.policies == old(db.policies)
  {
    var endDate := PlusYears(today, req.policyTerm);
    var interval :- ParseRequestInterval(req.paymentInterval);
    var installment :- CalculateInstallmentAmount(req);
    if req.agentId.Some? && req.agentId.value !in db.agents {
      return Failure(NotFound("Agent not found"));
    }
    var policy := Policy(req.planId, cid, req.agentId, today, endDate, req.policyTerm,
                         req.totalInvestmentAmount, interval, installment, 0.0, today, Active);
    db.SavePolicy(freshId, policy);
    r := Success(Registered);
  }

  /** The checks of createPolicy after the customer lookup, one `if` per refusal. */
  method ValidateRequest(customer: Customer, plans: map<string, InsurancePlan>, req: PolicyRequest, age: int)
    returns (r: Result<InsurancePlan>)
    ensures r == CheckAgainstPlan(customer, plans, req, age)
  {
    if customer.status == CreationRejected {
      return Failure(ApiError("Sorry, you cannot create a policy"));
    }
    if req.planId !in plans {
      return Failure(IllegalArgument("Invalid Insurance Plan ID"));
    }
    var plan := plans[req.planId];
    if !plan.active {
      return Failure(ApiError("Insurance Plan is not active"));
    }
    if !InRange(req.policyTerm, plan.minimumPolicyTerm, plan.maximumPolicyTerm) {
      return Failure(IllegalArgument("Policy term is outside the allowed range for the selected plan."));
    }
    if customer.status != CreationApproved {
      return Failure(ApiError("Customer is not verified"));
    }
    if !InRange(age, plan.minimumAge, plan.maximumAge) {
      return Failure(ApiError("Age does not meet the requirements for the selected insurance plan."));
    }
    if !InRange(req.totalInvestmentAmount, plan.minimumInvestmentAmount, plan.maximumInvestmentAmount) {
      return Failure(IllegalArgument("Total investment amount is outside the allowed range for the selected plan."));
    }
    r := Success(plan);
  }

  /** getPolicybyId: the policy's response, or an error for an unknown id. */
  function GetPolicyById(policies: map<string, Policy>, id: string): (r: Result<PolicyResponse>)
    ensures r.Success? <==> id in policies
    ensures r.Failure? ==> r.error == ApiError("Policy not found")
    ensures r.Success? ==> r.value.policyId == id && r.value.status == policies[id].status
                           && r.value.totalInvestmentAmount == policies[id].totalInvestmentAmount
  {
    if id in policies then Success(PolicyToResponse(id, policies[id])) else Failure(ApiError("Policy not found"))
  }
}
