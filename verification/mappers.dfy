/**
 * The backend's entity/DTO mappers. Each builds a fresh DTO or entity from
 * its argument; the scheme and city builders also look up a repository and
 * fail when the referenced type or state is missing. Related records the Java
 * code reaches through object references (a city's state, an agent's user)
 * are passed in explicitly.
 */
module Mappers {
  import opened Common
  import opened Dates
  import opened Entities

  const NotAvailable: string := "N/A"

  // ----- insurance schemes and types -----

  datatype InsuranceSchemeRequest = InsuranceSchemeRequest(
    schemeName: string,
    description: string,
    newRegistrationCommission: real,
    withdrawalPenalty: real)

  /** schemeRequestToScheme: a new, active scheme of an existing insurance type. */
  function SchemeRequestToScheme(types: map<string, InsuranceType>, typeId: string,
                                 req: InsuranceSchemeRequest): (r: Result<InsuranceScheme>)
    ensures r.Failure? <==> typeId !in types
    ensures r.Failure? ==> r.error == NotFound("Insurance Type not found")
    ensures r.Success? ==> r.value.active && r.value.typeId == typeId
                           && r.value.name == req.schemeName && r.value.description == req.description
                           && r.value.newRegistrationCommission == req.newRegistrationCommission
                           && r.value.withdrawalPenalty == req.withdrawalPenalty
  {
    if typeId !in types then Failure(NotFound("Insurance Type not found"))
    else Success(InsuranceScheme(req.schemeName, req.description, typeId,
                                 req.newRegistrationCommission, req.withdrawalPenalty, true))
  }

  /** insuranceTypeRequestToInsuranceType: a new type is active. */
  function TypeRequestToType(name: string): (t: InsuranceType)
    ensures t.active && t.name == name
  {
    InsuranceType(name, true)
  }

  // ----- insurance plans -----

  datatype InsurancePlanRequest = InsurancePlanRequest(
    minimumPolicyTerm: int,
    maximumPolicyTerm: int,
    minimumAge: int,
    maximumAge: int,
    minimumInvestmentAmount: int,
    maximumInvestmentAmount: int,
    profitRatio: real,
    active: bool)

  datatype InsurancePlanResponse = InsurancePlanResponse(
    insuranceId: string,
    insuranceSchemeId: string,
    insuranceSchemeName: string,
    minimumPolicyTerm: int,
    maximumPolicyTerm: int,
    minimumAge: int,
    maximumAge: int,
    minimumInvestmentAmount: int,
    maximumInvestmentAmount: int,
    profitRatio: real,
    active: bool)

  /** insurancePlanRequestToInsurancePlan: the plan of `schemeId` with the request's ranges. */
  function PlanRequestToPlan(req: InsurancePlanRequest, schemeId: string): InsurancePlan
  {
    InsurancePlan(schemeId, req.minimumPolicyTerm, req.maximumPolicyTerm, req.minimumAge, req.maximumAge,
                  req.minimumInvestmentAmount, req.maximumInvestmentAmount, req.profitRatio, req.active)
  }

  /** insurancePlanToInsurancePlanResponse. */
  function PlanToResponse(id: string, plan: InsurancePlan, scheme: InsuranceScheme): InsurancePlanResponse
  {
    InsurancePlanResponse(id, plan.schemeId, scheme.name, plan.minimumPolicyTerm, plan.maximumPolicyTerm,
                          plan.minimumAge, plan.maximumAge, plan.minimumInvestmentAmount,
                          plan.maximumInvestmentAmount, plan.profitRatio, plan.active)
  }

  /** The request a plan response would be edited back into. */
  function ResponseFields(r: InsurancePlanResponse): InsurancePlanRequest
  {
    InsurancePlanRequest(r.minimumPolicyTerm, r.maximumPolicyTerm, r.minimumAge, r.maximumAge,
                         r.minimumInvestmentAmount, r.maximumInvestmentAmount, r.profitRatio, r.active)
  }

  /** Building a plan from a request and mapping it to a response loses none of the request. */
  lemma PlanRoundTrip(req: InsurancePlanRequest, id: string, schemeId: string, scheme: InsuranceScheme)
    ensures ResponseFields(PlanToResponse(id, PlanRequestToPlan(req, schemeId), scheme)) == req
    ensures PlanToResponse(id, PlanRequestToPlan(req, schemeId), scheme).insuranceSchemeId == schemeId
  {
  }

  // ----- states and cities -----

  /** stateRequestToState: a new state is active. */
  function StateRequestToState(name: string): (s: State)
    ensures s.active && s.name == name
  {
    State(name, true)
  }

  datatype StateResponse = StateResponse(stateId: string, name: string, active: bool)

  /** stateToStateResponse: the state's id, name and flag. */
  function StateToResponse(id: string, st: State): (r: StateResponse)
    ensures r.stateId == id && r.name == st.name && r.active == st.active
  {
    StateResponse(id, st.name, st.active)
  }

  /** cityRequestToCity: a new, active city of an existing state. */
  function CityRequestToCity(states: map<string, State>, stateId: string, name: string): (r: Result<City>)
    ensures r.Failure? <==> stateId !in states
    ensures r.Failure? ==> r.error == IllegalArgument("Invalid state ID")
    ensures r.Success? ==> r.value.active && r.value.stateId == stateId && r.value.name == name
  {
    if stateId !in states then Failure(IllegalArgument("Invalid state ID"))
    else Success(City(name, stateId, true))
  }

  datatype CityResponse = CityResponse(cityId: string, name: string, active: bool, state: string)

  /** cityToCityResponse: the state is shown by name. */
  function CityToResponse(id: string, city: City, state: State): (r: CityResponse)
    ensures r.cityId == id && r.name == city.name && r.active == city.active && r.state == state.name
  {
    CityResponse(id, city.name, city.active, state.name)
  }

  // ----- agents, admins and employees -----

  datatype AgentResponse = AgentResponse(
    agentId: string,
    active: bool,
    email: string,
    name: string,
    username: string,
    address: string,
    createdBy: Option<string>,
    phoneNumber: string,
    cityId: string)

  /** "<address>, <city>, <state>". */
  function AgentAddress(address: string, cityName: string, stateName: string): (r: string)
    ensures |r| == |address| + |cityName| + |stateName| + 4
    ensures r[..|address|] == address
    ensures r[|r| - |stateName|..] == stateName
  {
    address + ", " + cityName + ", " + stateName
  }

  /** agentToAgentResponse: activity and login data come from the agent's user. */
  function AgentToResponse(id: string, agent: Agent, user: User, city: City, state: State): (r: AgentResponse)
    ensures r.active == user.active && r.username == user.username && r.email == user.email
    ensures r.address == AgentAddress(agent.address, city.name, state.name)
    ensures r.cityId == agent.cityId && r.createdBy == agent.createdBy
  {
    AgentResponse(id, user.active, user.email, agent.name, user.username,
                  AgentAddress(agent.address, city.name, state.name), agent.createdBy,
                  agent.phoneNumber, agent.cityId)
  }

  datatype AdminResponse = AdminResponse(adminId: string, active: bool, email: string, name: string,
                                         username: string, phoneNumber: string)

  function AdminToResponse(id: string, admin: Admin, user: User): (r: AdminResponse)
    ensures r.active == user.active && r.username == user.username && r.email == user.email
    ensures r.name == admin.name && r.phoneNumber == admin.phoneNumber && r.adminId == id
  {
    AdminResponse(id, user.active, user.email, admin.name, user.username, admin.phoneNumber)
  }

  // ----- policies, commissions and transactions -----

  datatype PolicyResponse = PolicyResponse(
    policyId: string,
    startDate: Date,
    endDate: Date,
    policyTerm: int,
    totalInvestmentAmount: int,
    paymentInterval: PaymentInterval,
    status: PolicyStatus)

  /** convertToPolicyResponse: no amount paid, installment or next date leaves the server. */
  function PolicyToResponse(id: string, p: Policy): (r: PolicyResponse)
    ensures r.policyId == id && r.policyTerm == p.policyTerm
    ensures r.totalInvestmentAmount == p.totalInvestmentAmount && r.paymentInterval == p.paymentInterval
    ensures r.status == p.status && r.startDate == p.startDate && r.endDate == p.endDate
  {
    PolicyResponse(id, p.startDate, p.endDate, p.policyTerm, p.totalInvestmentAmount, p.paymentInterval, p.status)
  }

  datatype CommissionResponse = CommissionResponse(
    policyId: string,
    planId: string,
    startDate: Date,
    endDate: Date,
    policyTerm: int,
    totalInvestmentAmount: int,
    paymentInterval: PaymentInterval,
    commission: int)

  /** convertToCommissionResponse: the scheme's commission cast to int. */
  function PolicyToCommission(id: string, p: Policy, scheme: InsuranceScheme): (r: CommissionResponse)
    ensures 0.0 <= scheme.newRegistrationCommission < 0x7FFF_FFFF as real ==>
              r.commission as real <= scheme.newRegistrationCommission < r.commission as real + 1.0
    ensures r.policyId == id && r.planId == p.planId
  {
    CommissionResponse(id, p.planId, p.startDate, p.endDate, p.policyTerm, p.totalInvestmentAmount,
                       p.paymentInterval, JavaIntCast(scheme.newRegistrationCommission))
  }

  datatype TransactionResponse = TransactionResponse(
    transactionId: string,
    policyId: string,
    amount: real,
    date: Instant,
    status: string)

  /** transactionToTransactionResponse: a field-for-field copy. */
  function TransactionToResponse(t: Transaction): (r: TransactionResponse)
    ensures r.transactionId == t.transactionId && r.policyId == t.policyId
    ensures r.amount == t.amount && r.date == t.date && r.status == t.status
  {
    TransactionResponse(t.transactionId, t.policyId, t.amount, t.date, t.status)
  }

  // ----- customer queries -----

  datatype CustomerQueryResponse = CustomerQueryResponse(
    queryId: nat,
    customerId: string,
    employeeId: Option<string>,
    subject: string,
    message: string,
    status: string,
    response: Option<string>,
    submittedAt: Instant)

  /** queryToCustomerQueryResponse: the employee id is set only when an employee answered. */
  function QueryToResponse(id: nat, q: CustomerQuery): (r: CustomerQueryResponse)
    ensures r.employeeId.Some? <==> q.employeeId.Some?
    ensures r.queryId == id && r.customerId == q.customerId && r.status == q.status
  {
    CustomerQueryResponse(id, q.customerId, q.employeeId, q.subject, q.message, q.status, q.response, q.submittedAt)
  }

  // ----- customers -----

  datatype CustomerResponse = CustomerResponse(
    customerId: string,
    active: bool,
    email: string,
    name: string,
    status: string,
    username: string,
    phoneNumber: string,
    verifiedby: string,
    agent: string)

  datatype CustomerResponseForUpdate = CustomerResponseForUpdate(
    name: string,
    phoneNumber: string,
    address: string,
    username: string,
    dob: Date,
    verifiedby: string,
    customerId: string,
    agent: string,
    cityId: string)

  /** A reference rendered as its id, or "N/A" when absent. */
  function IdOrNotAvailable(ref: Option<string>): (s: string)
    ensures ref.Some? ==> s == ref.value
    ensures ref.None? ==> s == NotAvailable
  {
    if ref.Some? then ref.value else NotAvailable
  }

  /** customerToCustomerResponse. */
  function CustomerToResponse(id: string, c: Customer, user: User): (r: CustomerResponse)
    ensures r.verifiedby == IdOrNotAvailable(c.verifiedBy) && r.agent == IdOrNotAvailable(c.agentId)
    ensures r.active == user.active && r.status == CreationStatusName(c.status)
  {
    CustomerResponse(id, user.active, user.email, c.name, CreationStatusName(c.status), user.username,
                     c.phoneNumber, IdOrNotAvailable(c.verifiedBy), IdOrNotAvailable(c.agentId))
  }

  /** customerToCustomerResponseForUpdate. */
  function CustomerToResponseForUpdate(id: string, c: Customer, user: User): (r: CustomerResponseForUpdate)
    ensures r.verifiedby == IdOrNotAvailable(c.verifiedBy) && r.agent == IdOrNotAvailable(c.agentId)
    ensures r.cityId == c.cityId && r.dob == c.dob && r.username == user.username
  {
    CustomerResponseForUpdate(c.name, c.phoneNumber, c.address, user.username, c.dob,
                              IdOrNotAvailable(c.verifiedBy), id, IdOrNotAvailable(c.agentId), c.cityId)
  }

  /**
   * Both customer views agree on the two defaulted references, and as long as
   * no employee or agent id is literally "N/A", "N/A" means "none".
   */
  lemma CustomerViewsAgree(id: string, c: Customer, user: User)
    requires c.verifiedBy != Some(NotAvailable) && c.agentId != Some(NotAvailable)
    ensures CustomerToResponse(id, c, user).verifiedby == CustomerToResponseForUpdate(id, c, user).verifiedby
    ensures CustomerToResponse(id, c, user).agent == CustomerToResponseForUpdate(id, c, user).agent
    ensures CustomerToResponse(id, c, user).verifiedby == NotAvailable <==> c.verifiedBy.None?
    ensures CustomerToResponse(id, c, user).agent == NotAvailable <==> c.agentId.None?
  {
  }
}
