/**
 * The persisted records of the insurance backend. Each record is a value; the
 * repositories that hold them (module Store) are maps from the record's id to
 * the record, so a record does not repeat its own id except where the
 * repository is a sequence (transactions, documents).
 */
module Entities {
  import opened Common
  import opened Dates

  /** An abstract point in time (LocalDateTime); only equality and order are used. */
  type Instant = nat

  datatype PaymentInterval = Yearly | HalfYearly | Quarterly

  /** The enum constant's name, as serialised to the client. */
  function IntervalName(p: PaymentInterval): (s: string)
    ensures |s| > 0
  {
    match p
    case Yearly => "YEARLY"
    case HalfYearly => "HALF_YEARLY"
    case Quarterly => "QUARTERLY"
  }

  /** PaymentInterval.valueOf: an exact, case-sensitive match of a constant's name. */
  function ParseInterval(s: string): (r: Option<PaymentInterval>)
    ensures r.Some? ==> IntervalName(r.value) == s
    ensures r.None? ==> forall p :: IntervalName(p) != s
  {
    if s == "YEARLY" then Some(Yearly)
    else if s == "HALF_YEARLY" then Some(HalfYearly)
    else if s == "QUARTERLY" then Some(Quarterly)
    else None
  }

  /** The policy statuses the backend assigns. */
  datatype PolicyStatus = Active | Cancelled | Claimed | Expired

  function PolicyStatusName(s: PolicyStatus): string
  {
    match s
    case Active => "ACTIVE"
    case Cancelled => "CANCELLED"
    case Claimed => "CLAIMED"
    case Expired => "EXPIRED"
  }

  datatype ClaimStatus = ClaimPending | ClaimApproved | ClaimRejected

  function ClaimStatusName(s: ClaimStatus): string
  {
    match s
    case ClaimPending => "PENDING"
    case ClaimApproved => "APPROVED"
    case ClaimRejected => "REJECTED"
  }

  /** A customer's verification status. */
  datatype CreationStatus = CreationPending | CreationApproved | CreationRejected

  function CreationStatusName(s: CreationStatus): string
  {
    match s
    case CreationPending => "PENDING"
    case CreationApproved => "APPROVED"
    case CreationRejected => "REJECTED"
  }

  /** A password as stored: the encoder's output for the raw text. */
  datatype Password = Encoded(raw: string)

  datatype User = User(username: string, email: string, password: Password, role: string, active: bool)

  datatype Customer = Customer(
    userId: string,
    name: string,
    address: string,
    bankAccountDetails: string,
    phoneNumber: string,
    dob: Date,
    cityId: string,
    agentId: Option<string>,
    verifiedBy: Option<string>,
    status: CreationStatus)

  datatype Agent = Agent(
    userId: string,
    name: string,
    address: string,
    phoneNumber: string,
    cityId: string,
    createdBy: Option<string>)

  datatype Admin = Admin(userId: string, name: string, phoneNumber: string)

  datatype Employee = Employee(userId: string, name: string)

  datatype State = State(name: string, active: bool)

  datatype City = City(name: string, stateId: string, active: bool)

  datatype InsuranceType = InsuranceType(name: string, active: bool)

  datatype InsuranceScheme = InsuranceScheme(
    name: string,
    description: string,
    typeId: string,
    newRegistrationCommission: real,
    withdrawalPenalty: real,
    active: bool)

  datatype InsurancePlan = InsurancePlan(
    schemeId: string,
    minimumPolicyTerm: int,
    maximumPolicyTerm: int,
    minimumAge: int,
    maximumAge: int,
    minimumInvestmentAmount: int,
    maximumInvestmentAmount: int,
    profitRatio: real,
    active: bool)

  datatype Policy = Policy(
    planId: string,
    customerId: string,
    agentId: Option<string>,
    startDate: Date,
    endDate: Date,
    policyTerm: int,
    totalInvestmentAmount: int,
    paymentInterval: PaymentInterval,
    installmentAmount: int,
    totalAmountPaid: real,
    nextPaymentDate: Date,
    status: PolicyStatus)

  datatype Transaction = Transaction(
    transactionId: string,
    policyId: string,
    amount: real,
    date: Instant,
    status: string)

  datatype WithdrawalRequest = WithdrawalRequest(
    customerId: string,
    policyId: string,
    adminId: Option<string>,
    requestDate: Instant,
    status: string)

  datatype Claim = Claim(
    policyId: string,
    documents: seq<string>,
    explanation: string,
    status: ClaimStatus)

  datatype Document = Document(
    documentId: string,
    documentName: string,
    documentType: string,
    uploadDate: Instant,
    claimId: Option<nat>)

  datatype CustomerQuery = CustomerQuery(
    customerId: string,
    subject: string,
    message: string,
    status: string,
    response: Option<string>,
    employeeId: Option<string>,
    submittedAt: Instant)

  datatype TaxSetting = TaxSetting(taxPercentage: real)

  datatype InsuranceSetting = InsuranceSetting(claimDeduction: real, withdrawalPenalty: real, latePenalty: real)
}
