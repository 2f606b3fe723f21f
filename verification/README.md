# SecureLife insurance: a Dafny model of installments, payments and the account registry

SecureLife sells investment insurance. A Spring backend stores customers, agents, employees,
admins, states, cities, insurance plans, policies, transactions, withdrawal requests, claims
and customer queries. A React frontend shows them in tables and drives payments. This project
models in Dafny the part of the system that decides money and state:

- **Installments and payments.**
  - The backend fixes each policy's installment amount by integer division (`PolicyService`).
  - It quotes the next payment, with tax and a late penalty, and moves the next due date on.
    After a successful charge it adds to the amount paid and appends a transaction to the
    ledger (`PaymentService`, `TransactionService`).
  - The customer's installment page rebuilds the schedule from the policy and that ledger
    and picks the one payable installment (`ViewInstallments`, `TableData`).
  - The policies chart recomputes how many installments are paid (`PoliciesGraph`).
- **Lifecycles.**
  - Withdrawal requests and claims go from PENDING to APPROVED or REJECTED, and an approval
    cancels or claims the policy (`WithdrawalService`, `ClaimService`).
  - Customer queries go from pending to responded (`QueryService`).
  - Agents see dashboard totals (`DashboardService`).
- **The registry.** States, cities, customers, agents, admins and insurance plans, with their
  uniqueness checks, activation flags and cross-entity guards:
  - a state with an active city cannot be deactivated;
  - activating a state activates its cities;
  - a city with active customers or agents cannot be deactivated.
- **Helpers.** DTO mappers, PDF column widths and file names, the pagination buttons, the form
  validators, the forgot-password flow, the download file name derivation and the employee
  client's endpoint choice.

Each backend service is a module whose methods act on `Store.Db`. `Store.Db` is a class holding
one map per repository and the transaction ledger as a sequence in repository order. Every
method states the new contents of the repositories it writes and leaves the others unchanged.
Each method is specified by a pure refusal or result function. The guards, the error messages
and the order in which the source checks them are stated on that function, and lemmas relate
the operations: deactivate then activate restores the state, approving twice counts once, an
update is idempotent. The frontend modules are functions of their props. The exceptions are
the loops the source writes (the schedule builder, the column-width arrays, the search for the next pending installment) and
the forgot-password page, a class whose fields are its React state.

`Reconciliation` states where backend and frontend agree and where they do not:
- the status strings differ ("SUCCESSFUL" against "succeeded"; ACTIVE, CANCELLED, CLAIMED and
  EXPIRED against the statuses the policy table gates on);
- the truncated stored installment differs from the exact share the page shows;
- unknown interval names count 0 in one place and 1 in another;
- each transaction fills an installment slot by position, whatever its status.

All of these are kept as the source has them.

Outside inputs are parameters:
- the user behind the JWT (`Caller`);
- fresh ids;
- the date and time;
- the gateway's answer to a charge;
- the customer's age;
- the server's answers in the forgot-password flow.

## Model

| member | source | states |
|---|---|---|
| PolicyService.PaymentsPerYear | backend/src/main/java/com/insurance/service/PolicyService.java:219-233 | YEARLY gives 1 payment a year, HALF_YEARLY 2, QUARTERLY 4, and nothing else occurs |
| PolicyService.ParseRequestInterval | backend/src/main/java/com/insurance/service/PolicyService.java:216 | the request's interval is accepted exactly when its upper-cased text names an interval, and then it is that interval |
| PolicyService.CalculateInstallmentAmount | backend/src/main/java/com/insurance/service/PolicyService.java:213-239 | an unknown interval is refused as by valueOf; the number of payments is term × payments per year wrapped to a 32-bit int, and exactly when that wrapped count is zero the call fails with the division-by-zero error; a result is always an int |
| PolicyService.InstallmentTruncates | backend/src/main/java/com/insurance/service/PolicyService.java:235-238 | for a non-negative int total, a positive term and a payment count that fits in an int, the stored installment is the truncated quotient: installment × payments ≤ total < (installment + 1) × payments |
| PolicyService.QuotientWithinDividend | backend/src/main/java/com/insurance/service/PolicyService.java:238 | the int quotient of a non-negative total by a positive count lies between 0 and the total and is its truncated quotient |
| PolicyService.PaymentCountWraps | backend/src/main/java/com/insurance/service/PolicyService.java:235 | a term of 2^30 years paid quarterly makes 2^32 payments, which wrap to 0 in an int, so the installment fails as a division by zero |
| PolicyService.CreatePolicySpec | backend/src/main/java/com/insurance/service/PolicyService.java:71-138 | an accepted request yields a policy of the caller's customer record that is ACTIVE, has paid 0, starts and is next due today, ends policyTerm years later in the same month, and carries the request's plan, agent, term, total, interval and the computed installment |
| PolicyService.CreatePolicyAccepts | backend/src/main/java/com/insurance/service/PolicyService.java:76-132 | a request is accepted if and only if the caller is a customer who is APPROVED, the plan exists and is active, term, age and total lie in the plan's inclusive ranges, the installment can be computed and any named agent exists |
| PolicyService.CreatePolicyRefusalOrder | backend/src/main/java/com/insurance/service/PolicyService.java:85-90 | a REJECTED customer is refused with "Sorry, you cannot create a policy" before the plan is looked up; otherwise an unknown plan is refused with "Invalid Insurance Plan ID" |
| PolicyService.CheckAgainstPlan | backend/src/main/java/com/insurance/service/PolicyService.java:89-110 | when the checks after the customer lookup pass, the result is the plan the request names |
| PolicyService.NewPolicy | backend/src/main/java/com/insurance/service/PolicyService.java:112-132 | the filled-in policy exists exactly when the installment can be computed and any named agent exists, and its fields are the initial state listed for CreatePolicySpec |
| PolicyService.CreatePolicy | backend/src/main/java/com/insurance/service/PolicyService.java:71-138 | on acceptance the new policy is saved under the fresh id and nothing else changes; on refusal the error is returned and the policies are unchanged |
| PolicyService.FillAndSave | backend/src/main/java/com/insurance/service/PolicyService.java:112-137 | saves the filled-in policy under the fresh id, or returns the agent or installment error with nothing saved |
| PolicyService.ValidateRequest | backend/src/main/java/com/insurance/service/PolicyService.java:85-110 | the statement-by-statement checks return what CheckAgainstPlan specifies |
| PolicyService.GetPolicyById | backend/src/main/java/com/insurance/service/PolicyService.java:292-300 | a response is returned if and only if the id is stored, with that id, status and total; otherwise "Policy not found" |
| PaymentService.JavaRound | backend/src/main/java/com/insurance/service/PaymentService.java:180 | Math.round lands within half a unit of its argument |
| PaymentService.JavaRoundMonotone | backend/src/main/java/com/insurance/service/PaymentService.java:180 | Math.round never reverses the order of two amounts |
| PaymentService.MonthsPerInstallment | backend/src/main/java/com/insurance/service/PaymentService.java:142-148 | the months between due dates times the payments per year is always 12 |
| PaymentService.NextPaymentDate | backend/src/main/java/com/insurance/service/PaymentService.java:135-152 | the next due date is a valid date strictly after the current one, the current one moved on by the interval's months (a year for YEARLY) |
| PaymentService.RoundToPaise | backend/src/main/java/com/insurance/service/PaymentService.java:180 | the amount rounded to two decimals lies within half a paisa of the exact amount |
| PaymentService.CalculateTotalAmount | backend/src/main/java/com/insurance/service/PaymentService.java:155-182 | an unknown policy is "Policy not found"; a late policy with no insurance setting is a null dereference; otherwise the quote (installment plus tax plus late penalty when today is after the due date) is refused below the minimum and is otherwise RoundToPaise of it (Math.round to whole paise), within half a paisa and never below the minimum |
| PaymentService.RoundedStaysAboveMinimum | backend/src/main/java/com/insurance/service/PaymentService.java:177-180 | a quote at or above the minimum stays at or above it after rounding |
| PaymentService.LateQuoteNotLower | backend/src/main/java/com/insurance/service/PaymentService.java:171-174 | with a non-negative penalty rate a late quote is never lower than an on-time one |
| PaymentService.ChargeRequestFor | backend/src/main/java/com/insurance/service/PaymentService.java:85-89 | the charge asks for the amount in paise rounded to within half a paisa, in inr, confirmed, with the caller's payment method |
| PaymentService.Settle | backend/src/main/java/com/insurance/service/PaymentService.java:102-126 | after a successful charge the paid total grows by the installment (not the charged amount), the due date moves strictly forward, the policy becomes EXPIRED when today is after its end date, and no other field changes |
| PaymentService.PaymentRefusal | backend/src/main/java/com/insurance/service/PaymentService.java:71-131 | a payment is accepted if and only if the caller is known, the policy exists, the amount is present and positive, and the charge succeeded |
| PaymentService.ProcessPayment | backend/src/main/java/com/insurance/service/PaymentService.java:71-133 | a refused payment changes nothing; an accepted one appends one SUCCESSFUL transaction for the charged amount to the ledger and settles the policy. The gateway's answer `charge` is an input, taken to be the answer to the request `ChargeRequestFor` builds for this payment |
| PaymentService.RecordPayment | backend/src/main/java/com/insurance/service/PaymentService.java:94-129 | appends exactly the given transaction to the ledger and replaces only the paid policy by its settled form |
| PaymentService.PaidGrowsByInstallments | backend/src/main/java/com/insurance/service/PaymentService.java:124-126 | after k payments the paid total has grown by exactly k installments and, for k > 0, the due date lies strictly later |
| TransactionService.ForPolicy | backend/src/main/java/com/insurance/service/TransactionService.java:53 | every transaction in the feed belongs to the policy, and the feed is no longer than the ledger |
| TransactionService.ForPolicyAppend | backend/src/main/java/com/insurance/service/TransactionService.java:53 | a transaction appended to the ledger appears at the end of its own policy's feed and in no other feed |
| TransactionService.ForPolicyPartitions | backend/src/main/java/com/insurance/service/TransactionService.java:53 | the feed and the other policies' transactions together are exactly the ledger, as a multiset; every transaction of the policy occurs in the feed as often as in the ledger |
| TransactionService.Others | backend/src/main/java/com/insurance/service/TransactionService.java:53 | the complement of the feed: none of its transactions belongs to the policy |
| TransactionService.ForPolicyInStorageOrder | backend/src/main/java/com/insurance/service/TransactionService.java:53 | the feed is picked out of the ledger at increasing positions that include every position holding a transaction of the policy, so it is all of the policy's transactions in storage order |
| TransactionService.SelectionExtends | backend/src/main/java/com/insurance/service/TransactionService.java:53 | storing one more transaction extends that selection by its position exactly when it belongs to the policy |
| TransactionService.MapResponses | backend/src/main/java/com/insurance/service/TransactionService.java:54-58 | one response per transaction, in the same order, each mapped by the transaction mapper |
| TransactionService.TransactionsByPolicyId | backend/src/main/java/com/insurance/service/TransactionService.java:50-66 | an unknown policy is "policy id notfound"; otherwise the responses of ForPolicy, which holds all of the policy's transactions in storage order (ForPolicyInStorageOrder, ForPolicyPartitions) |
| TransactionService.ToPagedResponse | backend/src/main/java/com/insurance/service/TransactionService.java:38-46 | the paged response maps the page's content in order and copies its number, size, totals and last flag |
| WithdrawalService.RequestRefusal | backend/src/main/java/com/insurance/service/WithdrawalService.java:78-94 | a request is accepted if and only if the caller is a known, active customer and the policy exists; an unknown caller and a non-customer or inactive caller get their own errors |
| WithdrawalService.RequestWithdrawal | backend/src/main/java/com/insurance/service/WithdrawalService.java:78-104 | an accepted request stores one PENDING withdrawal of the caller's customer for the policy, with no admin and the given time, under the fresh id; a refused one stores nothing |
| WithdrawalService.CheckRequester | backend/src/main/java/com/insurance/service/WithdrawalService.java:80-94 | the checks return the refusal, or the caller's customer id |
| WithdrawalService.DecisionRefusal | backend/src/main/java/com/insurance/service/WithdrawalService.java:108-122 | a decision is accepted if and only if the caller is a known, active admin and the request exists; an unknown caller is Unauthorized on approval but NotFound on rejection; an unknown request is "Withdrawal Request not found" |
| WithdrawalService.RefundQuote | backend/src/main/java/com/insurance/service/WithdrawalService.java:135 | the quoted refund lies between 0 and the amount paid for a penalty between 0 and 100 percent, is the whole amount at 0 and nothing at 100 |
| WithdrawalService.RefundFallsWithPenalty | backend/src/main/java/com/insurance/service/WithdrawalService.java:135 | a higher withdrawal penalty never quotes a larger refund |
| WithdrawalService.ApproveWithdrawal | backend/src/main/java/com/insurance/service/WithdrawalService.java:106-150 | an accepted approval makes the request APPROVED under the caller's admin and its policy CANCELLED, whatever the request's status was, and then fails with a null dereference if no insurance setting exists; a refused one changes nothing |
| WithdrawalService.CancelForWithdrawal | backend/src/main/java/com/insurance/service/WithdrawalService.java:123-127 | the request becomes APPROVED under the admin and only its policy becomes CANCELLED |
| WithdrawalService.CheckDecider | backend/src/main/java/com/insurance/service/WithdrawalService.java:108-122 | the checks return the refusal, or the caller's admin id |
| WithdrawalService.RejectWithdrawal | backend/src/main/java/com/insurance/service/WithdrawalService.java:153-191 | an accepted rejection makes the request REJECTED under the caller's admin and leaves the policy alone; a refused one changes nothing |
| WithdrawalService.ToDto | backend/src/main/java/com/insurance/service/WithdrawalService.java:205-210 | the listing row carries the request's id, customer, policy, date and status and no penalty |
| WithdrawalService.ToDtos | backend/src/main/java/com/insurance/service/WithdrawalService.java:204-212 | one row per request, in order |
| WithdrawalService.AllWithdrawalRequests | backend/src/main/java/com/insurance/service/WithdrawalService.java:194-215 | the paged listing maps the page's content in order and copies the page figures |
| WithdrawalService.AgentDtos | backend/src/main/java/com/insurance/service/WithdrawalService.java:234-243 | each row of the agent's listing is the plain row plus the withdrawal penalty of the policy's scheme |
| WithdrawalService.MyWithdrawals | backend/src/main/java/com/insurance/service/WithdrawalService.java:218-247 | an unknown caller and a caller without an agent record get their errors; an agent always gets the page of rows with the scheme penalties, given that findByAgent pages through that agent's stored requests (RowsOfAgent, the query `wr.policy.agent = :agent`), every listed request is a stored one on a policy the calling agent sold |
| ClaimService.FindDocument | backend/src/main/java/com/insurance/service/ClaimService.java:85 | the document lookup finds a position holding that id, and finds none exactly when no document has it |
| ClaimService.ClaimRefusal | backend/src/main/java/com/insurance/service/ClaimService.java:69-88 | a claim is accepted if and only if the caller is a customer, the policy exists and the document exists; an unknown caller is "User is not available", a non-customer "Customer not found" |
| ClaimService.CheckClaim | backend/src/main/java/com/insurance/service/ClaimService.java:69-88 | the checks return the refusal, or the document's position |
| ClaimService.RequestClaim | backend/src/main/java/com/insurance/service/ClaimService.java:68-102 | an accepted claim is stored PENDING under the fresh id with the policy, the explanation and the one document; nothing else is stored and the document is not linked back |
| ClaimService.RequestClaimLinked | backend/src/main/java/com/insurance/service/ClaimService.java:68-102 | the corrected request also links the document to the new claim, so the claim's document listing shows it |
| ClaimService.SaveLinkedClaim | backend/src/main/java/com/insurance/service/ClaimService.java:90-99 | stores the claim and links only the chosen document to it, after which the claim lists exactly that document |
| ClaimService.Decide | backend/src/main/java/com/insurance/service/ClaimService.java:121-122 | deciding an unknown claim is "Claim not found"; otherwise only that claim's status changes, to the decision |
| ClaimService.LastDecisionWins | backend/src/main/java/com/insurance/service/ClaimService.java:120-150 | approving or rejecting a claim twice leaves the second decision, as if the first had not been made |
| ClaimService.ApproveClaim | backend/src/main/java/com/insurance/service/ClaimService.java:120-144 | an existing claim becomes APPROVED and its policy CLAIMED, whatever its status was, and the call then fails with a null dereference if no insurance setting exists; an unknown claim changes nothing |
| ClaimService.MarkClaimed | backend/src/main/java/com/insurance/service/ClaimService.java:122-124 | the claim becomes APPROVED and only its policy becomes CLAIMED |
| ClaimService.RejectClaim | backend/src/main/java/com/insurance/service/ClaimService.java:147-150 | an existing claim becomes REJECTED and nothing else changes |
| ClaimService.PayoutQuote | backend/src/main/java/com/insurance/service/ClaimService.java:130 | the quoted payout lies between 0 and the investment for a deduction between 0 and 100 percent, is the whole investment at 0 and nothing at 100 |
| ClaimService.ClaimToResponse | backend/src/main/java/com/insurance/service/ClaimService.java:170-178 | the response carries the claim's id, policy, explanation and status and the policy's customer |
| ClaimService.ClaimPage | backend/src/main/java/com/insurance/service/ClaimService.java:108-117 | the page of responses maps each claim in order and keeps the page figures |
| ClaimService.DocumentsOf | backend/src/main/java/com/insurance/service/ClaimService.java:186 | the claim's documents are exactly the stored documents linked to it |
| ClaimService.NewClaimListsNoDocuments | backend/src/main/java/com/insurance/service/ClaimService.java:90-99 | a claim stored by requestClaim lists no document, because nothing links a document to it |
| ClaimService.LinkedClaimListsItsDocument | backend/src/main/java/com/insurance/service/ClaimService.java:90-99 | once the document is linked, the new claim lists exactly that document |
| ClaimService.ToDocumentResponse | backend/src/main/java/com/insurance/service/ClaimService.java:189-193 | the response carries the document's id, name, type and upload date |
| ClaimService.DocumentsByClaimId | backend/src/main/java/com/insurance/service/ClaimService.java:182-198 | an unknown claim is "Claim not found"; otherwise one response per linked document, in store order |
| DashboardService.AgentRefusal | backend/src/main/java/com/insurance/service/DashboardService.java:69-79 | a dashboard figure is served if and only if the caller is a known agent; an unknown caller is "User is not available for token", a non-agent "User is not unauthorized" |
| DashboardService.TotalNonNegative | backend/src/main/java/com/insurance/service/DashboardService.java:81-88 | a sum of non-negative scheme figures over the agent's policies is never negative |
| DashboardService.TotalGrows | backend/src/main/java/com/insurance/service/DashboardService.java:84-86 | selling more policies never lowers the sum of non-negative scheme figures |
| DashboardService.SumFigure | backend/src/main/java/com/insurance/service/DashboardService.java:81-88 | the loop's running total ends as the sum of the figure over the policies in order |
| DashboardService.MyCommissions | backend/src/main/java/com/insurance/service/DashboardService.java:68-89 | a refused caller gets the refusal; an agent gets the sum of the registration commissions of its policies' schemes, summed over a list that holds exactly the policies the agent sold, each once |
| DashboardService.MyPenalties | backend/src/main/java/com/insurance/service/DashboardService.java:92-113 | a refused caller gets the refusal; an agent gets the sum of the withdrawal penalties of its policies' schemes, summed over a list that holds exactly the policies the agent sold, each once |
| DashboardService.Elements | backend/src/main/java/com/insurance/service/DashboardService.java:145-146 | the set of listed ids holds exactly the ids in the list |
| DashboardService.DistinctListSize | backend/src/main/java/com/insurance/service/DashboardService.java:145-146 | a list without repeats has as many entries as its set |
| DashboardService.SoldCountsAgentPolicies | backend/src/main/java/com/insurance/service/DashboardService.java:145-146 | the repository's list of the agent's policies holds exactly the policies the agent sold, and its size is their number |
| DashboardService.SoldPolicies | backend/src/main/java/com/insurance/service/DashboardService.java:133-148 | a refused caller gets the refusal; an agent gets the number of its policies |
| DashboardService.ApprovedOfAgent | backend/src/main/java/com/insurance/service/DashboardService.java:128 | the counted withdrawals are exactly the APPROVED requests on policies the agent sold |
| DashboardService.CancelledPolicies | backend/src/main/java/com/insurance/service/DashboardService.java:116-130 | a refused caller gets the refusal; an agent gets the number of APPROVED withdrawals on its policies |
| DashboardService.ApprovalCountsOnce | backend/src/main/java/com/insurance/service/WithdrawalService.java:123-127 | approving a withdrawal on an agent's policy raises that agent's cancelled count by one if the request was not yet APPROVED and leaves it unchanged if it was |
| StateService.CreateState | backend/src/main/java/com/insurance/service/StateService.java:49-56 | the mapped state is stored under the fresh id, nothing else changes, and the reply is "State Added Successfully" |
| StateService.StateById | backend/src/main/java/com/insurance/service/StateService.java:59-71 | a response with the state's id, name and flag exactly when the id is stored; null (None) otherwise |
| StateService.HasActiveCity | backend/src/main/java/com/insurance/service/StateService.java:96-101 | the loop reports an active city if and only if one of the state's cities is active |
| StateService.DeactivateRefusal | backend/src/main/java/com/insurance/service/StateService.java:91-112 | deactivation is allowed if and only if the state exists, is active and has no active city; the missing state is "State Not Found with id: "+id |
| StateService.DeactivateState | backend/src/main/java/com/insurance/service/StateService.java:91-112 | an allowed deactivation clears only that state's flag and replies "State deactivated successfully"; a refused one changes nothing |
| StateService.ActivateCitiesOf | backend/src/main/java/com/insurance/service/StateService.java:120-123 | every city of the state becomes active, other cities keep their flag, and no name or state link changes |
| StateService.ActivateRefusal | backend/src/main/java/com/insurance/service/StateService.java:115-134 | activation is allowed if and only if the state exists and is inactive, with "State Not Found with ID: "+id and "State is already active with id: "+id as the refusals |
| StateService.ActivateState | backend/src/main/java/com/insurance/service/StateService.java:115-134 | an allowed activation activates the state and all its cities; a refused one changes nothing |
| StateService.ActivatedStateKeepsItsCities | backend/src/main/java/com/insurance/service/StateService.java:96-123 | right after a state with a city is activated it cannot be deactivated, because its cities were activated with it |
| StateService.UpdateRefusal | backend/src/main/java/com/insurance/service/StateService.java:137-151 | an update is allowed if and only if the state exists and is active, with "State Not Found with Id: "+id and "State is inactive with id: "+id as the refusals |
| StateService.UpdateState | backend/src/main/java/com/insurance/service/StateService.java:137-151 | an allowed update renames only that state; a refused one changes nothing |
| StateService.FilterCities | backend/src/main/java/com/insurance/service/StateService.java:167-170 | the kept cities are exactly those whose id, name or state name contains the lower-cased query, a sub-multiset of the input |
| StateService.EmptyQueryKeepsAll | backend/src/main/java/com/insurance/service/StateService.java:167-170 | an empty query keeps every city, in order |
| StateService.OrderOf | backend/src/main/java/com/insurance/service/StateService.java:173-178 | "cityId" and "name" (any case) pick the sort key, with cityId checked first; "DESC" (any case) reverses |
| StateService.DescendingReverses | backend/src/main/java/com/insurance/service/StateService.java:178 | a descending comparison is the ascending comparison with the arguments swapped |
| StateService.CityCompareAntisymmetric | backend/src/main/java/com/insurance/service/StateService.java:171-179 | swapping two cities negates their comparison |
| StateService.CityCompareTransitive | backend/src/main/java/com/insurance/service/StateService.java:171-179 | the comparison is transitive, so it is a valid sort order |
| StateService.InsertCity | backend/src/main/java/com/insurance/service/StateService.java:171-180 | inserting a city adds exactly that city to the multiset |
| StateService.SortCities | backend/src/main/java/com/insurance/service/StateService.java:171-180 | sorting is a permutation |
| StateService.AppendKeepsOrder | backend/src/main/java/com/insurance/service/StateService.java:171-180 | a city not below the last one extends a sorted list in order |
| StateService.InsertedBeforeLast | backend/src/main/java/com/insurance/service/StateService.java:171-180 | inserting a city below the last keeps every entry at or below that last one |
| StateService.InsertKeepsOrder | backend/src/main/java/com/insurance/service/StateService.java:171-180 | insertion keeps a sorted list sorted |
| StateService.SortedInOrder | backend/src/main/java/com/insurance/service/StateService.java:171-180 | the sorted list is in the chosen order |
| StateService.OtherKeysKeepOrder | backend/src/main/java/com/insurance/service/StateService.java:171-179 | with any other sortBy every comparison is 0 and the stable sort keeps the list as it was |
| StateService.OffsetWraps | backend/src/main/java/com/insurance/service/StateService.java:182-184 | as written, page 2147483647 of size 2 throws and page 613566757 of size 7 serves rows 3 to 10 of ten |
| StateService.Slice | backend/src/main/java/com/insurance/service/StateService.java:182-183 | the page bounds lie within the list and span at most one page |
| StateService.SliceAgreesWithoutOverflow | backend/src/main/java/com/insurance/service/StateService.java:182-184 | whenever page×size+size fits an int, the code as written computes exactly the exact bounds |
| StateService.Arranged | backend/src/main/java/com/insurance/service/StateService.java:167-180 | the filtered and sorted list is a permutation of the filtered cities |
| StateService.RowsOf | backend/src/main/java/com/insurance/service/StateService.java:165 | the state's cities become rows in the order the state lists them |
| StateService.PageOf | backend/src/main/java/com/insurance/service/StateService.java:182-184 | the page is the slice between the computed bounds, at most size rows |
| StateService.CityResponses | backend/src/main/java/com/insurance/service/StateService.java:188-190 | one response per city of the page, in order, each mapped with the state |
| StateService.CitiesByState | backend/src/main/java/com/insurance/service/StateService.java:154-195 | an unknown state is "State not found"; then a negative page or a size below one is PageRequest.of's refusal; otherwise the page of the filtered, sorted cities, cut at the exact offset page×size (the corrected slice), with the total count, page and size |
| StateService.CitiesByStateMatchesCodeWithinInt | backend/src/main/java/com/insurance/service/StateService.java:182-184 | while page×size + size fits in an int, the listing serves exactly the rows between the bounds the code as written computes with its `(int)` offset |
| StateService.ListedCitiesMatchAndAreOrdered | backend/src/main/java/com/insurance/service/StateService.java:165-184 | every listed city belongs to the state, matches the query, and the page is in the chosen order |
| StateService.RowsAreStateCities | backend/src/main/java/com/insurance/service/StateService.java:165 | every row built from the state's city list is a stored city of that state |
| CityService.CreateRefusal | backend/src/main/java/com/insurance/service/CityService.java:54-70 | a city can be created if and only if its state exists and is active; the two refusals carry the source's messages |
| CityService.CreateCity | backend/src/main/java/com/insurance/service/CityService.java:54-70 | an allowed creation stores an active city of that state under the fresh id and replies "City Added Successfully"; a refused one stores nothing |
| CityService.DeactivateRefusal | backend/src/main/java/com/insurance/service/CityService.java:73-97 | deactivation is allowed if and only if the city exists, is active and has neither an active customer nor an active agent; customers are checked before agents, and both before the city's own flag |
| CityService.DeactivateCity | backend/src/main/java/com/insurance/service/CityService.java:73-97 | an allowed deactivation clears only that city's flag; a refused one changes nothing |
| CityService.DeactivationKeepsResidentsHoused | backend/src/main/java/com/insurance/service/CityService.java:78-85 | if every active customer and agent lives in an active city, that stays true after any allowed deactivation |
| CityService.CityById | backend/src/main/java/com/insurance/service/CityService.java:101-111 | a response with the city's id, name, flag and its state's name exactly when the city exists; otherwise "City not found with ID: {}"+id |
| CityService.ActivateRefusal | backend/src/main/java/com/insurance/service/CityService.java:114-129 | activation is allowed if and only if the city exists and is inactive |
| CityService.ActivateCity | backend/src/main/java/com/insurance/service/CityService.java:114-129 | an allowed activation sets only that city's flag; a refused one changes nothing |
| CityService.ActivateUndoesDeactivate | backend/src/main/java/com/insurance/service/CityService.java:73-129 | after an allowed deactivation the city can be activated again, and that restores the cities exactly |
| CityService.UpdateRefusal | backend/src/main/java/com/insurance/service/CityService.java:147-170 | an update is allowed if and only if the city exists and is active and the target state exists and is active, with the refusals in the source's order |
| CityService.UpdateCity | backend/src/main/java/com/insurance/service/CityService.java:147-170 | an allowed update sets only that city's name and state; a refused one changes nothing |
| AdminService.RegisterAdminSpec | backend/src/main/java/com/insurance/service/AdminService.java:120-152 | registration succeeds if and only if the username and the email are free and ROLE_ADMIN exists, in that order of refusal; the new user is active with the admin role, the request's username and email and the encoded password, and the admin points at it |
| AdminService.RegisterAdmin | backend/src/main/java/com/insurance/service/AdminService.java:120-173 | a successful registration adds exactly the new user and admin under the fresh ids; a refused one changes nothing |
| AdminService.UpdateAdmin | backend/src/main/java/com/insurance/service/AdminService.java:195-215 | an unknown admin is "Admin not found with id: "+id with nothing changed; otherwise only the admin's name and phone and its user's email, username and encoded password change, without any duplicate check |
| AdminService.SetAdminActiveSpec | backend/src/main/java/com/insurance/service/AdminService.java:218-253 | setting the flag fails if and only if the admin is unknown or its user already has that flag; otherwise only that user's flag changes |
| AdminService.DeleteThenActivateRestores | backend/src/main/java/com/insurance/service/AdminService.java:218-253 | deleting an admin and then activating it restores the users exactly |
| AdminService.DeleteAdmin | backend/src/main/java/com/insurance/service/AdminService.java:218-234 | deactivates the admin's user as specified and replies "Admin successfully deleted", or changes nothing |
| AdminService.ActivateAdmin | backend/src/main/java/com/insurance/service/AdminService.java:237-253 | activates the admin's user as specified and replies "Admin successfully activated", or changes nothing |
| AdminService.GetLastTaxSetting | backend/src/main/java/com/insurance/service/AdminService.java:284-295 | the latest tax setting's percentage, or null exactly when there is none |
| AdminService.GetLastInsuranceSetting | backend/src/main/java/com/insurance/service/AdminService.java:310-320 | the latest insurance setting, or null exactly when there is none |
| AdminService.NewestSettingWins | backend/src/main/java/com/insurance/service/AdminService.java:274-295 | after a tax setting is created it is the one served |
| CustomerService.RegisterRefusal | backend/src/main/java/com/insurance/service/CustomerService.java:97-132 | registration is allowed if and only if the username and email are free, ROLE_CUSTOMER exists and the city exists; a taken username is refused first, with the username appended to the message, then a taken email |
| CustomerService.ReferringAgent | backend/src/main/java/com/insurance/service/CustomerService.java:87-129 | a customer registered with a token is linked to an agent exactly when the token's user is an agent whose user is active |
| CustomerService.FindReferringAgent | backend/src/main/java/com/insurance/service/CustomerService.java:87-129 | the lookup of the token's agent returns the agent ReferringAgent names |
| CustomerService.NewCustomerUser | backend/src/main/java/com/insurance/service/CustomerService.java:105-117 | the new login is active, has the customer role, the request's username and email and the encoded password |
| CustomerService.NewCustomer | backend/src/main/java/com/insurance/service/CustomerService.java:119-141 | the new customer starts pending and unverified, with the request's fields, the new user and the referring agent |
| CustomerService.RegisterCustomer | backend/src/main/java/com/insurance/service/CustomerService.java:85-158 | an allowed registration adds exactly the new user and customer under the fresh ids and replies "Customer created successfully!"; a refused one changes nothing |
| CustomerService.UpdateUserRefusal | backend/src/main/java/com/insurance/service/CustomerService.java:186-201 | an update is refused if and only if it changes the username to a taken one or the email to a taken one |
| CustomerService.UpdatedUser | backend/src/main/java/com/insurance/service/CustomerService.java:186-214 | each given login field replaces the old one, an empty or missing password keeps the old hash, role and flag are kept |
| CustomerService.UpdatedCustomer | backend/src/main/java/com/insurance/service/CustomerService.java:216-250 | each given profile field replaces the old one, a missing one keeps it; owner, agent, verifier and status are kept |
| CustomerService.UpdateIsIdempotent | backend/src/main/java/com/insurance/service/CustomerService.java:182-253 | applying the same update twice is the same as applying it once, and the second application is never refused |
| CustomerService.UpdateCustomer | backend/src/main/java/com/insurance/service/CustomerService.java:182-253 | an unknown customer is "Customer not found with id: "+id; a refusal changes nothing; otherwise only that customer and its user change as specified and the reply is "Customer updated successfully!" |
| CustomerService.SetCustomerActiveSpec | backend/src/main/java/com/insurance/service/CustomerService.java:256-293 | an unknown customer is the only failure; an already matching flag gives the "already" message and changes nothing, otherwise only the user's flag changes |
| CustomerService.SetCustomerActiveIdempotent | backend/src/main/java/com/insurance/service/CustomerService.java:256-293 | after setting the flag, setting it again changes nothing and answers with the "already" message |
| CustomerService.SetCustomerActive | backend/src/main/java/com/insurance/service/CustomerService.java:256-293 | the store moves as SetCustomerActiveSpec says and the reply is its message |
| CustomerService.VerifyRefusal | backend/src/main/java/com/insurance/service/CustomerService.java:296-372 | verification needs a token user that is an employee and a known customer; the refusals are "User is not available for token", "Employee not found" and "Customer not found", in that order |
| CustomerService.Verified | backend/src/main/java/com/insurance/service/CustomerService.java:312-369 | the verified customer is approved or rejected and records the verifying employee, keeping every other field |
| CustomerService.VerifyCustomer | backend/src/main/java/com/insurance/service/CustomerService.java:296-372 | an allowed verification changes only that customer and answers "Customer approved Successfully" or "Customer rejected!!"; a refused one changes nothing |
| CustomerService.RejectedCustomerCannotPostQuery | backend/src/main/java/com/insurance/service/CustomerService.java:334-372 | after a rejection the customer's queries are refused |
| CustomerService.CustomerById | backend/src/main/java/com/insurance/service/CustomerService.java:406-413 | the customer's form fields with its login's username and email, or "customer not found with ID: "+id exactly when it is unknown |
| AgentService.RegisterRefusal | backend/src/main/java/com/insurance/service/AgentService.java:82-122 | registration is allowed if and only if the token names a user, the username and email are free, ROLE_AGENT exists and the city exists, refused in that order with the source's messages |
| AgentService.RoleTestsIgnoreCase | backend/src/main/java/com/insurance/service/AgentService.java:125-132 | the admin and employee tests compare the role name ignoring case, and no role passes both |
| AgentService.CreatedBy | backend/src/main/java/com/insurance/service/AgentService.java:125-132 | an admin creator gives "Admin: "+id, an employee creator "Employee: "+id, any other role no creator; an admin or employee role without a profile throws |
| AgentService.FindCreatedBy | backend/src/main/java/com/insurance/service/AgentService.java:125-132 | the lookup of the creator returns what CreatedBy says |
| AgentService.NewAgentUser | backend/src/main/java/com/insurance/service/AgentService.java:98-111 | the new login is active, has the agent role, the request's username and email and the encoded password |
| AgentService.NewAgent | backend/src/main/java/com/insurance/service/AgentService.java:114-132 | the new agent has the request's name, phone, address and city, the new user and the creator |
| AgentService.RegisterAgent | backend/src/main/java/com/insurance/service/AgentService.java:82-152 | an allowed registration adds exactly the new user and agent and replies "Agent created successfully!"; a refusal or a failed creator lookup changes nothing |
| AgentService.UpdatedAgent | backend/src/main/java/com/insurance/service/AgentService.java:178-195 | the agent takes the request's name, address, phone and city and keeps its user and creator |
| AgentService.UpdatedAgentUser | backend/src/main/java/com/insurance/service/AgentService.java:178-195 | the login takes the request's username and email and keeps its password, role and flag |
| AgentService.UpdateAgent | backend/src/main/java/com/insurance/service/AgentService.java:173-200 | "Agent not found" or "City is not available" change nothing; otherwise only that agent and its user change and the reply is "Agent updated" |
| AgentService.UpdateAllowsDuplicateUsername | backend/src/main/java/com/insurance/service/AgentService.java:173-200 | the update does not check for duplicates: two logins can end with the same username |
| AgentService.SetAgentActiveSpec | backend/src/main/java/com/insurance/service/AgentService.java:203-236 | the flag changes if and only if the agent exists and its user's flag differs; otherwise "Agent not found" or the "already" message |
| AgentService.DeleteThenActivateRestores | backend/src/main/java/com/insurance/service/AgentService.java:203-236 | deleting an active agent and activating it again restores the users exactly |
| AgentService.DeletedAgentRefersNobody | backend/src/main/java/com/insurance/service/AgentService.java:203-217 | after its deletion an agent no longer becomes the referring agent of customers registered with its token |
| AgentService.SetAgentActive | backend/src/main/java/com/insurance/service/AgentService.java:203-236 | the store moves as SetAgentActiveSpec says and the reply is "Agent successfully deleted" or "Agent successfully activated" |
| AgentService.AgentById | backend/src/main/java/com/insurance/service/AgentService.java:239-245 | the agent's response, with its address joined to its city and state names, or "Agent not found with ID: "+id exactly when it is unknown |
| InsurancePlanService.CreatePlan | backend/src/main/java/com/insurance/service/InsurancePlanService.java:46-60 | an unknown scheme is "Insurance Scheme not found" with nothing stored; otherwise the plan mapped from the request is stored under the fresh id for that scheme |
| InsurancePlanService.UpdatedPlan | backend/src/main/java/com/insurance/service/InsurancePlanService.java:73-80 | the updated plan is exactly the request's plan for the same scheme |
| InsurancePlanService.UpdatePlan | backend/src/main/java/com/insurance/service/InsurancePlanService.java:63-88 | an unknown scheme changes nothing; a scheme without a plan throws; otherwise only the scheme's plan is replaced and the reply is "Insurance Plan Updated/Created" |
| InsurancePlanService.UpdateMatchesCreate | backend/src/main/java/com/insurance/service/InsurancePlanService.java:46-88 | an update leaves the plan that creating it from the same request would give, it is still the scheme's plan, and updating again changes nothing |
| InsurancePlanService.SetPlanActiveSpec | backend/src/main/java/com/insurance/service/InsurancePlanService.java:93-132 | the flag changes if and only if the plan exists and its flag differs; the not-found and already messages differ between activation and deletion as in the source |
| InsurancePlanService.DeleteThenActivateRestores | backend/src/main/java/com/insurance/service/InsurancePlanService.java:93-132 | deactivating an active plan and activating it again restores the plans exactly |
| InsurancePlanService.SetPlanActive | backend/src/main/java/com/insurance/service/InsurancePlanService.java:93-132 | the store moves as SetPlanActiveSpec says and the reply is "Insurance Plan Activated" or "Insurance Plan Deactivated" |
| InsurancePlanService.PlanOfScheme | backend/src/main/java/com/insurance/service/InsurancePlanService.java:152-166 | an unknown scheme is "Insurance Scheme not found"; a scheme without a plan is null; otherwise the response of its plan |
| InsurancePlanService.CreatedPlanIsServed | backend/src/main/java/com/insurance/service/InsurancePlanService.java:46-60 | after a plan is created for a scheme that had none, it is the scheme's only plan and the one served |
| QueryService.AddQueryRefusal | backend/src/main/java/com/insurance/service/QueryService.java:54-68 | a query is accepted if and only if the token names a customer that is not rejected; otherwise "User is not available for token", "Customer not found" or "Sorry you cannot post query", in that order |
| QueryService.NewQuery | backend/src/main/java/com/insurance/service/QueryService.java:69-76 | a new query is pending, unanswered, of the caller's customer, with the request's subject and message and the submission time |
| QueryService.AddQuery | backend/src/main/java/com/insurance/service/QueryService.java:54-79 | an accepted query is stored under the fresh id with "Query Submitted Succussfully"; a refused one stores nothing |
| QueryService.Respond | backend/src/main/java/com/insurance/service/QueryService.java:93-99 | a response marks the query responded and records the text and the employee, keeping the customer's fields |
| QueryService.LastResponseWins | backend/src/main/java/com/insurance/service/QueryService.java:83-104 | answering twice leaves only the second answer and its employee |
| QueryService.ResponseRefusal | backend/src/main/java/com/insurance/service/QueryService.java:83-104 | a response is accepted if and only if the token names an employee and the query exists, refused with the source's messages in order |
| QueryService.AddResponse | backend/src/main/java/com/insurance/service/QueryService.java:83-104 | an accepted response changes only that query and replies "Response Submitted Succussfully"; a refused one changes nothing |
| QueryService.AllQueries | backend/src/main/java/com/insurance/service/QueryService.java:108-126 | a non-empty search text serves the searched page, otherwise the whole page; each entry is mapped in order and the page's numbers are passed through |
| Mappers.SchemeRequestToScheme | backend/src/main/java/com/insurance/util/Mappers.java:70-85 | an unknown type is "Insurance Type not found"; otherwise an active scheme of that type carrying the request's fields |
| Mappers.TypeRequestToType | backend/src/main/java/com/insurance/util/Mappers.java:190-196 | a new type is active and carries the requested name |
| Mappers.PlanRoundTrip | backend/src/main/java/com/insurance/util/Mappers.java:99-129 | the response of a plan built from a request gives the request's fields back, with the scheme it was built for |
| Mappers.StateRequestToState | backend/src/main/java/com/insurance/util/Mappers.java:131-136 | a new state is active and carries the requested name |
| Mappers.StateToResponse | backend/src/main/java/com/insurance/util/Mappers.java:138-146 | the response carries the state's id, name and flag |
| Mappers.CityRequestToCity | backend/src/main/java/com/insurance/util/Mappers.java:148-157 | an unknown state is "Invalid state ID"; otherwise an active city of that state with the requested name |
| Mappers.CityToResponse | backend/src/main/java/com/insurance/util/Mappers.java:159-166 | the response carries the city's id, name and flag and its state's name |
| Mappers.AgentAddress | backend/src/main/java/com/insurance/util/Mappers.java:176-188 | the agent's address is followed by the city and the state, separated by two commas and spaces |
| Mappers.AgentToResponse | backend/src/main/java/com/insurance/util/Mappers.java:176-188 | the response carries the login's flag, username and email, the joined address, the city and the creator |
| Mappers.AdminToResponse | backend/src/main/java/com/insurance/util/Mappers.java:198-207 | the response carries the admin's id, name and phone and its login's flag, username and email |
| Mappers.PolicyToResponse | backend/src/main/java/com/insurance/util/Mappers.java:209-220 | the response carries the policy's id, term, amount, interval, status and dates |
| Mappers.PolicyToCommission | backend/src/main/java/com/insurance/util/Mappers.java:222-233 | the commission is the scheme's registration commission truncated to an int, for the policy's id and plan |
| Mappers.TransactionToResponse | backend/src/main/java/com/insurance/util/Mappers.java:235-242 | the response carries the transaction's id, policy, amount, date and status |
| Mappers.QueryToResponse | backend/src/main/java/com/insurance/util/Mappers.java:244-256 | the response carries the query's id, customer and status, and names an employee exactly when one answered |
| Mappers.IdOrNotAvailable | backend/src/main/java/com/insurance/util/Mappers.java:258-278 | a missing agent or verifier is shown as "N/A" |
| Mappers.CustomerToResponse | backend/src/main/java/com/insurance/util/Mappers.java:258-278 | the listing shows the verifier and agent or "N/A", the login's flag and the status name |
| Mappers.CustomerToResponseForUpdate | backend/src/main/java/com/insurance/util/Mappers.java:280-303 | the form shows the verifier and agent or "N/A", the city, the birth date and the username |
| Mappers.CustomerViewsAgree | backend/src/main/java/com/insurance/util/Mappers.java:258-303 | both customer views show the same verifier and agent, and "N/A" exactly when none is set |
| PdfGenerator.ColumnMax | backend/src/main/java/com/insurance/util/PdfGenerator.java:76-84 | a column's width is at least its header's length and at least the length of each cell in it |
| PdfGenerator.ColumnMaxAttained | backend/src/main/java/com/insurance/util/PdfGenerator.java:76-84 | a column's width is the length of its header or of one of its cells |
| PdfGenerator.ColumnMaxes | backend/src/main/java/com/insurance/util/PdfGenerator.java:74-84 | one width per header, each that column's ColumnMax |
| PdfGenerator.Widths | backend/src/main/java/com/insurance/util/PdfGenerator.java:86-94 | each column's percentage is its length over the total times 100; a zero total gives NaN for every column |
| PdfGenerator.WidthsSumTo100 | backend/src/main/java/com/insurance/util/PdfGenerator.java:86-94 | with a positive total the percentages add up to 100 |
| PdfGenerator.PrefixPercents | backend/src/main/java/com/insurance/util/PdfGenerator.java:86-94 | the first k percentages add up to the first k lengths' share of the total |
| PdfGenerator.MaxColumnLengths | backend/src/main/java/com/insurance/util/PdfGenerator.java:74-84 | the array of widths is ColumnMaxes, or an index-out-of-bounds failure exactly when a row is longer than the headers |
| PdfGenerator.MergeRow | backend/src/main/java/com/insurance/util/PdfGenerator.java:81-83 | each cell of the row raises its column's width to the cell's length when longer, and no other entry changes |
| PdfGenerator.TotalLength | backend/src/main/java/com/insurance/util/PdfGenerator.java:87-90 | the total is the sum of the widths |
| PdfGenerator.CalculateColumnWidths | backend/src/main/java/com/insurance/util/PdfGenerator.java:73-97 | the returned percentages are Widths of ColumnMaxes, or the same failure when a row is longer than the headers |
| PdfGenerator.ExtendColumnMax | backend/src/main/java/com/insurance/util/PdfGenerator.java:80-84 | adding a row to the scanned rows raises a column's width exactly as MergeRow does |
| PdfGenerator.PdfFileName | backend/src/main/java/com/insurance/util/PdfGenerator.java:21 | the path is the directory, a slash, the file name and ".pdf" |
| PdfGenerator.PdfFileNamesDistinct | backend/src/main/java/com/insurance/util/PdfGenerator.java:21 | different file names in one directory give different paths |
| TableData.RenderCell | frontend/src/sharedComponents/TableData.js:46-50 | an object cell shows its JSON text, a boolean shows "YES" or "NO", and anything else is shown as it is |
| TableData.ActionColumns | frontend/src/sharedComponents/TableData.js:32-38 | the Payment column appears exactly on the installment table, Claim exactly on the policy table, and Edit and Status together exactly on neither |
| TableData.RenderTable | frontend/src/sharedComponents/TableData.js:19-52 | "No data available" exactly for missing or empty data; otherwise the first row's keys are the headers and every row has one rendered cell per header |
| TableData.ClaimedPolicyStillPayable | frontend/src/sharedComponents/TableData.js:80-100 | an APPROVED_CLAIM policy can no longer be claimed but can still be withdrawn and paid; whatever disables Withdraw disables Claim, and Withdraw and Installment are disabled together |
| TableData.ActionFor | frontend/src/sharedComponents/TableData.js:108-136 | a row shows a receipt exactly when its status is "succeeded", an enabled Payment for its amount exactly when it is the next pending installment and not succeeded, and a disabled Payment otherwise |
| TableData.AtMostOnePayable | frontend/src/sharedComponents/TableData.js:120-129 | among rows with distinct installment ids at most one Payment button is enabled |
| TableData.ScheduleHasAtMostOnePayable | frontend/src/sharedComponents/TableData.js:120-129 | the installment page's schedule has distinct ids, so at most one of its Payment buttons is enabled |
| TableData2.Without | frontend/src/sharedComponents/TableData2.js:18-19 | filtering a key out keeps exactly the other keys, in order |
| TableData2.Headers | frontend/src/sharedComponents/TableData2.js:18-19 | the headers never include "active", include "agent" exactly when the table is not the Client table and the data has it, and include every other key of the first row |
| TableData2.ExtraHeaders | frontend/src/sharedComponents/TableData2.js:29-31 | "View Details", "Update" and "Action" appear exactly when their handlers are given, "Action" needing both activate and deactivate |
| TableData2.RenderCell | frontend/src/sharedComponents/TableData2.js:40-43 | an object cell shows its JSON text and anything else is shown as it is, booleans included |
| TableData2.IdField | frontend/src/sharedComponents/TableData2.js:47-188 | the eight entity tables have an id field and an activate/deactivate button; the others do not |
| TableData2.ViewText | frontend/src/sharedComponents/TableData2.js:47-213 | the tables with a details button are the seven that have one, Admin and Employee excluded |
| TableData2.DecisionButtons | frontend/src/sharedComponents/TableData2.js:189-232 | a PENDING withdrawal or claim shows Reject and Approve on its id; any other shows one disabled button reading APPROVED for an approved row and REJECTED otherwise |
| TableData2.ToggleButton | frontend/src/sharedComponents/TableData2.js:57-64 | a truthy active flag shows Deactivate, anything else Activate, both on the row's id |
| TableData2.RowButtons | frontend/src/sharedComponents/TableData2.js:47-233 | withdrawal and claim rows get the decision buttons, claims after a "View Documents" button when one is given; entity rows end with their toggle; other tables get no buttons |
| TableData2.Render | frontend/src/sharedComponents/TableData2.js:7-45 | "No data is present." exactly for missing or empty data; otherwise the filtered headers and one cell per header in every row |
| TableData2.ToggleSwaps | frontend/src/sharedComponents/TableData2.js:57-187 | flipping a row's active flag swaps its toggle between Activate and Deactivate |
| ViewInstallments.GetInterval | frontend/src/components/customerPages/ViewInstallments.js:106-117 | the three interval names give 4, 2 and 1 installments a year and any other text gives 0 |
| ViewInstallments.OrElse | frontend/src/components/customerPages/ViewInstallments.js:80-83 | an empty field is replaced by the fallback, a non-empty one kept |
| ViewInstallments.ToFixed2 | frontend/src/components/customerPages/ViewInstallments.js:79 | the installment amount is shown rounded to the nearest cent |
| ViewInstallments.FirstPending | frontend/src/components/customerPages/ViewInstallments.js:88-89 | the id of the first PENDING row, or null exactly when no row is PENDING |
| ViewInstallments.BuildInstallments | frontend/src/components/customerPages/ViewInstallments.js:63-94 | the loop builds exactly the schedule Schedule describes, or none when the policy does not allow one |
| ViewInstallments.FindNextPending | frontend/src/components/customerPages/ViewInstallments.js:88-89 | the search returns FirstPending of the rows |
| ViewInstallments.InstallmentTable.constructor | frontend/src/components/customerPages/ViewInstallments.js:25-33 | the page starts with no rows and no next pending installment |
| ViewInstallments.InstallmentTable.GenerateInstallments | frontend/src/components/customerPages/ViewInstallments.js:57-94 | with a schedule the page's rows become it and the next pending id is its first PENDING row; without one the page keeps its state |
| ViewInstallments.BuildsIffKnownIntervalPositiveTermNonZeroTotal | frontend/src/components/customerPages/ViewInstallments.js:64-68 | a schedule is built if and only if the interval is known, the term is positive and the total is non-zero |
| ViewInstallments.ScheduleShape | frontend/src/components/customerPages/ViewInstallments.js:69-85 | the schedule has term times interval rows, numbered from 1, each showing the share of the total and the transaction at its position or the defaults |
| ViewInstallments.ExtraTransactionsIgnored | frontend/src/components/customerPages/ViewInstallments.js:72-74 | transactions beyond the number of installments do not change the schedule |
| ViewInstallments.AppendingTransactionsKeepsEarlierRows | frontend/src/components/customerPages/ViewInstallments.js:72-84 | new transactions do not change the rows already paired with earlier ones |
| ViewInstallments.NextPendingAfterSettledPrefix | frontend/src/components/customerPages/ViewInstallments.js:72-89 | when every transaction has a non-empty status other than PENDING, the next pending installment is the one after the last transaction, or none when all are taken |
| PoliciesGraph.PaymentIntervalValue | frontend/src/components/customerPages/CustomerPoliciesGraph.js:39-50 | the lower-cased interval decides: half_yearly gives 2, quarterly 4, anything else, a missing one included, 1 |
| PoliciesGraph.KnownNamesLowerCase | frontend/src/components/customerPages/CustomerPoliciesGraph.js:39-50 | the backend's three interval names give 1, 2 and 4 |
| PoliciesGraph.PerInstallment | frontend/src/components/customerPages/CustomerPoliciesGraph.js:76-78 | with installments the amount is the exact share of the total, otherwise 0 |
| PoliciesGraph.InstallmentsPaid | frontend/src/components/customerPages/CustomerPoliciesGraph.js:80-82 | the number of whole installments the amount paid covers when both are positive, otherwise 0 |
| PoliciesGraph.ChartFor | frontend/src/components/customerPages/CustomerPoliciesGraph.js:84-88 | max(1, installments paid) points labelled "Installment i", point i at i installments' amount |
| PoliciesGraph.Max1 | frontend/src/components/customerPages/CustomerPoliciesGraph.js:84 | at least 1 and at least the count, equal to one of them |
| PoliciesGraph.SeriesNonDecreasing | frontend/src/components/customerPages/CustomerPoliciesGraph.js:85 | with a non-negative installment the cumulative amounts never decrease |
| PoliciesGraph.RenderGraph | frontend/src/components/customerPages/CustomerPoliciesGraph.js:54-74 | "No Data Available" exactly for an empty list; otherwise one chart per policy, in order |
| Validation.ToNumber | frontend/src/utils/helpers/Validation.js:40 | Number() of a number is itself, of a string whatever the string parses to, and of undefined, NaN or an object NaN |
| Validation.ToText | frontend/src/utils/helpers/Validation.js:60 | the text a regular expression tests: a string is itself, and only a number has no fixed text in the model |
| Validation.IntText | frontend/src/utils/helpers/Validation.js:53 | an integer bound is written in decimal, with a minus sign when negative |
| Validation.OnlyPositive | frontend/src/utils/helpers/Validation.js:39-45 | the empty string exactly when the value converts to a positive number; "Value must be a positive number" otherwise |
| Validation.IsInRange | frontend/src/utils/helpers/Validation.js:48-56 | "Must be a number" when the value is not a number; otherwise undefined exactly when it lies between the bounds inclusive, and "Must be between min and max" when not |
| Validation.IsAlphaWithSpace | frontend/src/utils/helpers/Validation.js:59-64 | undefined exactly when the text is non-empty and only letters and whitespace; the error message otherwise |
| Validation.MissingValueIsAlpha | frontend/src/utils/helpers/Validation.js:59-64 | an undefined value passes, because the regular expression tests the text "undefined" |
| Validation.GreaterThan | frontend/src/utils/helpers/Validation.js:67-72 | the min/max message exactly when the first value is greater by JavaScript's comparison (objects made primitive first, text against text when both are then strings), undefined otherwise |
| Validation.ToPrimitive | frontend/src/utils/helpers/Validation.js:67-72 | the `>` operator sees a plain object as its text "[object Object]" and every primitive unchanged |
| Validation.ObjectComparesAsText | frontend/src/utils/helpers/Validation.js:67-72 | an object compared with a string, either way round, is a text comparison against "[object Object]" |
| Validation.EqualBoundsPass | frontend/src/utils/helpers/Validation.js:67-72 | equal minimum and maximum always pass |
| Validation.GreaterThanComparesText | frontend/src/utils/helpers/Validation.js:67-72 | on form strings "9" is taken as greater than "10", and "10" as not greater than "9" |
| Validation.GreaterThanNumbers | frontend/src/utils/helpers/Validation.js:67-72 | the intended check: the message exactly when both values are numbers and the first is larger |
| Validation.NumericGreaterThanOrdersNumbers | frontend/src/utils/helpers/Validation.js:67-72 | the numeric check orders "9" and "10" correctly and agrees with the source on number values |
| Validation.PassingChecksFallThrough | frontend/src/utils/helpers/Validation.js:39-64 | chaining with \|\| skips a passing check, since its empty string or undefined is falsy, and stops at a failing one |
| ForgotPassword.FormatTime | frontend/src/components/ForgotPassword.js:30-34 | minutes, a colon and two digits of seconds, all digits except the colon |
| ForgotPassword.NatToStringReadsBack | frontend/src/components/ForgotPassword.js:30-34 | reading a number's decimal text back gives the number |
| ForgotPassword.FormatTimeRoundTrip | frontend/src/components/ForgotPassword.js:30-34 | the shown time read back as minutes and seconds is the remaining seconds |
| ForgotPassword.Tick | frontend/src/components/ForgotPassword.js:20-28 | one tick takes a second off and stops at zero |
| ForgotPassword.CountdownFloorsAtZero | frontend/src/components/ForgotPassword.js:20-28 | after k ticks the time left is t − k, or zero once k reaches t |
| ForgotPassword.OtpExpiresAfterTenMinutes | frontend/src/components/ForgotPassword.js:16-28 | the code expires exactly after 600 ticks |
| ForgotPassword.Join | frontend/src/components/ForgotPassword.js:73 | joining single-character boxes gives a code of the same length, and joining digits gives digits |
| ForgotPassword.PasswordResetFlow.constructor | frontend/src/components/ForgotPassword.js:10-18 | the flow starts at the e-mail step with empty fields, four empty boxes, 600 seconds and no focus |
| ForgotPassword.PasswordResetFlow.OnTimer | frontend/src/components/ForgotPassword.js:20-28 | the timer ticks only on the code step |
| ForgotPassword.PasswordResetFlow.SetEmail | frontend/src/components/ForgotPassword.js:121 | the e-mail field takes the typed value |
| ForgotPassword.PasswordResetFlow.SetNewPassword | frontend/src/components/ForgotPassword.js:173 | the new-password field takes the typed value |
| ForgotPassword.PasswordResetFlow.SetConfirmPassword | frontend/src/components/ForgotPassword.js:184 | the confirmation field takes the typed value |
| ForgotPassword.PasswordResetFlow.RequestOtp | frontend/src/components/ForgotPassword.js:36-45 | a sent code moves to the code step with "OTP sent successfully!"; a failure stays and shows the server's message |
| ForgotPassword.PasswordResetFlow.OtpChange | frontend/src/components/ForgotPassword.js:47-58 | a box accepts only digits, and a typed digit moves focus to the next box except on the last one |
| ForgotPassword.PasswordResetFlow.OtpKeyDown | frontend/src/components/ForgotPassword.js:60-64 | keeps the page invariant; Backspace on an empty box that is not the first moves focus back one box, and any other key leaves the focus where it was |
| ForgotPassword.PasswordResetFlow.VerifyOtp | frontend/src/components/ForgotPassword.js:66-79 | an expired code is refused without a request; otherwise the joined code is sent and success moves to the reset step |
| ForgotPassword.PasswordResetFlow.ResetPassword | frontend/src/components/ForgotPassword.js:81-94 | differing passwords are refused without a request; otherwise the e-mail and both passwords are sent and success leads to the login page |
| DownloadName.RunEnd | frontend/src/services/AdminService.js:948 | the capture extends to the first line terminator or the end of the header |
| DownloadName.CaptureAt | frontend/src/services/AdminService.js:948 | a capture is non-empty and has no line terminator; there is none exactly at the end or at a terminator |
| DownloadName.MatchPosition | frontend/src/services/AdminService.js:948 | the leftmost position at or after the start where the whole pattern matches: "filename=" followed by at least one character of the group before a line terminator; none when there is no such position |
| DownloadName.FilenameMatch | frontend/src/services/AdminService.js:948-951 | a captured name is non-empty and on one line |
| DownloadName.FilenameMatchIsLeftmost | frontend/src/services/AdminService.js:948 | the group is the one captured at the leftmost position where the whole pattern matches; an earlier "filename=" with nothing capturable after it on its line is skipped |
| DownloadName.NoMatchKeepsDefault | frontend/src/services/AdminService.js:945-952 | a header without "filename=" keeps the default name |
| DownloadName.QuotedNameKeepsClosingQuote | frontend/src/services/AdminService.js:948-951 | for filename="name" the greedy capture keeps the closing quote: the name is name" |
| DownloadName.RunEndOfClearLine | frontend/src/services/AdminService.js:948 | on a single-line header the capture extends to the end |
| DownloadName.ExtensionFor | frontend/src/services/AdminService.js:956-967 | the first matching test picks .jpeg, .pdf, .png, .doc or .docx; no extension exactly when no test matches |
| DownloadName.HeaderName | frontend/src/services/AdminService.js:944-952 | a missing or empty header keeps the default name |
| DownloadName.WithExtension | frontend/src/services/AdminService.js:955-968 | a name with a dot is kept; otherwise a missing content type fails and a present one adds its extension |
| DownloadName.ExtensionsHaveDot | frontend/src/services/AdminService.js:956-967 | every extension added contains a dot |
| DownloadName.ExtensionStepIdempotent | frontend/src/services/AdminService.js:956-967 | a name that got an extension is left alone by the step the second time |
| DownloadName.FirstTestWins | frontend/src/services/AdminService.js:957-960 | a content type matching both jpg and pdf gives .jpeg |
| DownloadName.DeriveFileName | frontend/src/services/AdminService.js:944-968 | the step-by-step reassignments give Derived of the default, the header and the content type |
| AdminClient.DownloadDocument | frontend/src/services/AdminService.js:929-968 | the document URL, and the name derived from the name shown in the page |
| AdminClient.DownloadPolicyReport | frontend/src/services/AdminService.js:1051-1090 | the report URL, and the name derived from "Report" and the customer id |
| AdminClient.AttachmentHeader | backend/src/main/java/com/insurance/service/PDFService.java:141 | the backend names an attachment as filename="name" |
| AdminClient.ServerNamedReportKeepsQuote | frontend/src/services/AdminService.js:1066-1074 | a report the backend names keeps a trailing quote in the saved name |
| AdminClient.UnnamedReportGetsPdfExtension | frontend/src/services/AdminService.js:1067-1082 | without a header a PDF report is saved as Report<id>.pdf |
| EmployeeClient.Guarded | frontend/src/services/EmployeeService.js:5-7 | without a token the call throws "User is not logged in" and sends nothing; with one it sends the request |
| EmployeeClient.AddAgent | frontend/src/services/EmployeeService.js:4-26 | the agent is posted exactly when a token is stored, and a plain Error is thrown otherwise |
| EmployeeClient.UpdateAgent | frontend/src/services/EmployeeService.js:37-56 | the agent is put exactly when a token is stored, and an UnAuthorized error is thrown otherwise |
| EmployeeClient.AgentStatusEndpoint | frontend/src/services/EmployeeService.js:64-66 | a truthy flag selects the activation endpoint, anything else the deactivation one |
| EmployeeClient.ToggleAgentStatus | frontend/src/services/EmployeeService.js:58-79 | the status is put to the chosen endpoint exactly when a token is stored, and an UnAuthorized error is thrown otherwise |
| EmployeeClient.UpdateCustomer | frontend/src/services/EmployeeService.js:191-210 | the customer is put exactly when a token is stored, and a plain Error is thrown otherwise |
| EmployeeClient.CustomerStatusEndpoint | frontend/src/services/EmployeeService.js:218-220 | a truthy flag selects the activation endpoint, anything else the delete one |
| EmployeeClient.ToggleCustomerStatus | frontend/src/services/EmployeeService.js:212-233 | the status is put to the chosen endpoint exactly when a token is stored, and a plain Error is thrown otherwise |
| EmployeeClient.ToggleDirectionsDiffer | frontend/src/services/EmployeeService.js:58-79 | activation and deactivation go to different endpoints, and an agent's and a customer's deactivation endpoints differ |
| EmployeeClient.DownloadDocument | frontend/src/services/EmployeeService.js:111-160 | the document URL, and the same derived name as the admin pages |
| Pagination.HandlePageChange | frontend/src/sharedComponents/Pagination.js:5-9 | a page is forwarded exactly when it lies between 1 and the number of pages |
| Pagination.GetPageNumbers | frontend/src/sharedComponents/Pagination.js:11-26 | no buttons for one page or fewer; otherwise the current page with its previous one exactly when it is not the first and its next one exactly when it is not the last, consecutive and at most three, each one a page the handler forwards |
| Pagination.ButtonsMatchBounds | frontend/src/sharedComponents/Pagination.js:32-47 | Prev is enabled exactly when the previous page would be forwarded, and Next exactly when the next page would be |
| Dates.PlusMonths | backend/src/main/java/com/insurance/service/PaymentService.java:146-148 | adding n months gives the valid date n months later in the year-and-month count, with the day kept or clamped to that month's last day |
| Dates.PlusYears | backend/src/main/java/com/insurance/service/PolicyService.java:119 | adding years keeps the month and moves the year |
| Dates.PlusMonthsMovesForward | backend/src/main/java/com/insurance/service/PaymentService.java:142-148 | adding at least one month gives a later date |
| Dates.PlusYearsIsTwelveMonths | backend/src/main/java/com/insurance/service/PaymentService.java:144 | adding n years is adding 12n months |
| Dates.IsAfterIsStrictOrder | backend/src/main/java/com/insurance/service/PaymentService.java:171 | isAfter is irreflexive, transitive and asymmetric |
| Entities.ParseInterval | backend/src/main/java/com/insurance/service/PolicyService.java:216 | valueOf accepts exactly the three interval names and gives the interval bearing that name |
| Store.SortDirection | backend/src/main/java/com/insurance/service/StateService.java:77 | the order is descending exactly when the direction equals DESC ignoring case |
| Store.SetUserActive | backend/src/main/java/com/insurance/service/CustomerService.java:256-293 | only the given user's flag changes, to the given value |
| Common.JavaCompareZero | frontend/src/utils/helpers/Validation.js:68 | two strings compare as equal exactly when they are the same |
| Common.JavaCompareAntisymmetric | frontend/src/utils/helpers/Validation.js:68 | swapping the operands of a string comparison negates it |
| Common.JavaCompareTransitive | frontend/src/utils/helpers/Validation.js:68 | string comparison is transitive |
| Reconciliation.IntervalTablesAgreeOnNames | frontend/src/components/customerPages/ViewInstallments.js:106-117 | the installment page, the chart and the backend give the same number of payments a year for each of the backend's interval names |
| Reconciliation.UnknownIntervalsDiffer | frontend/src/components/customerPages/CustomerPoliciesGraph.js:39-50 | an interval text the installment page does not know builds no schedule there, while the chart counts one payment a year |
| Reconciliation.BackendStatusesNeverGate | frontend/src/sharedComponents/TableData.js:80-100 | no status the backend stores disables Claim, Withdraw or Installment in the policy table |
| Reconciliation.StoredInstallmentBelowShownShare | backend/src/main/java/com/insurance/service/PolicyService.java:235-238 | when the total is an int and the payment count fits in an int, the installment the backend stores is the truncated share: at most the share the page shows and less than one below it |
| Reconciliation.TruncatedQuotientBelowShare | backend/src/main/java/com/insurance/service/PolicyService.java:235-238 | an integer quotient lies within one below the exact share |
| Reconciliation.TxViewOf | frontend/src/components/customerPages/ViewInstallments.js:80-83 | the page reads the transaction's id, amount and status as the backend sends them |
| Reconciliation.FeedViews | backend/src/main/java/com/insurance/service/TransactionService.java:50-66 | the page receives one entry per transaction of the policy, with the stored statuses, in order |
| Reconciliation.RecordedPaymentsOnSchedule | frontend/src/sharedComponents/TableData.js:108-136 | with only recorded payments, the first k installments are taken, none shows a receipt, and only installment k+1 can be paid |
| Reconciliation.PaymentAdvancesPayableInstallment | backend/src/main/java/com/insurance/service/PaymentService.java:102-126 | each recorded payment moves the payable installment one slot on until the schedule is full |
| Reconciliation.GraphInputOf | backend/src/main/java/com/insurance/util/Mappers.java:209-220 | the chart reads no amount paid from a policy response |
| Reconciliation.ChartIgnoresPayments | frontend/src/components/customerPages/CustomerPoliciesGraph.js:80-85 | the chart of any served policy counts no installment paid and has a single point |

## Left out

- The Stripe charge is left out: it is a foreign gateway. Its outcome is a parameter of `PaymentService.ProcessPayment`.
- E-mail sending is left out: it is I/O. The payout and refund figures the e-mails quote are modelled.
- JWT parsing, Spring Security and the verification endpoints are left out. The caller's user is an input.
- The repositories are maps and sequences. JPQL LIKE/CONCAT searches are not modelled: a searched page is an input of `QueryService.AllQueries`. Spring `Sort`/`PageRequest`, and the page totals a `Page` reports, are not modelled either; the listings `getAllCustomers`, `getAllAgents`, `getAllAdmins`, `getAllInsurancePlans`, `getInsurancePlansBySchemeId`, `getPagedStates`, `getPagedCities` and `getMyCustomersForAgent` are left out as repository queries.
- Controllers, React layout, routing, modals, toasts, charts and the axios calls outside the download and toggle functions are left out: they are wiring and network code.
- The iText and jsPDF rendering in `PDFService` and `PdfGenerator.generatePdf` is left out: it is file output. The column widths and the output path are modelled. `java.io.File` path normalisation of the directory is not modelled.
- Wall-clock reads are parameters. `LocalDate.parse` of the birth date, `Period.between` and the customer's age are inputs.
- Binary floating point is modelled with reals: doubles, `float` column widths, `toFixed` and JavaScript division. IEEE rounding is not reproduced.
- PdfGenerator.TotalLength: the running `int` total is a `nat`; its 32-bit overflow is not modelled.
- PdfGenerator.Widths: that the widths are proportional to the maxima is carried by its ensures, where every width is its maximum over the one shared total times 100. A separate lemma naming the common factor 100 / total is not stated, because nonlinear real arithmetic over the recursive total does not settle reliably in the solver.
- Validation.ToNumber: the string-to-number parser of `Number()` is a parameter (`numberOf`), so the model does not fix which strings are numbers.
- Validation.ToText: the decimal text of a number is not modelled. `IsAlphaWithSpace` still refuses every number, because such text always contains a digit.
- The `validator`-library wrappers in Validation.js are left out: `required`, `isEmail`, `isAlpha`, `isAlphaNumNoSpace`, `checkSize` and `noSpace` are foreign calls.
- Browser form constraints (`required`, `maxLength`) are left out. So are the interval timer's scheduling and the delay before navigation in the forgot-password page; one `OnTimer` call is one tick.
- Case folding is ASCII only, as `Common.ToLower`/`ToUpper` define it. Java's `equalsIgnoreCase` and JavaScript's `toLowerCase` also fold other alphabets.
- String comparison follows Java and JavaScript in comparing UTF-16 code units. The model compares Dafny characters, which are Unicode scalar values, so it differs from the source only on characters outside the Basic Multilingual Plane. The same holds for lengths: `String.length()` and JavaScript's `length` count UTF-16 code units, while `|s|` counts scalar values. So `PdfGenerator.ColumnMax`, `PdfGenerator.MaxColumnLengths` and the column widths count a character outside that plane once where the source counts it twice.
- An insurance scheme is assumed to hold at most one plan, the plan `getInsurancePlan` and `updateInsurancePlan` find. The database's choice among several plans is not modelled.
- Database unique constraints on user names and e-mails are not modelled beyond the checks the services make. `AgentService.UpdateAllowsDuplicateUsername` shows the service does not check on update.
- `UniqueIdGenerator` is a fresh-id parameter that the store must not already hold.
- The network parts of AdminService.js and EmployeeService.js are left out. So are their other client functions, which are plain HTTP calls. Only the download file name, the endpoint choice and the token precondition are modelled.
- AdminService.createTaxSetting and createInsuranceSetting are modelled only as appending to the settings sequences that `GetLastTaxSetting` and `GetLastInsuranceSetting` read.
- PolicyService.InstallmentTruncates: stated only for an int total and a payment count that fits in an int. A larger count wraps, and the stored figure is then not the truncated share, as `PolicyService.PaymentCountWraps` shows.
- Reconciliation.StoredInstallmentBelowShownShare: stated under the same bounds, for the same reason.
- Validation.ToPrimitive: only plain objects are modelled. Arrays, dates and objects with their own `valueOf` or `toString` are not, because the form passes none of them.
- StateService.CitiesByState: serves the corrected slice with the offset page×size kept exact. Where that offset does not fit in an int, the code as written wraps it (`SliceAsWritten`, `OffsetWraps`): it serves another page or throws from `subList`. The two agree while page×size + size ≤ 2^31 - 1 (`CitiesByStateMatchesCodeWithinInt`).
- StateService.CitiesByState: `Sort.by` refuses a blank sortBy before the state is looked up. That refusal is not modelled: sortBy only selects the comparator.

## Findings

| source | as written | input that shows it | evidently intended | confidence | as-written member | corrected member |
|---|---|---|---|---|---|---|
| backend/src/main/java/com/insurance/service/ClaimService.java:90-99 | the new claim lists the document on its own side only. The document's claim reference, which `getDocumentsByClaimId` reads, is never set. | a claim requested with an existing unlinked document | the document should be listed among the claim's documents | high, not executed | ClaimService.RequestClaim, ClaimService.NewClaimListsNoDocuments | ClaimService.RequestClaimLinked, ClaimService.LinkedClaimListsItsDocument |
| backend/src/main/java/com/insurance/service/StateService.java:182-184 | the page offset `(int) getOffset()` is truncated to 32 bits before `subList` | page 2147483647 of size 2 on 5 cities gives a negative start, and `subList` throws | an empty page past the end of the list | medium, not executed | StateService.SliceAsWritten, StateService.OffsetWraps | StateService.Slice, StateService.SliceAgreesWithoutOverflow |
| frontend/src/utils/helpers/Validation.js:67-72 | `value1 > value2` compares form strings as text | minimum "9" and maximum "10" are reported as out of order | a numeric comparison | high, not executed | Validation.GreaterThan, Validation.GreaterThanComparesText | Validation.GreaterThanNumbers, Validation.NumericGreaterThanOrdersNumbers |
