/**
 * The backend's QueryService: a customer posts a query, an employee answers
 * it, and the listing pages through the queries. Answering does not look at
 * the query's status, so an answered query can be answered again.
 */
module QueryService {
  import opened Common
  import opened Entities
  import opened Store
  import Mappers

  const PendingQuery: string := "pending"
  const Responded: string := "Responded"

  datatype QueryRequest = QueryRequest(subject: string, message: string)

  /** addQuery's refusals, in order: unknown user, no customer, a rejected customer. */
  ghost function AddQueryRefusal(customers: map<string, Customer>, caller: Caller): (r: Option<Error>)
    ensures r.None? <==>
              caller.Some? && KeyOfUser(customers, CustomerUser, caller.value).Some?
              && customers[KeyOfUser(customers, CustomerUser, caller.value).value].status != CreationRejected
    ensures caller.None? ==> r == Some(Unauthorized("User is not available for token"))
    ensures caller.Some? && KeyOfUser(customers, CustomerUser, caller.value).None? ==>
              r == Some(ApiError("Customer not found"))
  {
    if caller.None? then Some(Unauthorized("User is not available for token"))
    else
      match KeyOfUser(customers, CustomerUser, caller.value)
      case None => Some(ApiError("Customer not found"))
      case Some(cid) =>
        if customers[cid].status == CreationRejected then Some(ApiError("Sorry you cannot post query")) else None
  }

  /** The query addQuery stores: pending, unanswered, with the request's subject and message. */
  function NewQuery(customerId: string, req: QueryRequest, now: Instant): (q: CustomerQuery)
    ensures q.status == PendingQuery && q.response.None? && q.employeeId.None?
    ensures q.customerId == customerId && q.subject == req.subject && q.message == req.message
    ensures q.submittedAt == now
  {
    CustomerQuery(customerId, req.subject, req.message, PendingQuery, None, None, now)
  }

  /** addQuery: the caller's customer posts a new query under the fresh id. */
  method AddQuery(db: Db, caller: Caller, req: QueryRequest, now: Instant, freshId: nat) returns (r: Result<string>)
    requires db.Valid() && freshId !in db.queries
    modifies db`queries
    ensures db.Valid()
    ensures match AddQueryRefusal(db.customers, caller)
            case Some(e) => r == Failure(e) && db.queries == old(db.queries)
            case None =>
              r == Success("Query Submitted Succussfully")
              && db.queries == old(db.queries)[freshId := NewQuery(KeyOfUser(db.customers, CustomerUser, caller.value).value, req, now)]
  {
    if caller.None? {
      return Failure(Unauthorized("User is not available for token"));
    }
    var customer := db.FindCustomer(caller.value);
    if customer.None? {
      return Failure(ApiError("Customer not found"));
    }
    if db.customers[customer.value].status == CreationRejected {
      return Failure(ApiError("Sorry you cannot post query"));
    }
    db.SaveQuery(freshId, NewQuery(customer.value, req, now));
    r := Success("Query Submitted Succussfully");
  }

  /** The answered query: "Responded", with the response and the employee; what the customer wrote is kept. */
  function Respond(q: CustomerQuery, response: string, employeeId: string): (r: CustomerQuery)
    ensures r.status == Responded && r.response == Some(response) && r.employeeId == Some(employeeId)
    ensures r.customerId == q.customerId && r.subject == q.subject && r.message == q.message
    ensures r.submittedAt == q.submittedAt
  {
    q.(status := Responded, response := Some(response), employeeId := Some(employeeId))
  }

  /** Answering does not check the status: a second answer replaces the first entirely. */
  lemma LastResponseWins(q: CustomerQuery, first: string, firstBy: string, second: string, secondBy: string)
    ensures Respond(Respond(q, first, firstBy), second, secondBy) == Respond(q, second, secondBy)
  {
  }

  /** addResponseQuery's refusals, in order: unknown user, no employee, unknown query. */
  ghost function ResponseRefusal(employees: map<string, Employee>, queries: map<nat, CustomerQuery>,
                                 caller: Caller, id: nat): (r: Option<Error>)
    ensures r.None? <==> caller.Some? && KeyOfUser(employees, EmployeeUser, caller.value).Some? && id in queries
    ensures caller.None? ==> r == Some(Unauthorized("User is not available for token"))
    ensures caller.Some? && KeyOfUser(employees, EmployeeUser, caller.value).None? ==>
              r == Some(ApiError("Employee not found"))
    ensures caller.Some? && KeyOfUser(employees, EmployeeUser, caller.value).Some? && id !in queries ==>
              r == Some(NotFound("query not found with id: " + NatToString(id)))
  {
    if caller.None? then Some(Unauthorized("User is not available for token"))
    else if KeyOfUser(employees, EmployeeUser, caller.value).None? then Some(ApiError("Employee not found"))
    else if id !in queries then Some(NotFound("query not found with id: " + NatToString(id)))
    else None
  }

  /** addResponseQuery: the caller's employee answers query `id`. */
  method AddResponse(db: Db, caller: Caller, response: string, id: nat) returns (r: Result<string>)
    requires db.Valid()
    modifies db`queries
    ensures db.Valid()
    ensures match ResponseRefusal(db.employees, old(db.queries), caller, id)
            case Some(e) => r == Failure(e) && db.queries == old(db.queries)
            case None =>
              var eid := KeyOfUser(db.employees, EmployeeUser, caller.value).value;
              r == Success("Response Submitted Succussfully")
              && db.queries == old(db.queries)[id := Respond(old(db.queries)[id], response, eid)]
  {
    if caller.None? {
      return Failure(Unauthorized("User is not available for token"));
    }
    var employee := db.FindEmployee(caller.value);
    if employee.None? {
      return Failure(ApiError("Employee not found"));
    }
    if id !in db.queries {
      return Failure(NotFound("query not found with id: " + NatToString(id)));
    }
    db.SaveQuery(id, Respond(db.queries[id], response, employee.value));
    r := Success("Response Submitted Succussfully");
  }

  /** The search query is used only when it is present and not empty. */
  predicate UsesSearch(searchQuery: Option<string>)
  {
    searchQuery.Some? && searchQuery.value != ""
  }

  /**
   * getAllQueries after the repository call: the page of the search when
   * UsesSearch, of all queries otherwise, each row mapped, the numbers kept.
   * The sort direction is SortDirection(direction).
   */
  function AllQueries(searchQuery: Option<string>, searched: Page<(nat, CustomerQuery)>,
                      all: Page<(nat, CustomerQuery)>): (r: PagedResponse<Mappers.CustomerQueryResponse>)
    ensures var p := if UsesSearch(searchQuery) then searched else all;
            |r.content| == |p.content|
            && (forall i :: 0 <= i < |p.content| ==> r.content[i] == Mappers.QueryToResponse(p.content[i].0, p.content[i].1))
            && r.page == p.number && r.size == p.size && r.totalElements == p.totalElements
            && r.totalPages == p.totalPages && r.last == p.last
  {
    var p := if UsesSearch(searchQuery) then searched else all;
    PagedResponse(seq(|p.content|, i requires 0 <= i < |p.content| => Mappers.QueryToResponse(p.content[i].0, p.content[i].1)),
                  p.number, p.size, p.totalElements, p.totalPages, p.last)
  }
}
