/**
 * The backend's CustomerService: registration (by the customer or by an
 * agent on the customer's behalf), partial updates, activation and the
 * employee's approval or rejection.
 */
module CustomerService {
  import opened Common
  import opened Dates
  import opened Entities
  import opened Store
  import Mappers
  import QueryService

  const CustomerRole: string := "ROLE_CUSTOMER"

  /** The registration form; the date of birth arrives already parsed. */
  datatype CustomerRegisterRequest = CustomerRegisterRequest(
    username: string,
    email: string,
    password: string,
    name: string,
    address: string,
    bankAccountDetails: string,
    phoneNumber: string,
    dob: Date,
    cityId: string)

  /** registerCustomer's refusals, in order: username, e-mail, the customer role, the city. */
  function RegisterRefusal(users: map<string, User>, roles: set<string>, cities: map<string, City>,
                           req: CustomerRegisterRequest): (r: Option<Error>)
    ensures r.None? <==> !UsernameTaken(users, req.username) && !EmailTaken(users, req.email)
                         && CustomerRole in roles && req.cityId in cities
    ensures UsernameTaken(users, req.username) ==> r == Some(ApiError("Username already exists!" + req.username))
    ensures !UsernameTaken(users, req.username) && EmailTaken(users, req.email) ==>
              r == Some(ApiError("Email already exists!" + req.email))
  {
    if UsernameTaken(users, req.username) then Some(ApiError("Username already exists!" + req.username))
    else if EmailTaken(users, req.email) then Some(ApiError("Email already exists!" + req.email))
    else if CustomerRole !in roles then Some(NotFound("Role not found for ROLE_CUSTOMER"))
    else if req.cityId !in cities then Some(NotFound("City not found"))
    else None
  }

  /** The agent a registration is made through: the caller's agent record, if the caller's user is active. */
  ghost function ReferringAgent(agents: map<string, Agent>, users: map<string, User>, caller: Caller): (a: Option<string>)
    requires caller.Some? ==> caller.value in users
    ensures a.Some? <==> caller.Some? && KeyOfUser(agents, AgentUser, caller.value).Some? && users[caller.value].active
    ensures a.Some? ==> a == KeyOfUser(agents, AgentUser, caller.value) && a.value in agents
  {
    if caller.Some? && users[caller.value].active then KeyOfUser(agents, AgentUser, caller.value) else None
  }

  /** agentRepository.findByUser on the caller, kept only when the caller's user is active. */
  method FindReferringAgent(db: Db, caller: Caller) returns (agentId: Option<string>)
    requires db.Valid()
    requires caller.Some? ==> caller.value in db.users
    ensures agentId == ReferringAgent(db.agents, db.users, caller)
  {
    agentId := None;
    if caller.Some? {
      var agent := db.FindAgent(caller.value);
      if agent.Some? && db.users[caller.value].active {
        agentId := agent;
      }
    }
  }

  /** The new user: active, with the customer role and the encoded password. */
  function NewCustomerUser(req: CustomerRegisterRequest): (u: User)
    ensures u.active && u.role == CustomerRole && u.password == Encoded(req.password)
    ensures u.username == req.username && u.email == req.email
  {
    User(req.username, req.email, Encoded(req.password), CustomerRole, true)
  }

  /** The new customer: pending, verified by nobody, linked to the agent if there is one. */
  function NewCustomer(req: CustomerRegisterRequest, userId: string, agentId: Option<string>): (c: Customer)
    ensures c.status == CreationPending && c.verifiedBy.None? && c.agentId == agentId && c.userId == userId
    ensures c.cityId == req.cityId && c.dob == req.dob && c.name == req.name && c.address == req.address
    ensures c.bankAccountDetails == req.bankAccountDetails && c.phoneNumber == req.phoneNumber
  {
    Customer(userId, req.name, req.address, req.bankAccountDetails, req.phoneNumber, req.dob, req.cityId,
             agentId, None, CreationPending)
  }

  /** registerCustomer: a new active customer user and its customer record, under fresh ids. */
  method RegisterCustomer(db: Db, caller: Caller, req: CustomerRegisterRequest, freshUserId: string,
                          freshCustomerId: string) returns (r: Result<string>)
    requires db.Valid()
    requires caller.Some? ==> caller.value in db.users
    requires freshUserId !in db.users && freshCustomerId !in db.customers
    modifies db`users, db`customers
    ensures db.Valid()
    ensures match RegisterRefusal(old(db.users), db.roles, db.cities, req)
            case Some(e) => r == Failure(e) && db.users == old(db.users) && db.customers == old(db.customers)
            case None =>
              r == Success("Customer created successfully!")
              && db.users == old(db.users)[freshUserId := NewCustomerUser(req)]
              && db.customers == old(db.customers)[freshCustomerId :=
                   NewCustomer(req, freshUserId, ReferringAgent(db.agents, old(db.users), caller))]
  {
    var refusal := RegisterRefusal(db.users, db.roles, db.cities, req);
    if refusal.Some? {
      return Failure(refusal.value);
    }
    var agentId := FindReferringAgent(db, caller);
    db.SaveNewCustomer(freshUserId, NewCustomerUser(req), freshCustomerId, NewCustomer(req, freshUserId, agentId));
    r := Success("Customer created successfully!");
  }

  /** The update form: every field may be missing (null). */
  datatype CustomerUpdateRequest = CustomerUpdateRequest(
    username: Option<string>,
    email: Option<string>,
    password: Option<string>,
    name: Option<string>,
    address: Option<string>,
    bankAccountDetails: Option<string>,
    phoneNumber: Option<string>,
    dob: Option<Date>,
    cityId: Option<string>)

  /** A supplied value that differs from the current one. */
  predicate Changes(v: Option<string>, current: string)
  {
    v.Some? && v.value != current
  }

  /** updateCustomer's checks on the user: a changed username, then a changed e-mail, must be free. */
  function UpdateUserRefusal(users: map<string, User>, user: User, req: CustomerUpdateRequest): (r: Option<Error>)
    ensures r.None? <==> !(Changes(req.username, user.username) && UsernameTaken(users, req.username.value))
                         && !(Changes(req.email, user.email) && EmailTaken(users, req.email.value))
  {
    if Changes(req.username, user.username) && UsernameTaken(users, req.username.value) then
      Some(ApiError("Username already exists!" + req.username.value))
    else if Changes(req.email, user.email) && EmailTaken(users, req.email.value) then
      Some(ApiError("Email already exists!"))
    else None
  }

  /** The supplied value, or the current one when none is supplied. */
  function OrKeep<T>(v: Option<T>, current: T): (r: T)
    ensures v.Some? ==> r == v.value
    ensures v.None? ==> r == current
  {
    if v.Some? then v.value else current
  }

  /** The updated user: username and e-mail when supplied, the password only when supplied and non-empty. */
  function UpdatedUser(user: User, req: CustomerUpdateRequest): (u: User)
    ensures u.username == OrKeep(req.username, user.username) && u.email == OrKeep(req.email, user.email)
    ensures u.password == (if req.password.Some? && req.password.value != "" then Encoded(req.password.value)
                           else user.password)
    ensures u.role == user.role && u.active == user.active
  {
    user.(username := OrKeep(req.username, user.username),
          email := OrKeep(req.email, user.email),
          password := if req.password.Some? && req.password.value != "" then Encoded(req.password.value) else user.password)
  }

  /** The updated customer: each supplied field replaced, everything else kept. */
  function UpdatedCustomer(c: Customer, req: CustomerUpdateRequest): (r: Customer)
    ensures r.address == OrKeep(req.address, c.address) && r.name == OrKeep(req.name, c.name)
    ensures r.bankAccountDetails == OrKeep(req.bankAccountDetails, c.bankAccountDetails)
    ensures r.phoneNumber == OrKeep(req.phoneNumber, c.phoneNumber) && r.dob == OrKeep(req.dob, c.dob)
    ensures r.cityId == OrKeep(req.cityId, c.cityId)
    ensures r.userId == c.userId && r.agentId == c.agentId && r.verifiedBy == c.verifiedBy && r.status == c.status
  {
    c.(address := OrKeep(req.address, c.address), name := OrKeep(req.name, c.name),
       bankAccountDetails := OrKeep(req.bankAccountDetails, c.bankAccountDetails),
       phoneNumber := OrKeep(req.phoneNumber, c.phoneNumber), dob := OrKeep(req.dob, c.dob),
       cityId := OrKeep(req.cityId, c.cityId))
  }

  /** Sending the same update twice: the second passes the user checks and changes nothing more. */
  lemma UpdateIsIdempotent(users: map<string, User>, uid: string, c: Customer, req: CustomerUpdateRequest)
    requires uid in users
    ensures var once := users[uid := UpdatedUser(users[uid], req)];
            UpdateUserRefusal(once, once[uid], req).None?
            && UpdatedUser(once[uid], req) == once[uid]
            && UpdatedCustomer(UpdatedCustomer(c, req), req) == UpdatedCustomer(c, req)
  {
  }

  /**
   * updateCustomer: the user checks, then the user is saved; then the
   * customer fields, and an unknown city fails after the user was saved.
   */
  method UpdateCustomer(db: Db, id: string, req: CustomerUpdateRequest) returns (r: Result<string>)
    requires db.Valid()
    modifies db`users, db`customers
    ensures db.Valid()
    ensures id !in old(db.customers) ==>
              r == Failure(NotFound("Customer not found with id: " + id))
              && db.users == old(db.users) && db.customers == old(db.customers)
    ensures id in old(db.customers) ==>
              var uid := old(db.customers)[id].userId;
              match UpdateUserRefusal(old(db.users), old(db.users)[uid], req)
              case Some(e) => r == Failure(e) && db.users == old(db.users) && db.customers == old(db.customers)
              case None =>
                db.users == old(db.users)[uid := UpdatedUser(old(db.users)[uid], req)]
                && if req.cityId.Some? && req.cityId.value !in db.cities then
                     r == Failure(NotFound("City not found")) && db.customers == old(db.customers)
                   else
                     r == Success("Customer updated successfully!")
                     && db.customers == old(db.customers)[id := UpdatedCustomer(old(db.customers)[id], req)]
  {
    if id !in db.customers {
      return Failure(NotFound("Customer not found with id: " + id));
    }
    var c := db.customers[id];
    var refusal := UpdateUserRefusal(db.users, db.users[c.userId], req);
    if refusal.Some? {
      return Failure(refusal.value);
    }
    db.SaveUser(c.userId, UpdatedUser(db.users[c.userId], req));
    if req.cityId.Some? && req.cityId.value !in db.cities {
      return Failure(NotFound("City not found"));
    }
    db.SaveCustomer(id, UpdatedCustomer(c, req));
    r := Success("Customer updated successfully!");
  }

  /**
   * deactivateCustomer / activateCustomer: the customer's user gets the flag;
   * a user that already has it is reported, without an error.
   */
  function SetCustomerActiveSpec(users: map<string, User>, customers: map<string, Customer>, id: string, flag: bool)
    : (r: Result<(string, map<string, User>)>)
    requires CustomerProfiles(customers, users)
    ensures r.Failure? <==> id !in customers
    ensures r.Failure? ==> r.error == NotFound("Customer not found with id: " + id)
    ensures r.Success? ==> r.value.1 == SetUserActive(users, customers[id].userId, flag)
    ensures r.Success? ==>
              r.value.0 == if users[customers[id].userId].active == flag
                           then (if flag then "Customer is already active." else "Customer is already deactivated.")
                           else (if flag then "Customer activated successfully!" else "Customer deactivated successfully!")
  {
    if id !in customers then Failure(NotFound("Customer not found with id: " + id))
    else
      var uid := customers[id].userId;
      if users[uid].active == flag then
        assert SetUserActive(users, uid, flag) == users;
        Success((if flag then "Customer is already active." else "Customer is already deactivated.", users))
      else
        Success((if flag then "Customer activated successfully!" else "Customer deactivated successfully!",
                 SetUserActive(users, uid, flag)))
  }

  /** Repeating a deactivation or an activation changes nothing and reports the flag already set. */
  lemma SetCustomerActiveIdempotent(users: map<string, User>, customers: map<string, Customer>, id: string, flag: bool)
    requires CustomerProfiles(customers, users) && id in customers
    ensures var once := SetCustomerActiveSpec(users, customers, id, flag).value.1;
            CustomerProfiles(customers, once)
            && SetCustomerActiveSpec(once, customers, id, flag)
               == Success((if flag then "Customer is already active." else "Customer is already deactivated.", once))
  {
  }

  method SetCustomerActive(db: Db, id: string, flag: bool) returns (r: Result<string>)
    requires db.Valid()
    modifies db`users
    ensures db.Valid()
    ensures match SetCustomerActiveSpec(old(db.users), db.customers, id, flag)
            case Success(out) => r == Success(out.0) && db.users == out.1
            case Failure(e) => r == Failure(e) && db.users == old(db.users)
  {
    if id !in db.customers {
      return Failure(NotFound("Customer not found with id: " + id));
    }
    var uid := db.customers[id].userId;
    if db.users[uid].active == flag {
      assert SetUserActive(db.users, uid, flag) == db.users;
      return Success(if flag then "Customer is already active." else "Customer is already deactivated.");
    }
    db.SetActive(uid, flag);
    r := Success(if flag then "Customer activated successfully!" else "Customer deactivated successfully!");
  }

  /** verifyCustomerapprove / verifyCustomerReject's refusals: unknown user, no employee, unknown customer. */
  ghost function VerifyRefusal(employees: map<string, Employee>, customers: map<string, Customer>,
                               caller: Caller, id: string): (r: Option<Error>)
    ensures r.None? <==> caller.Some? && KeyOfUser(employees, EmployeeUser, caller.value).Some? && id in customers
    ensures caller.None? ==> r == Some(Unauthorized("User is not available for token"))
    ensures caller.Some? && KeyOfUser(employees, EmployeeUser, caller.value).None? ==> r == Some(ApiError("Employee not found"))
    ensures caller.Some? && KeyOfUser(employees, EmployeeUser, caller.value).Some? && id !in customers ==>
              r == Some(ApiError("Customer not found"))
  {
    if caller.None? then Some(Unauthorized("User is not available for token"))
    else if KeyOfUser(employees, EmployeeUser, caller.value).None? then Some(ApiError("Employee not found"))
    else if id !in customers then Some(ApiError("Customer not found"))
    else None
  }

  /** The verified customer: the decision and the verifying employee; nothing else changes. */
  function Verified(c: Customer, approve: bool, employeeId: string): (r: Customer)
    ensures r.status == (if approve then CreationApproved else CreationRejected) && r.verifiedBy == Some(employeeId)
    ensures r.userId == c.userId && r.cityId == c.cityId && r.agentId == c.agentId && r.name == c.name
  {
    c.(status := if approve then CreationApproved else CreationRejected, verifiedBy := Some(employeeId))
  }

  /** verifyCustomerapprove (approve) and verifyCustomerReject: the employee's decision on the customer. */
  method VerifyCustomer(db: Db, caller: Caller, id: string, approve: bool) returns (r: Result<string>)
    requires db.Valid()
    modifies db`customers
    ensures db.Valid()
    ensures match VerifyRefusal(db.employees, old(db.customers), caller, id)
            case Some(e) => r == Failure(e) && db.customers == old(db.customers)
            case None =>
              var eid := KeyOfUser(db.employees, EmployeeUser, caller.value).value;
              r == Success(if approve then "Customer approved Successfully" else "Customer rejected!!")
              && db.customers == old(db.customers)[id := Verified(old(db.customers)[id], approve, eid)]
  {
    if caller.None? {
      return Failure(Unauthorized("User is not available for token"));
    }
    var employee := db.FindEmployee(caller.value);
    if employee.None? {
      return Failure(ApiError("Employee not found"));
    }
    if id !in db.customers {
      return Failure(ApiError("Customer not found"));
    }
    db.SaveCustomer(id, Verified(db.customers[id], approve, employee.value));
    r := Success(if approve then "Customer approved Successfully" else "Customer rejected!!");
  }

  /** Once rejected, the customer's own queries are refused. */
  lemma RejectedCustomerCannotPostQuery(customers: map<string, Customer>, users: map<string, User>, id: string,
                                        employeeId: string)
    requires CustomerProfiles(customers, users) && id in customers
    ensures var after := customers[id := Verified(customers[id], false, employeeId)];
            QueryService.AddQueryRefusal(after, Some(customers[id].userId)) == Some(ApiError("Sorry you cannot post query"))
  {
    var after := customers[id := Verified(customers[id], false, employeeId)];
    var uid := customers[id].userId;
    var key := KeyOfUser(after, CustomerUser, uid);
    assert CustomerUser(after[id]) == uid;
    assert key.Some? && key.value == id;
  }

  /** getCustomerbyId: the update view of the customer, or not-found. */
  function CustomerById(customers: map<string, Customer>, users: map<string, User>, id: string)
    : (r: Result<Mappers.CustomerResponseForUpdate>)
    requires CustomerProfiles(customers, users)
    ensures r.Failure? <==> id !in customers
    ensures r.Failure? ==> r.error == NotFound("customer not found with ID: " + id)
    ensures r.Success? ==> r.value.customerId == id && r.value.cityId == customers[id].cityId
                           && r.value.username == users[customers[id].userId].username
  {
    if id !in customers then Failure(NotFound("customer not found with ID: " + id))
    else Success(Mappers.CustomerToResponseForUpdate(id, customers[id], users[customers[id].userId]))
  }
}
