/**
 * The backend's AgentService: an admin or an employee registers agents;
 * agents are updated, deactivated ("deleted"), reactivated and looked up.
 */
module AgentService {
  import opened Common
  import opened Entities
  import opened Store
  import Mappers
  import CustomerService

  const AgentRole: string := "ROLE_AGENT"

  /** The registration form, also used for updates. */
  datatype AgentRegisterRequest = AgentRegisterRequest(
    username: string,
    email: string,
    password: string,
    name: string,
    address: string,
    phoneNumber: string,
    cityId: string)

  /** registerAgent's refusals, in order: unknown caller, username, e-mail, the agent role, the city. */
  function RegisterRefusal(users: map<string, User>, roles: set<string>, cities: map<string, City>,
                           caller: Caller, req: AgentRegisterRequest): (r: Option<Error>)
    ensures r.None? <==> caller.Some? && !UsernameTaken(users, req.username) && !EmailTaken(users, req.email)
                         && AgentRole in roles && req.cityId in cities
    ensures caller.None? ==> r == Some(Unauthorized("User is not available"))
    ensures caller.Some? && UsernameTaken(users, req.username) ==> r == Some(ApiError("Username already exists!"))
    ensures caller.Some? && !UsernameTaken(users, req.username) && EmailTaken(users, req.email) ==>
              r == Some(ApiError("Email already exists!"))
    ensures (caller.Some? && !UsernameTaken(users, req.username) && !EmailTaken(users, req.email) && AgentRole in roles) ==>
              (r == Some(ApiError("City is not available")) <==> req.cityId !in cities)
  {
    if caller.None? then Some(Unauthorized("User is not available"))
    else if UsernameTaken(users, req.username) then Some(ApiError("Username already exists!"))
    else if EmailTaken(users, req.email) then Some(ApiError("Email already exists!"))
    else if AgentRole !in roles then Some(NotFound("Role not found : ROLE_AGENT"))
    else if req.cityId !in cities then Some(ApiError("City is not available"))
    else None
  }

  /** The caller's role equals "ROLE_ADMIN" ignoring case. */
  predicate IsAdminRole(role: string)
  {
    ToLower(role) == "role_admin"
  }

  /** The caller's role equals "ROLE_EMPLOYEE" ignoring case. */
  predicate IsEmployeeRole(role: string)
  {
    ToLower(role) == "role_employee"
  }

  /** The two role tests are the source's case-insensitive comparisons, and no role passes both. */
  lemma RoleTestsIgnoreCase(role: string)
    ensures IsAdminRole(role) <==> EqualsIgnoreCase(role, "ROLE_ADMIN")
    ensures IsEmployeeRole(role) <==> EqualsIgnoreCase(role, "ROLE_EMPLOYEE")
    ensures !(IsAdminRole(role) && IsEmployeeRole(role))
  {
    AdminRoleLowerCase();
    EmployeeRoleLowerCase();
  }

  lemma AdminRoleLowerCase()
    ensures ToLower("ROLE_ADMIN") == "role_admin"
  {
    LowerCaseOf("ROLE_ADMIN", "role_admin");
  }

  lemma EmployeeRoleLowerCase()
    ensures ToLower("ROLE_EMPLOYEE") == "role_employee"
  {
    LowerCaseOf("ROLE_EMPLOYEE", "role_employee");
  }

  /** A lower-case word is the lower case of its upper-case spelling, letter by letter. */
  lemma LowerCaseOf(upper: string, lower: string)
    requires |upper| == |lower| && forall i :: 0 <= i < |upper| ==> ToLowerChar(upper[i]) == lower[i]
    ensures ToLower(upper) == lower
  {
  }

  /**
   * The agent's createdBy: "Admin: <adminId>" for an admin caller,
   * "Employee: <employeeId>" for an employee caller, unset for anyone else.
   * An admin or employee user without its profile record dereferences
   * nothing: the source fails there (a null admin, an empty Optional).
   */
  ghost function CreatedBy(admins: map<string, Admin>, employees: map<string, Employee>, role: string, uid: string)
    : (r: Result<Option<string>>)
    ensures IsAdminRole(role) ==>
              match KeyOfUser(admins, AdminUser, uid)
              case Some(a) => r == Success(Some("Admin: " + a))
              case None => r == Failure(NullDereference)
    ensures IsEmployeeRole(role) ==>
              match KeyOfUser(employees, EmployeeUser, uid)
              case Some(e) => r == Success(Some("Employee: " + e))
              case None => r == Failure(NoSuchElement)
    ensures !IsAdminRole(role) && !IsEmployeeRole(role) ==> r == Success(None)
  {
    if IsAdminRole(role) then
      match KeyOfUser(admins, AdminUser, uid)
      case Some(a) => Success(Some("Admin: " + a))
      case None => Failure(NullDereference)
    else if IsEmployeeRole(role) then
      match KeyOfUser(employees, EmployeeUser, uid)
      case Some(e) => Success(Some("Employee: " + e))
      case None => Failure(NoSuchElement)
    else Success(None)
  }

  method FindCreatedBy(db: Db, uid: string) returns (r: Result<Option<string>>)
    requires db.Valid() && uid in db.users
    ensures r == CreatedBy(db.admins, db.employees, db.users[uid].role, uid)
  {
    var role := db.users[uid].role;
    r := Success(None);
    if IsAdminRole(role) {
      var admin := db.FindAdmin(uid);
      if admin.None? {
        return Failure(NullDereference);
      }
      r := Success(Some("Admin: " + admin.value));
    }
    if IsEmployeeRole(role) {
      var employee := db.FindEmployee(uid);
      if employee.None? {
        return Failure(NoSuchElement);
      }
      r := Success(Some("Employee: " + employee.value));
    }
  }

  /** The new user: active, with the agent role and the encoded password. */
  function NewAgentUser(req: AgentRegisterRequest): (u: User)
    ensures u.active && u.role == AgentRole && u.password == Encoded(req.password)
    ensures u.username == req.username && u.email == req.email
  {
    User(req.username, req.email, Encoded(req.password), AgentRole, true)
  }

  function NewAgent(req: AgentRegisterRequest, userId: string, createdBy: Option<string>): (a: Agent)
    ensures a.userId == userId && a.cityId == req.cityId && a.createdBy == createdBy
    ensures a.name == req.name && a.address == req.address && a.phoneNumber == req.phoneNumber
  {
    Agent(userId, req.name, req.address, req.phoneNumber, req.cityId, createdBy)
  }

  /** registerAgent: a new active agent user and its agent record, tagged with its creator. */
  method RegisterAgent(db: Db, caller: Caller, req: AgentRegisterRequest, freshUserId: string, freshAgentId: string)
    returns (r: Result<string>)
    requires db.Valid()
    requires caller.Some? ==> caller.value in db.users
    requires freshUserId !in db.users && freshAgentId !in db.agents
    modifies db`users, db`agents
    ensures db.Valid()
    ensures RegisterRefusal(old(db.users), db.roles, db.cities, caller, req).Some? ==>
              r == Failure(RegisterRefusal(old(db.users), db.roles, db.cities, caller, req).value)
              && db.users == old(db.users) && db.agents == old(db.agents)
    ensures RegisterRefusal(old(db.users), db.roles, db.cities, caller, req).None? ==>
              var creator := CreatedBy(db.admins, db.employees, old(db.users)[caller.value].role, caller.value);
              if creator.Failure? then
                r == Failure(creator.error) && db.users == old(db.users) && db.agents == old(db.agents)
              else
                r == Success("Agent created successfully!")
                && db.users == old(db.users)[freshUserId := NewAgentUser(req)]
                && db.agents == old(db.agents)[freshAgentId := NewAgent(req, freshUserId, creator.value)]
  {
    var refusal := RegisterRefusal(db.users, db.roles, db.cities, caller, req);
    if refusal.Some? {
      return Failure(refusal.value);
    }
    var creator := FindCreatedBy(db, caller.value);
    if creator.Failure? {
      return Failure(creator.error);
    }
    db.SaveNewAgent(freshUserId, NewAgentUser(req), freshAgentId, NewAgent(req, freshUserId, creator.value));
    r := Success("Agent created successfully!");
  }

  /** The updated agent: name, address, phone and city from the form; the creator and user are kept. */
  function UpdatedAgent(a: Agent, req: AgentRegisterRequest): (r: Agent)
    ensures r.name == req.name && r.address == req.address && r.phoneNumber == req.phoneNumber
    ensures r.cityId == req.cityId && r.userId == a.userId && r.createdBy == a.createdBy
  {
    a.(name := req.name, address := req.address, phoneNumber := req.phoneNumber, cityId := req.cityId)
  }

  /** The updated user: username and e-mail from the form; password, role and activity kept. */
  function UpdatedAgentUser(u: User, req: AgentRegisterRequest): (r: User)
    ensures r.username == req.username && r.email == req.email
    ensures r.password == u.password && r.role == u.role && r.active == u.active
  {
    u.(username := req.username, email := req.email)
  }

  /** updateAgent: unknown agent, then unknown city; otherwise agent and user are overwritten. */
  method UpdateAgent(db: Db, id: string, req: AgentRegisterRequest) returns (r: Result<string>)
    requires db.Valid()
    modifies db`users, db`agents
    ensures db.Valid()
    ensures id !in old(db.agents) ==>
              r == Failure(NotFound("Agent not found")) && db.users == old(db.users) && db.agents == old(db.agents)
    ensures id in old(db.agents) && req.cityId !in db.cities ==>
              r == Failure(ApiError("City is not available")) && db.users == old(db.users) && db.agents == old(db.agents)
    ensures id in old(db.agents) && req.cityId in db.cities ==>
              var uid := old(db.agents)[id].userId;
              r == Success("Agent updated")
              && db.users == old(db.users)[uid := UpdatedAgentUser(old(db.users)[uid], req)]
              && db.agents == old(db.agents)[id := UpdatedAgent(old(db.agents)[id], req)]
  {
    if id !in db.agents {
      return Failure(NotFound("Agent not found"));
    }
    if req.cityId !in db.cities {
      return Failure(ApiError("City is not available"));
    }
    var a := db.agents[id];
    db.SaveUser(a.userId, UpdatedAgentUser(db.users[a.userId], req));
    db.SaveAgent(id, UpdatedAgent(a, req));
    r := Success("Agent updated");
  }

  /**
   * Unlike registration, an update does not look for the new username among
   * the other users: renaming an agent to another user's name is accepted and
   * leaves two users with that username.
   */
  lemma UpdateAllowsDuplicateUsername(users: map<string, User>, uid: string, other: string, req: AgentRegisterRequest)
    requires uid in users && other in users && uid != other && req.username == users[other].username
    ensures var after := users[uid := UpdatedAgentUser(users[uid], req)];
            after[uid].username == after[other].username
  {
  }

  /**
   * deleteAgent (flag false) and activateAgent (flag true): the agent's user
   * gets the flag; an agent already in that state is refused.
   */
  function SetAgentActiveSpec(users: map<string, User>, agents: map<string, Agent>, id: string, flag: bool)
    : (r: Result<map<string, User>>)
    requires AgentProfiles(agents, users)
    ensures r.Success? <==> id in agents && users[agents[id].userId].active != flag
    ensures id !in agents ==> r == Failure(NotFound("Agent not found"))
    ensures id in agents && users[agents[id].userId].active == flag ==>
              r == Failure(ApiError(if flag then "User is already active" else "User is already inactive"))
    ensures r.Success? ==> r.value == SetUserActive(users, agents[id].userId, flag)
  {
    if id !in agents then Failure(NotFound("Agent not found"))
    else if users[agents[id].userId].active == flag then
      Failure(ApiError(if flag then "User is already active" else "User is already inactive"))
    else Success(SetUserActive(users, agents[id].userId, flag))
  }

  /** Deleting an active agent and then activating it restores every user. */
  lemma DeleteThenActivateRestores(users: map<string, User>, agents: map<string, Agent>, id: string)
    requires AgentProfiles(agents, users) && id in agents && users[agents[id].userId].active
    ensures SetAgentActiveSpec(users, agents, id, false).Success?
    ensures var deleted := SetAgentActiveSpec(users, agents, id, false).value;
            AgentProfiles(agents, deleted)
            && SetAgentActiveSpec(deleted, agents, id, true) == Success(users)
  {
    var uid := agents[id].userId;
    var deleted := SetUserActive(users, uid, false);
    assert SetUserActive(deleted, uid, true) == users;
  }

  /** A deleted agent no longer refers the customers it registers. */
  lemma DeletedAgentRefersNobody(users: map<string, User>, agents: map<string, Agent>, id: string)
    requires AgentProfiles(agents, users) && id in agents && users[agents[id].userId].active
    ensures CustomerService.ReferringAgent(agents, users, Some(agents[id].userId)) == Some(id)
    ensures var deleted := SetAgentActiveSpec(users, agents, id, false).value;
            CustomerService.ReferringAgent(agents, deleted, Some(agents[id].userId)).None?
  {
    var key := KeyOfUser(agents, AgentUser, agents[id].userId);
    assert AgentUser(agents[id]) == agents[id].userId;
    assert key.Some? && key.value == id;
  }

  method SetAgentActive(db: Db, id: string, flag: bool) returns (r: Result<string>)
    requires db.Valid()
    modifies db`users
    ensures db.Valid()
    ensures match SetAgentActiveSpec(old(db.users), db.agents, id, flag)
            case Success(users) =>
              r == Success(if flag then "Agent successfully activated" else "Agent successfully deleted")
              && db.users == users
            case Failure(e) => r == Failure(e) && db.users == old(db.users)
  {
    if id !in db.agents {
      return Failure(NotFound("Agent not found"));
    }
    var uid := db.agents[id].userId;
    if db.users[uid].active == flag {
      return Failure(ApiError(if flag then "User is already active" else "User is already inactive"));
    }
    db.SetActive(uid, flag);
    r := Success(if flag then "Agent successfully activated" else "Agent successfully deleted");
  }

  /** getAgentById: the agent's response, with its address completed by city and state. */
  function AgentById(agents: map<string, Agent>, users: map<string, User>, cities: map<string, City>,
                     states: map<string, State>, id: string): (r: Result<Mappers.AgentResponse>)
    requires AgentProfiles(agents, users) && AgentsLinked(agents, cities) && CitiesLinked(cities, states)
    ensures r.Failure? <==> id !in agents
    ensures r.Failure? ==> r.error == NotFound("Agent not found with ID: " + id)
    ensures r.Success? ==>
              var a := agents[id];
              r.value.agentId == id && r.value.active == users[a.userId].active
              && r.value.address == Mappers.AgentAddress(a.address, cities[a.cityId].name, states[cities[a.cityId].stateId].name)
  {
    if id !in agents then Failure(NotFound("Agent not found with ID: " + id))
    else
      var a := agents[id];
      Success(Mappers.AgentToResponse(id, a, users[a.userId], cities[a.cityId], states[cities[a.cityId].stateId]))
  }
}
