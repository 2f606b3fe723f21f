/**
 * The database behind the services: one repository per entity. A repository
 * keyed by id is a map from the id to the record; the transaction and
 * document repositories are sequences, because their finder queries return
 * rows in storage order. The settings repositories are sequences in creation
 * order, whose last element is the latest setting.
 *
 * `Valid` is the referential integrity the database's foreign keys enforce,
 * plus the one-profile-per-user rule the `findByUser` finders rely on.
 */
module Store {
  import opened Common
  import opened Dates
  import opened Entities

  /**
   * One page of a repository query, as the repository hands it over: the rows
   * and the page's number, size and totals.
   */
  datatype Page<T> = Page(content: seq<T>, number: nat, size: nat, totalElements: nat, totalPages: nat, last: bool)

  /** The listing DTO built from a page: mapped rows, the page's number, size and totals. */
  datatype PagedResponse<T> = PagedResponse(content: seq<T>, page: nat, size: nat, totalElements: nat,
                                            totalPages: nat, last: bool)

  /** The sort direction of a listing. */
  datatype Direction = Ascending | Descending

  /** `direction.equalsIgnoreCase("DESC") ? descending : ascending`. */
  function SortDirection(direction: string): (d: Direction)
    ensures d == Descending <==> EqualsIgnoreCase(direction, "DESC")
  {
    if EqualsIgnoreCase(direction, "DESC") then Descending else Ascending
  }

  /** The caller's identity: the user the token resolves to, if the user exists. */
  type Caller = Option<string>

  predicate OneProfilePerUser<V>(m: map<string, V>, userOf: V -> string)
  {
    forall a, b :: a in m && b in m && userOf(m[a]) == userOf(m[b]) ==> a == b
  }

  /** Each customer belongs to a stored user, and no user has two customers. */
  predicate CustomerProfiles(customers: map<string, Customer>, users: map<string, User>)
  {
    (forall k :: k in customers ==> customers[k].userId in users)
    && forall a, b :: a in customers && b in customers && customers[a].userId == customers[b].userId ==> a == b
  }

  /** Each agent belongs to a stored user, and no user has two agents. */
  predicate AgentProfiles(agents: map<string, Agent>, users: map<string, User>)
  {
    (forall k :: k in agents ==> agents[k].userId in users)
    && forall a, b :: a in agents && b in agents && agents[a].userId == agents[b].userId ==> a == b
  }

  /** Each admin belongs to a stored user, and no user has two admins. */
  predicate AdminProfiles(admins: map<string, Admin>, users: map<string, User>)
  {
    (forall k :: k in admins ==> admins[k].userId in users)
    && forall a, b :: a in admins && b in admins && admins[a].userId == admins[b].userId ==> a == b
  }

  /** Each employee belongs to a stored user, and no user has two employees. */
  predicate EmployeeProfiles(employees: map<string, Employee>, users: map<string, User>)
  {
    (forall k :: k in employees ==> employees[k].userId in users)
    && forall a, b :: a in employees && b in employees && employees[a].userId == employees[b].userId ==> a == b
  }

  predicate CustomersLinked(customers: map<string, Customer>, cities: map<string, City>,
                            agents: map<string, Agent>, employees: map<string, Employee>)
  {
    forall k :: k in customers ==>
      customers[k].cityId in cities
      && (customers[k].agentId.Some? ==> customers[k].agentId.value in agents)
      && (customers[k].verifiedBy.Some? ==> customers[k].verifiedBy.value in employees)
  }

  predicate AgentsLinked(agents: map<string, Agent>, cities: map<string, City>)
  {
    forall k :: k in agents ==> agents[k].cityId in cities
  }

  predicate CitiesLinked(cities: map<string, City>, states: map<string, State>)
  {
    forall k :: k in cities ==> cities[k].stateId in states
  }

  predicate SchemesLinked(schemes: map<string, InsuranceScheme>, types: map<string, InsuranceType>)
  {
    forall k :: k in schemes ==> schemes[k].typeId in types
  }

  predicate PlansLinked(plans: map<string, InsurancePlan>, schemes: map<string, InsuranceScheme>)
  {
    forall k :: k in plans ==> plans[k].schemeId in schemes
  }

  predicate PoliciesLinked(policies: map<string, Policy>, plans: map<string, InsurancePlan>,
                           customers: map<string, Customer>, agents: map<string, Agent>)
  {
    forall k :: k in policies ==>
      policies[k].planId in plans
      && policies[k].customerId in customers
      && (policies[k].agentId.Some? ==> policies[k].agentId.value in agents)
  }

  /** Every stored policy's dates are calendar dates. */
  predicate PolicyDatesValid(policies: map<string, Policy>)
  {
    forall k :: k in policies ==>
      ValidDate(policies[k].startDate) && ValidDate(policies[k].endDate) && ValidDate(policies[k].nextPaymentDate)
  }

  predicate TransactionsLinked(transactions: seq<Transaction>, policies: map<string, Policy>)
  {
    forall i :: 0 <= i < |transactions| ==> transactions[i].policyId in policies
  }

  predicate WithdrawalsLinked(withdrawals: map<nat, WithdrawalRequest>, customers: map<string, Customer>,
                              policies: map<string, Policy>, admins: map<string, Admin>)
  {
    forall k :: k in withdrawals ==>
      withdrawals[k].customerId in customers
      && withdrawals[k].policyId in policies
      && (withdrawals[k].adminId.Some? ==> withdrawals[k].adminId.value in admins)
  }

  predicate ClaimsLinked(claims: map<nat, Claim>, policies: map<string, Policy>)
  {
    forall k :: k in claims ==> claims[k].policyId in policies
  }

  /** A document's claim, when it has one, is a stored claim (the document side owns the relation). */
  predicate DocumentsLinked(documents: seq<Document>, claims: map<nat, Claim>)
  {
    forall i :: 0 <= i < |documents| && documents[i].claimId.Some? ==> documents[i].claimId.value in claims
  }

  predicate QueriesLinked(queries: map<nat, CustomerQuery>, customers: map<string, Customer>,
                          employees: map<string, Employee>)
  {
    forall k :: k in queries ==>
      queries[k].customerId in customers
      && (queries[k].employeeId.Some? ==> queries[k].employeeId.value in employees)
  }

  /** A policy whose plan, customer and agent exist and whose dates are calendar dates. */
  predicate PolicyFits(p: Policy, plans: map<string, InsurancePlan>, customers: map<string, Customer>,
                       agents: map<string, Agent>)
  {
    p.planId in plans && p.customerId in customers && (p.agentId.Some? ==> p.agentId.value in agents)
    && ValidDate(p.startDate) && ValidDate(p.endDate) && ValidDate(p.nextPaymentDate)
  }

  /** Storing a fitting policy, new or updated, keeps every link into the policy repository. */
  lemma StorePolicyKeepsLinks(policies: map<string, Policy>, plans: map<string, InsurancePlan>,
                              customers: map<string, Customer>, agents: map<string, Agent>, admins: map<string, Admin>,
                              transactions: seq<Transaction>, withdrawals: map<nat, WithdrawalRequest>,
                              claims: map<nat, Claim>, id: string, p: Policy)
    requires PoliciesLinked(policies, plans, customers, agents) && PolicyDatesValid(policies)
    requires TransactionsLinked(transactions, policies)
    requires WithdrawalsLinked(withdrawals, customers, policies, admins) && ClaimsLinked(claims, policies)
    requires PolicyFits(p, plans, customers, agents)
    ensures PoliciesLinked(policies[id := p], plans, customers, agents) && PolicyDatesValid(policies[id := p])
    ensures TransactionsLinked(transactions, policies[id := p])
    ensures WithdrawalsLinked(withdrawals, customers, policies[id := p], admins) && ClaimsLinked(claims, policies[id := p])
  {
  }

  /** Storing a request whose customer, policy and admin exist keeps the request links. */
  lemma StoreWithdrawalKeepsLinks(withdrawals: map<nat, WithdrawalRequest>, customers: map<string, Customer>,
                                  policies: map<string, Policy>, admins: map<string, Admin>, id: nat, w: WithdrawalRequest)
    requires WithdrawalsLinked(withdrawals, customers, policies, admins)
    requires w.customerId in customers && w.policyId in policies && (w.adminId.Some? ==> w.adminId.value in admins)
    ensures WithdrawalsLinked(withdrawals[id := w], customers, policies, admins)
  {
  }

  /** Storing a claim on a stored policy keeps the claim and document links. */
  lemma StoreClaimKeepsLinks(claims: map<nat, Claim>, policies: map<string, Policy>, documents: seq<Document>,
                             id: nat, c: Claim)
    requires ClaimsLinked(claims, policies) && DocumentsLinked(documents, claims)
    requires c.policyId in policies
    ensures ClaimsLinked(claims[id := c], policies) && DocumentsLinked(documents, claims[id := c])
  {
  }

  /** Pointing one document at a stored claim keeps the document links. */
  lemma LinkDocumentKeepsLinks(documents: seq<Document>, claims: map<nat, Claim>, i: nat, claimId: nat)
    requires DocumentsLinked(documents, claims)
    requires i < |documents| && claimId in claims
    ensures DocumentsLinked(documents[i := documents[i].(claimId := Some(claimId))], claims)
  {
  }

  /** Storing a query of a stored customer, answered by a stored employee if at all, keeps the query links. */
  lemma StoreQueryKeepsLinks(queries: map<nat, CustomerQuery>, customers: map<string, Customer>,
                             employees: map<string, Employee>, id: nat, q: CustomerQuery)
    requires QueriesLinked(queries, customers, employees)
    requires q.customerId in customers && (q.employeeId.Some? ==> q.employeeId.value in employees)
    ensures QueriesLinked(queries[id := q], customers, employees)
  {
  }

  /** The users with one user's active flag set to `flag`; nothing else changes. */
  function SetUserActive(users: map<string, User>, uid: string, flag: bool): (r: map<string, User>)
    requires uid in users
    ensures r.Keys == users.Keys && r[uid].active == flag
    ensures r[uid] == users[uid].(active := flag)
    ensures forall k :: k in users && k != uid ==> r[k] == users[k]
  {
    users[uid := users[uid].(active := flag)]
  }

  function CustomerUser(c: Customer): string { c.userId }
  function AgentUser(a: Agent): string { a.userId }
  function AdminUser(a: Admin): string { a.userId }
  function EmployeeUser(e: Employee): string { e.userId }

  predicate Consistent(users: map<string, User>, customers: map<string, Customer>, agents: map<string, Agent>,
                       admins: map<string, Admin>, employees: map<string, Employee>, states: map<string, State>,
                       cities: map<string, City>, types: map<string, InsuranceType>,
                       schemes: map<string, InsuranceScheme>, plans: map<string, InsurancePlan>,
                       policies: map<string, Policy>, transactions: seq<Transaction>,
                       withdrawals: map<nat, WithdrawalRequest>, claims: map<nat, Claim>,
                       documents: seq<Document>, queries: map<nat, CustomerQuery>)
  {
    CustomerProfiles(customers, users)
    && AgentProfiles(agents, users)
    && AdminProfiles(admins, users)
    && EmployeeProfiles(employees, users)
    && CustomersLinked(customers, cities, agents, employees)
    && AgentsLinked(agents, cities)
    && CitiesLinked(cities, states)
    && SchemesLinked(schemes, types)
    && PlansLinked(plans, schemes)
    && PoliciesLinked(policies, plans, customers, agents)
    && PolicyDatesValid(policies)
    && TransactionsLinked(transactions, policies)
    && WithdrawalsLinked(withdrawals, customers, policies, admins)
    && ClaimsLinked(claims, policies)
    && DocumentsLinked(documents, claims)
    && QueriesLinked(queries, customers, employees)
  }

  class Db {
    var users: map<string, User>
    var roles: set<string>
    var customers: map<string, Customer>
    var agents: map<string, Agent>
    var admins: map<string, Admin>
    var employees: map<string, Employee>
    var states: map<string, State>
    var cities: map<string, City>
    var types: map<string, InsuranceType>
    var schemes: map<string, InsuranceScheme>
    var plans: map<string, InsurancePlan>
    var policies: map<string, Policy>
    var transactions: seq<Transaction>
    var withdrawals: map<nat, WithdrawalRequest>
    var claims: map<nat, Claim>
    var documents: seq<Document>
    var queries: map<nat, CustomerQuery>
    var taxSettings: seq<TaxSetting>
    var insuranceSettings: seq<InsuranceSetting>

    predicate Valid()
      reads this
    {
      Consistent(users, customers, agents, admins, employees, states, cities, types, schemes, plans, policies,
                 transactions, withdrawals, claims, documents, queries)
    }

    /** An empty database with the given roles seeded. */
    constructor (seededRoles: set<string>)
      ensures Valid()
      ensures roles == seededRoles
      ensures users == map[] && customers == map[] && policies == map[] && transactions == []
    {
      users := map[];
      roles := seededRoles;
      customers := map[];
      agents := map[];
      admins := map[];
      employees := map[];
      states := map[];
      cities := map[];
      types := map[];
      schemes := map[];
      plans := map[];
      policies := map[];
      transactions := [];
      withdrawals := map[];
      claims := map[];
      documents := [];
      queries := map[];
      taxSettings := [];
      insuranceSettings := [];
    }

    /** Set a user's active flag and save the user. */
    method SetActive(uid: string, flag: bool)
      requires Valid() && uid in users
      modifies this`users
      ensures Valid() && users == SetUserActive(old(users), uid, flag)
    {
      users := SetUserActive(users, uid, flag);
    }

    /** transactionRepository.save: a new transaction goes after all stored ones. */
    method AppendTransaction(t: Transaction)
      requires Valid() && t.policyId in policies
      modifies this`transactions
      ensures Valid() && transactions == old(transactions) + [t]
    {
      transactions := transactions + [t];
    }

    /** withdrawalRequestRepository.save: insert or replace the request stored under `id`. */
    method SaveWithdrawal(id: nat, w: WithdrawalRequest)
      requires Valid()
      requires w.customerId in customers && w.policyId in policies && (w.adminId.Some? ==> w.adminId.value in admins)
      modifies this`withdrawals
      ensures Valid() && withdrawals == old(withdrawals)[id := w]
    {
      StoreWithdrawalKeepsLinks(withdrawals, customers, policies, admins, id, w);
      withdrawals := withdrawals[id := w];
    }

    /** claimRepository.save: insert or replace the claim stored under `id`. */
    method SaveClaim(id: nat, c: Claim)
      requires Valid() && c.policyId in policies
      modifies this`claims
      ensures Valid() && claims == old(claims)[id := c]
    {
      claims := claims[id := c];
      StoreClaimKeepsLinks(old(claims), policies, documents, id, c);
    }

    /** Set the owning side of the document-claim relation: document `i` now belongs to claim `claimId`. */
    method LinkDocument(i: nat, claimId: nat)
      requires Valid() && i < |documents| && claimId in claims
      modifies this`documents
      ensures Valid() && documents == old(documents)[i := old(documents)[i].(claimId := Some(claimId))]
    {
      LinkDocumentKeepsLinks(documents, claims, i, claimId);
      documents := documents[i := documents[i].(claimId := Some(claimId))];
    }

    /** stateRepository.save: insert or replace the state stored under `id`. */
    method SaveState(id: string, st: State)
      requires Valid()
      modifies this`states
      ensures Valid() && states == old(states)[id := st]
    {
      states := states[id := st];
    }

    /** cityRepository.save of every city in `updated`: no stored city is lost, each belongs to a stored state. */
    method SaveCities(updated: map<string, City>)
      requires Valid()
      requires cities.Keys <= updated.Keys
      requires forall k :: k in updated ==> updated[k].stateId in states
      modifies this`cities
      ensures Valid() && cities == updated
    {
      cities := updated;
    }

    /** userRepository.save: insert or replace the user stored under `id`. */
    method SaveUser(id: string, u: User)
      requires Valid()
      modifies this`users
      ensures Valid() && users == old(users)[id := u]
    {
      users := users[id := u];
    }

    /** customerRepository.save: a customer of a stored user no other customer has, linked to stored records. */
    method SaveCustomer(id: string, c: Customer)
      requires Valid()
      requires c.userId in users && forall k :: k in customers && k != id ==> customers[k].userId != c.userId
      requires c.cityId in cities && (c.agentId.Some? ==> c.agentId.value in agents)
      requires c.verifiedBy.Some? ==> c.verifiedBy.value in employees
      modifies this`customers
      ensures Valid() && customers == old(customers)[id := c]
    {
      customers := customers[id := c];
    }

    /** agentRepository.save: an agent of a stored user no other agent has, in a stored city. */
    method SaveAgent(id: string, a: Agent)
      requires Valid()
      requires a.userId in users && forall k :: k in agents && k != id ==> agents[k].userId != a.userId
      requires a.cityId in cities
      modifies this`agents
      ensures Valid() && agents == old(agents)[id := a]
    {
      agents := agents[id := a];
    }

    /** A new login and the customer profile that owns it, saved under fresh ids. */
    method SaveNewCustomer(uid: string, u: User, cid: string, c: Customer)
      requires Valid() && uid !in users && cid !in customers
      requires c.userId == uid && c.cityId in cities && (c.agentId.Some? ==> c.agentId.value in agents)
      requires c.verifiedBy.Some? ==> c.verifiedBy.value in employees
      modifies this`users, this`customers
      ensures Valid() && users == old(users)[uid := u] && customers == old(customers)[cid := c]
    {
      SaveUser(uid, u);
      SaveCustomer(cid, c);
    }

    /** A new login and the agent profile that owns it, saved under fresh ids. */
    method SaveNewAgent(uid: string, u: User, aid: string, a: Agent)
      requires Valid() && uid !in users && aid !in agents
      requires a.userId == uid && a.cityId in cities
      modifies this`users, this`agents
      ensures Valid() && users == old(users)[uid := u] && agents == old(agents)[aid := a]
    {
      SaveUser(uid, u);
      SaveAgent(aid, a);
    }

    /** customerQueryRepository.save: insert or replace the query stored under `id`. */
    method SaveQuery(id: nat, q: CustomerQuery)
      requires Valid()
      requires q.customerId in customers && (q.employeeId.Some? ==> q.employeeId.value in employees)
      modifies this`queries
      ensures Valid() && queries == old(queries)[id := q]
    {
      StoreQueryKeepsLinks(queries, customers, employees, id, q);
      queries := queries[id := q];
    }

    /** customerRepository.findByUser. */
    method FindCustomer(u: string) returns (r: Option<string>)
      requires Valid()
      ensures r == KeyOfUser(customers, CustomerUser, u)
    {
      r := FindByUser(customers, CustomerUser, u);
    }

    /** agentRepository.findByUser. */
    method FindAgent(u: string) returns (r: Option<string>)
      requires Valid()
      ensures r == KeyOfUser(agents, AgentUser, u)
    {
      r := FindByUser(agents, AgentUser, u);
    }

    /** adminRepository.findByUser. */
    method FindAdmin(u: string) returns (r: Option<string>)
      requires Valid()
      ensures r == KeyOfUser(admins, AdminUser, u)
    {
      r := FindByUser(admins, AdminUser, u);
    }

    /** employeeRepository.findByUser. */
    method FindEmployee(u: string) returns (r: Option<string>)
      requires Valid()
      ensures r == KeyOfUser(employees, EmployeeUser, u)
    {
      r := FindByUser(employees, EmployeeUser, u);
    }

    /** insurancePlanRepository.save: a plan of a stored scheme; stored plans are never removed. */
    method SavePlan(id: string, p: InsurancePlan)
      requires Valid() && p.schemeId in schemes
      modifies this`plans
      ensures Valid() && plans == old(plans)[id := p]
    {
      plans := plans[id := p];
    }

    /** policyRepository.save: insert or replace the policy stored under `id`. */
    method SavePolicy(id: string, p: Policy)
      requires Valid() && PolicyFits(p, plans, customers, agents)
      modifies this`policies
      ensures Valid() && policies == old(policies)[id := p]
    {
      StorePolicyKeepsLinks(policies, plans, customers, agents, admins, transactions, withdrawals, claims, id, p);
      policies := policies[id := p];
    }
  }

  /**
   * A repository's findByUser: the key of the record that belongs to user `u`,
   * or None when no record does. With one profile per user the key is unique.
   */
  ghost function KeyOfUser<V>(m: map<string, V>, userOf: V -> string, u: string): (r: Option<string>)
    ensures r.Some? ==> r.value in m && userOf(m[r.value]) == u
    ensures r.None? ==> forall k :: k in m ==> userOf(m[k]) != u
  {
    if exists k :: k in m && userOf(m[k]) == u then
      var k :| k in m && userOf(m[k]) == u; Some(k)
    else None
  }

  method FindByUser<V>(m: map<string, V>, userOf: V -> string, u: string) returns (r: Option<string>)
    requires OneProfilePerUser(m, userOf)
    ensures r == KeyOfUser(m, userOf, u)
  {
    if exists k :: k in m && userOf(m[k]) == u {
      var k :| k in m && userOf(m[k]) == u;
      r := Some(k);
    } else {
      r := None;
    }
  }

  /** existsByUsername. */
  predicate UsernameTaken(users: map<string, User>, name: string)
  {
    exists k :: k in users && users[k].username == name
  }

  /** existsByEmail. */
  predicate EmailTaken(users: map<string, User>, email: string)
  {
    exists k :: k in users && users[k].email == email
  }
}
