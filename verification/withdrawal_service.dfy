/**
 * The backend's WithdrawalService: a customer asks to withdraw from a policy,
 * and an admin approves or rejects the request. Approval cancels the policy.
 * Neither decision looks at the request's current status, so a decided
 * request can be decided again.
 *
 * `login` is the name the token carries; it appears in the refusal messages.
 * The e-mail to the customer is not modelled, but the refund it quotes is.
 */
module WithdrawalService {
  import opened Common
  import opened Entities
  import opened Store
  import opened AdminService

  const Pending: string := "PENDING"
  const Approved: string := "APPROVED"
  const Rejected: string := "REJECTED"

  /** withdrawalRequest's refusals, in order. */
  ghost function RequestRefusal(users: map<string, User>, customers: map<string, Customer>,
                                policies: map<string, Policy>, caller: Caller, login: string, policyId: string)
    : (r: Option<Error>)
    requires caller.Some? ==> caller.value in users
    ensures r.None? <==>
              caller.Some? && KeyOfUser(customers, CustomerUser, caller.value).Some?
              && users[caller.value].active && policyId in policies
    ensures caller.None? ==> r == Some(Unauthorized("User is not available for " + login))
    ensures caller.Some? && (KeyOfUser(customers, CustomerUser, caller.value).None? || !users[caller.value].active)
            ==> r == Some(ApiError("Unauthorized withdrawal request"))
  {
    if caller.None? then Some(Unauthorized("User is not available for " + login))
    else if KeyOfUser(customers, CustomerUser, caller.value).None? || !users[caller.value].active then
      Some(ApiError("Unauthorized withdrawal request"))
    else if policyId !in policies then Some(NotFound("Policy not found with PolicyId:" + policyId))
    else None
  }

  /**
   * withdrawalRequest: a PENDING request of the caller's customer for the
   * policy, with no admin yet, stored under the fresh id.
   */
  method RequestWithdrawal(db: Db, caller: Caller, login: string, policyId: string, now: Instant, freshId: nat)
    returns (r: Result<()>)
    requires db.Valid()
    requires caller.Some? ==> caller.value in db.users
    requires freshId !in db.withdrawals
    modifies db`withdrawals
    ensures db.Valid()
    ensures match RequestRefusal(db.users, db.customers, db.policies, caller, login, policyId)
            case Some(e) => r == Failure(e) && db.withdrawals == old(db.withdrawals)
            case None =>
              r == Success(())
              && db.withdrawals == old(db.withdrawals)[freshId := WithdrawalRequest(
                   KeyOfUser(db.customers, CustomerUser, caller.value).value, policyId, None, now, Pending)]
  {
    var key := CheckRequester(db, caller, login, policyId);
    if key.Failure? {
      return Failure(key.error);
    }
    db.SaveWithdrawal(freshId, WithdrawalRequest(key.value, policyId, None, now, Pending));
    r := Success(());
  }

  /** The checks of withdrawalRequest: the caller's customer id, or the first refusal. */
  method CheckRequester(db: Db, caller: Caller, login: string, policyId: string) returns (r: Result<string>)
    requires db.Valid()
    requires caller.Some? ==> caller.value in db.users
    ensures match RequestRefusal(db.users, db.customers, db.policies, caller, login, policyId)
            case Some(e) => r == Failure(e)
            case None => r == Success(KeyOfUser(db.customers, CustomerUser, caller.value).value)
  {
    if caller.None? {
      return Failure(Unauthorized("User is not available for " + login));
    }
    var key := db.FindCustomer(caller.value);
    if key.None? || !db.users[caller.value].active {
      return Failure(ApiError("Unauthorized withdrawal request"));
    }
    if policyId !in db.policies {
      return Failure(NotFound("Policy not found with PolicyId:" + policyId));
    }
    r := Success(key.value);
  }

  datatype Decision = Approve | Reject

  /**
   * The refusals of approveWithdrawal and rejectWithdrawal, in order. An
   * unknown user is "unauthorized" for approval but "not found" for rejection.
   */
  ghost function DecisionRefusal(users: map<string, User>, admins: map<string, Admin>,
                                 withdrawals: map<nat, WithdrawalRequest>, caller: Caller, login: string,
                                 id: nat, d: Decision)
    : (r: Option<Error>)
    requires caller.Some? ==> caller.value in users
    ensures r.None? <==>
              caller.Some? && KeyOfUser(admins, AdminUser, caller.value).Some?
              && users[caller.value].active && id in withdrawals
    ensures caller.None? && d == Approve ==> r == Some(Unauthorized("User is not available for " + login))
    ensures caller.None? && d == Reject ==> r == Some(NotFound("User is not available for " + login))
    ensures (caller.Some? && KeyOfUser(admins, AdminUser, caller.value).Some? && users[caller.value].active
             && id !in withdrawals) ==> r == Some(NotFound("Withdrawal Request not found"))
  {
    if caller.None? then
      if d == Approve then Some(Unauthorized("User is not available for " + login))
      else Some(NotFound("User is not available for " + login))
    else if KeyOfUser(admins, AdminUser, caller.value).None? || !users[caller.value].active then
      if d == Approve then Some(ApiError("Unauthorized admin approval attempt by user: " + login))
      else Some(ApiError("Unauthorized admin rejection attempt by user: " + login))
    else if id !in withdrawals then Some(NotFound("Withdrawal Request not found"))
    else None
  }

  /**
   * The refund the approval e-mail quotes: the amount paid less the latest
   * withdrawal penalty, as a percentage.
   */
  function RefundQuote(totalAmountPaid: real, withdrawalPenalty: real): (r: real)
    ensures totalAmountPaid >= 0.0 && 0.0 <= withdrawalPenalty <= 100.0 ==> 0.0 <= r <= totalAmountPaid
    ensures withdrawalPenalty == 0.0 ==> r == totalAmountPaid
    ensures withdrawalPenalty == 100.0 ==> r == 0.0
  {
    var keep := 1.0 - withdrawalPenalty / 100.0;
    assert totalAmountPaid >= 0.0 && 0.0 <= withdrawalPenalty <= 100.0 ==>
             0.0 <= keep <= 1.0 && totalAmountPaid * keep <= totalAmountPaid * 1.0;
    totalAmountPaid * keep
  }

  /** A higher penalty never gives a larger refund. */
  lemma RefundFallsWithPenalty(totalAmountPaid: real, p1: real, p2: real)
    requires totalAmountPaid >= 0.0 && p1 <= p2
    ensures RefundQuote(totalAmountPaid, p2) <= RefundQuote(totalAmountPaid, p1)
  {
    var k1 := 1.0 - p1 / 100.0;
    var k2 := 1.0 - p2 / 100.0;
    MulMonotone(k2, k1, totalAmountPaid);
    var lower := RefundQuote(totalAmountPaid, p2);
    var higher := RefundQuote(totalAmountPaid, p1);
    assert lower == k2 * totalAmountPaid && higher == k1 * totalAmountPaid;
  }

  /**
   * approveWithdrawal: the request becomes APPROVED under the caller's admin
   * and its policy CANCELLED, whatever the request's status was; both are
   * saved before the latest insurance setting is read for the refund quote,
   * so with no setting the call fails after the changes are made.
   */
  method ApproveWithdrawal(db: Db, caller: Caller, login: string, id: nat) returns (r: Result<string>)
    requires db.Valid()
    requires caller.Some? ==> caller.value in db.users
    modifies db`withdrawals, db`policies
    ensures db.Valid()
    ensures match DecisionRefusal(db.users, db.admins, old(db.withdrawals), caller, login, id, Approve)
            case Some(e) => r == Failure(e) && db.withdrawals == old(db.withdrawals) && db.policies == old(db.policies)
            case None =>
              var w := old(db.withdrawals)[id];
              var aid := KeyOfUser(db.admins, AdminUser, caller.value).value;
              db.withdrawals == old(db.withdrawals)[id := w.(status := Approved, adminId := Some(aid))]
              && db.policies == old(db.policies)[w.policyId := old(db.policies)[w.policyId].(status := Cancelled)]
              && r == (if db.insuranceSettings == [] then Failure(NullDereference) else Success("Withdrawal approved"))
  {
    var admin := CheckDecider(db, caller, login, id, Approve);
    if admin.Failure? {
      r := Failure(admin.error);
    } else {
      r := ApproveAs(db, id, admin.value);
    }
  }

  /** approveWithdrawal once the admin is known: the saves, then the settings read for the refund quote. */
  method ApproveAs(db: Db, id: nat, adminId: string) returns (r: Result<string>)
    requires db.Valid() && id in db.withdrawals && adminId in db.admins
    modifies db`withdrawals, db`policies
    ensures db.Valid()
    ensures var w := old(db.withdrawals)[id];
            db.withdrawals == old(db.withdrawals)[id := w.(status := Approved, adminId := Some(adminId))]
            && db.policies == old(db.policies)[w.policyId := old(db.policies)[w.policyId].(status := Cancelled)]
    ensures r == (if db.insuranceSettings == [] then Failure(NullDereference) else Success("Withdrawal approved"))
  {
    CancelForWithdrawal(db, id, adminId);
    var setting := GetLastInsuranceSetting(db.insuranceSettings);
    r := if setting.None? then Failure(NullDereference) else Success("Withdrawal approved");
  }

  /** The saves of approveWithdrawal: the request APPROVED under the admin, its policy CANCELLED. */
  method CancelForWithdrawal(db: Db, id: nat, adminId: string)
    requires db.Valid() && id in db.withdrawals && adminId in db.admins
    modifies db`withdrawals, db`policies
    ensures db.Valid()
    ensures var w := old(db.withdrawals)[id];
            db.withdrawals == old(db.withdrawals)[id := w.(status := Approved, adminId := Some(adminId))]
            && db.policies == old(db.policies)[w.policyId := old(db.policies)[w.policyId].(status := Cancelled)]
  {
    var w := db.withdrawals[id];
    db.SaveWithdrawal(id, w.(status := Approved, adminId := Some(adminId)));
    var policy := db.policies[w.policyId];
    db.SavePolicy(w.policyId, policy.(status := Cancelled));
  }

  /** The checks of approveWithdrawal and rejectWithdrawal: the caller's admin id, or the first refusal. */
  method CheckDecider(db: Db, caller: Caller, login: string, id: nat, d: Decision) returns (r: Result<string>)
    requires db.Valid()
    requires caller.Some? ==> caller.value in db.users
    ensures match DecisionRefusal(db.users, db.admins, db.withdrawals, caller, login, id, d)
            case Some(e) => r == Failure(e)
            case None => r == Success(KeyOfUser(db.admins, AdminUser, caller.value).value)
  {
    if caller.None? {
      if d == Approve {
        return Failure(Unauthorized("User is not available for " + login));
      }
      return Failure(NotFound("User is not available for " + login));
    }
    var key := db.FindAdmin(caller.value);
    if key.None? || !db.users[caller.value].active {
      if d == Approve {
        return Failure(ApiError("Unauthorized admin approval attempt by user: " + login));
      }
      return Failure(ApiError("Unauthorized admin rejection attempt by user: " + login));
    }
    if id !in db.withdrawals {
      return Failure(NotFound("Withdrawal Request not found"));
    }
    r := Success(key.value);
  }

  /** rejectWithdrawal: the request becomes REJECTED under the caller's admin; the policy is untouched. */
  method RejectWithdrawal(db: Db, caller: Caller, login: string, id: nat) returns (r: Result<string>)
    requires db.Valid()
    requires caller.Some? ==> caller.value in db.users
    modifies db`withdrawals
    ensures db.Valid()
    ensures match DecisionRefusal(db.users, db.admins, old(db.withdrawals), caller, login, id, Reject)
            case Some(e) => r == Failure(e) && db.withdrawals == old(db.withdrawals)
            case None =>
              var aid := KeyOfUser(db.admins, AdminUser, caller.value).value;
              r == Success("Withdrawal rejected")
              && db.withdrawals == old(db.withdrawals)[id := old(db.withdrawals)[id].(status := Rejected, adminId := Some(aid))]
  {
    var admin := CheckDecider(db, caller, login, id, Reject);
    if admin.Failure? {
      r := Failure(admin.error);
    } else {
      RejectAs(db, id, admin.value);
      r := Success("Withdrawal rejected");
    }
  }

  /** The save of rejectWithdrawal: the request marked REJECTED under the deciding admin. */
  method RejectAs(db: Db, id: nat, adminId: string)
    requires db.Valid() && id in db.withdrawals && adminId in db.admins
    modifies db`withdrawals
    ensures db.Valid()
    ensures db.withdrawals == old(db.withdrawals)[id := old(db.withdrawals)[id].(status := Rejected, adminId := Some(adminId))]
  {
    var w := db.withdrawals[id];
    db.SaveWithdrawal(id, w.(status := Rejected, adminId := Some(adminId)));
  }

  // ----- listings -----

  datatype WithdrawalRequestDto = WithdrawalRequestDto(
    customerId: string,
    withdrawalRequestId: nat,
    policyId: string,
    requestDate: Instant,
    status: string,
    withdrawalPenalty: Option<real>)

  /** The admin listing's row: the request's own fields, no penalty. */
  function ToDto(id: nat, w: WithdrawalRequest): (d: WithdrawalRequestDto)
    ensures d.withdrawalRequestId == id && d.customerId == w.customerId && d.policyId == w.policyId
    ensures d.requestDate == w.requestDate && d.status == w.status && d.withdrawalPenalty.None?
  {
    WithdrawalRequestDto(w.customerId, id, w.policyId, w.requestDate, w.status, None)
  }

  function ToDtos(rows: seq<(nat, WithdrawalRequest)>): (ds: seq<WithdrawalRequestDto>)
    ensures |ds| == |rows|
    ensures forall i :: 0 <= i < |rows| ==> ds[i] == ToDto(rows[i].0, rows[i].1)
  {
    seq(|rows|, i requires 0 <= i < |rows| => ToDto(rows[i].0, rows[i].1))
  }

  /** getAllWithdrawalRequests after the repository query: one row per request, in page order. */
  method AllWithdrawalRequests(page: Page<(nat, WithdrawalRequest)>) returns (r: PagedResponse<WithdrawalRequestDto>)
    ensures r.content == ToDtos(page.content)
    ensures r.page == page.number && r.size == page.size && r.totalElements == page.totalElements
    ensures r.totalPages == page.totalPages && r.last == page.last
  {
    var responses: seq<WithdrawalRequestDto> := [];
    var i := 0;
    while i < |page.content|
      invariant 0 <= i <= |page.content|
      invariant responses == ToDtos(page.content[..i])
    {
      responses := responses + [ToDto(page.content[i].0, page.content[i].1)];
      i := i + 1;
    }
    assert page.content[..i] == page.content;
    r := PagedResponse(responses, page.number, page.size, page.totalElements, page.totalPages, page.last);
  }

  /** The scheme behind a stored policy. */
  function SchemeOfPolicy(policyId: string, policies: map<string, Policy>, plans: map<string, InsurancePlan>,
                          schemes: map<string, InsuranceScheme>): InsuranceScheme
    requires policyId in policies
    requires policies[policyId].planId in plans && plans[policies[policyId].planId].schemeId in schemes
  {
    schemes[plans[policies[policyId].planId].schemeId]
  }

  /** The agent listing's rows: the same fields plus the policy's scheme's withdrawal penalty. */
  predicate RowsResolve(rows: seq<(nat, WithdrawalRequest)>, policies: map<string, Policy>,
                        plans: map<string, InsurancePlan>, schemes: map<string, InsuranceScheme>)
  {
    forall i :: 0 <= i < |rows| ==>
      rows[i].1.policyId in policies && policies[rows[i].1.policyId].planId in plans
      && plans[policies[rows[i].1.policyId].planId].schemeId in schemes
  }

  function AgentDtos(rows: seq<(nat, WithdrawalRequest)>, policies: map<string, Policy>,
                     plans: map<string, InsurancePlan>, schemes: map<string, InsuranceScheme>)
    : (ds: seq<WithdrawalRequestDto>)
    requires RowsResolve(rows, policies, plans, schemes)
    ensures |ds| == |rows|
    ensures forall i :: 0 <= i < |rows| ==>
              ds[i] == ToDto(rows[i].0, rows[i].1).(withdrawalPenalty :=
                         Some(SchemeOfPolicy(rows[i].1.policyId, policies, plans, schemes).withdrawalPenalty))
  {
    seq(|rows|, i requires 0 <= i < |rows| =>
          ToDto(rows[i].0, rows[i].1).(withdrawalPenalty :=
            Some(SchemeOfPolicy(rows[i].1.policyId, policies, plans, schemes).withdrawalPenalty)))
  }

  /**
   * The rows findByAgent pages through: stored requests, each on a policy
   * the agent sold.
   */
  predicate RowsOfAgent(rows: seq<(nat, WithdrawalRequest)>, withdrawals: map<nat, WithdrawalRequest>,
                        policies: map<string, Policy>, agentId: string)
  {
    forall i :: 0 <= i < |rows| ==>
      rows[i].0 in withdrawals && withdrawals[rows[i].0] == rows[i].1
      && rows[i].1.policyId in policies && policies[rows[i].1.policyId].agentId == Some(agentId)
  }

  /**
   * getMyWithdrawals after the repository query: the caller must be an agent;
   * the page holds that agent's requests only, and each row carries its
   * policy's withdrawal penalty.
   */
  method MyWithdrawals(db: Db, caller: Caller, login: string, page: Page<(nat, WithdrawalRequest)>)
    returns (r: Result<PagedResponse<WithdrawalRequestDto>>)
    requires db.Valid()
    requires caller.Some? ==> caller.value in db.users
    requires forall i :: 0 <= i < |page.content| ==> page.content[i].1.policyId in db.policies
    requires caller.Some? && KeyOfUser(db.agents, AgentUser, caller.value).Some? ==>
               RowsOfAgent(page.content, db.withdrawals, db.policies, KeyOfUser(db.agents, AgentUser, caller.value).value)
    ensures r.Success? ==>
              caller.Some?
              && forall i :: 0 <= i < |r.value.content| ==>
                   r.value.content[i].withdrawalRequestId in db.withdrawals
                   && db.withdrawals[r.value.content[i].withdrawalRequestId].policyId == r.value.content[i].policyId
                   && r.value.content[i].policyId in db.policies
                   && db.policies[r.value.content[i].policyId].agentId == KeyOfUser(db.agents, AgentUser, caller.value)
    ensures caller.None? ==> r == Failure(Unauthorized("User is not available for the provided token."))
    ensures caller.Some? && KeyOfUser(db.agents, AgentUser, caller.value).None? ==>
              r == Failure(ApiError("Agent not found for user: " + login))
    ensures r.Success? ==>
              caller.Some? && KeyOfUser(db.agents, AgentUser, caller.value).Some?
              && RowsResolve(page.content, db.policies, db.plans, db.schemes)
              && r.value.content == AgentDtos(page.content, db.policies, db.plans, db.schemes)
              && r.value.page == page.number && r.value.size == page.size
              && r.value.totalElements == page.totalElements && r.value.totalPages == page.totalPages
              && r.value.last == page.last
    ensures caller.Some? && KeyOfUser(db.agents, AgentUser, caller.value).Some? ==> r.Success?
  {
    if caller.None? {
      return Failure(Unauthorized("User is not available for the provided token."));
    }
    var key := db.FindAgent(caller.value);
    if key.None? {
      return Failure(ApiError("Agent not found for user: " + login));
    }
    assert RowsResolve(page.content, db.policies, db.plans, db.schemes);
    var content := AgentDtos(page.content, db.policies, db.plans, db.schemes);
    r := Success(PagedResponse(content, page.number, page.size, page.totalElements, page.totalPages, page.last));
  }
}
