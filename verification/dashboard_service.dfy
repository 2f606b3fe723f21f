/**
 * The agent's dashboard figures in the backend's DashboardService: the
 * commission and withdrawal-penalty totals over the agent's policies, the
 * number of policies sold and the number of approved withdrawals.
 * findByAgent's list is an input; its order is the repository's.
 */
module DashboardService {
  import opened Common
  import opened Entities
  import opened Store
  import WithdrawalService

  /** The refusals shared by the four figures: an unknown user, then a user with no agent record. */
  ghost function AgentRefusal(agents: map<string, Agent>, caller: Caller): (r: Option<Error>)
    ensures r.None? <==> caller.Some? && KeyOfUser(agents, AgentUser, caller.value).Some?
    ensures caller.None? ==> r == Some(Unauthorized("User is not available for token"))
    ensures caller.Some? && r.Some? ==> r == Some(Unauthorized("User is not unauthorized"))
  {
    if caller.None? then Some(Unauthorized("User is not available for token"))
    else if KeyOfUser(agents, AgentUser, caller.value).None? then Some(Unauthorized("User is not unauthorized"))
    else None
  }

  /** The policy's plan and the plan's scheme are stored. */
  predicate Resolves(policyId: string, policies: map<string, Policy>, plans: map<string, InsurancePlan>,
                     schemes: map<string, InsuranceScheme>)
  {
    policyId in policies && policies[policyId].planId in plans && plans[policies[policyId].planId].schemeId in schemes
  }

  predicate AllResolve(ids: seq<string>, policies: map<string, Policy>, plans: map<string, InsurancePlan>,
                       schemes: map<string, InsuranceScheme>)
  {
    forall i :: 0 <= i < |ids| ==> Resolves(ids[i], policies, plans, schemes)
  }

  /** The agent's policies, each once: what findByAgent returns. */
  predicate ListsAgentPolicies(ids: seq<string>, policies: map<string, Policy>, agentId: string)
  {
    (forall i :: 0 <= i < |ids| ==> ids[i] in policies && policies[ids[i]].agentId == Some(agentId))
    && (forall k :: k in policies && policies[k].agentId == Some(agentId) ==> k in ids)
    && (forall i, j :: 0 <= i < j < |ids| ==> ids[i] != ids[j])
  }

  /** The scheme figure a total adds up. */
  datatype Figure = Commission | Penalty

  function FigureOf(s: InsuranceScheme, f: Figure): real
  {
    match f
    case Commission => s.newRegistrationCommission
    case Penalty => s.withdrawalPenalty
  }

  /** The figure of each listed policy's scheme, added up in list order from 0.0. */
  function Total(ids: seq<string>, policies: map<string, Policy>, plans: map<string, InsurancePlan>,
                 schemes: map<string, InsuranceScheme>, f: Figure): real
    requires AllResolve(ids, policies, plans, schemes)
  {
    if ids == [] then 0.0
    else
      Total(ids[..|ids| - 1], policies, plans, schemes, f)
      + FigureOf(WithdrawalService.SchemeOfPolicy(ids[|ids| - 1], policies, plans, schemes), f)
  }

  /** Every listed policy's scheme has a non-negative figure. */
  predicate FiguresNonNegative(ids: seq<string>, policies: map<string, Policy>, plans: map<string, InsurancePlan>,
                               schemes: map<string, InsuranceScheme>, f: Figure)
    requires AllResolve(ids, policies, plans, schemes)
  {
    forall i :: 0 <= i < |ids| ==> FigureOf(WithdrawalService.SchemeOfPolicy(ids[i], policies, plans, schemes), f) >= 0.0
  }

  /** With non-negative figures the total is non-negative. */
  lemma {:induction false} TotalNonNegative(ids: seq<string>, policies: map<string, Policy>,
                                            plans: map<string, InsurancePlan>, schemes: map<string, InsuranceScheme>,
                                            f: Figure)
    requires AllResolve(ids, policies, plans, schemes)
    requires FiguresNonNegative(ids, policies, plans, schemes, f)
    ensures Total(ids, policies, plans, schemes, f) >= 0.0
  {
    if ids != [] {
      var front := ids[..|ids| - 1];
      assert AllResolve(front, policies, plans, schemes);
      assert forall i :: 0 <= i < |front| ==> front[i] == ids[i];
      TotalNonNegative(front, policies, plans, schemes, f);
    }
  }

  /** Adding policies with non-negative figures never lowers the total. */
  lemma {:induction false} TotalGrows(ids: seq<string>, more: seq<string>, policies: map<string, Policy>,
                                      plans: map<string, InsurancePlan>, schemes: map<string, InsuranceScheme>,
                                      f: Figure)
    requires AllResolve(ids + more, policies, plans, schemes)
    requires FiguresNonNegative(ids + more, policies, plans, schemes, f)
    ensures AllResolve(ids, policies, plans, schemes)
    ensures Total(ids, policies, plans, schemes, f) <= Total(ids + more, policies, plans, schemes, f)
  {
    var all := ids + more;
    assert forall i :: 0 <= i < |ids| ==> ids[i] == all[i];
    if more != [] {
      var front := more[..|more| - 1];
      assert all[..|all| - 1] == ids + front;
      assert forall i :: 0 <= i < |ids + front| ==> (ids + front)[i] == all[i];
      TotalGrows(ids, front, policies, plans, schemes, f);
      assert FigureOf(WithdrawalService.SchemeOfPolicy(all[|all| - 1], policies, plans, schemes), f) >= 0.0;
    } else {
      assert all == ids;
    }
  }

  /** The loop over findByAgent's list: the running total after i policies is Total of the first i. */
  method SumFigure(db: Db, ids: seq<string>, f: Figure) returns (total: real)
    requires db.Valid()
    requires forall i :: 0 <= i < |ids| ==> ids[i] in db.policies
    ensures AllResolve(ids, db.policies, db.plans, db.schemes)
    ensures total == Total(ids, db.policies, db.plans, db.schemes, f)
  {
    assert AllResolve(ids, db.policies, db.plans, db.schemes);
    total := 0.0;
    for i := 0 to |ids|
      invariant total == Total(ids[..i], db.policies, db.plans, db.schemes, f)
    {
      assert ids[..i + 1][..i] == ids[..i];
      var s := WithdrawalService.SchemeOfPolicy(ids[i], db.policies, db.plans, db.schemes);
      total := total + FigureOf(s, f);
    }
    assert ids[..|ids|] == ids;
  }

  /** getMyCommissions: the newRegistrationCommission total over the agent's policies. */
  method MyCommissions(db: Db, caller: Caller, agentPolicies: seq<string>) returns (r: Result<real>)
    requires db.Valid()
    requires forall i :: 0 <= i < |agentPolicies| ==> agentPolicies[i] in db.policies
    requires caller.Some? && KeyOfUser(db.agents, AgentUser, caller.value).Some? ==>
               ListsAgentPolicies(agentPolicies, db.policies, KeyOfUser(db.agents, AgentUser, caller.value).value)
    ensures AllResolve(agentPolicies, db.policies, db.plans, db.schemes)
    ensures match AgentRefusal(db.agents, caller)
            case Some(e) => r == Failure(e)
            case None =>
              var agentId := KeyOfUser(db.agents, AgentUser, caller.value).value;
              r == Success(Total(agentPolicies, db.policies, db.plans, db.schemes, Commission))
              && Elements(agentPolicies) == AgentPolicySet(db.policies, agentId)
              && |agentPolicies| == |AgentPolicySet(db.policies, agentId)|
  {
    assert AllResolve(agentPolicies, db.policies, db.plans, db.schemes);
    if caller.None? {
      return Failure(Unauthorized("User is not available for token"));
    }
    var agent := db.FindAgent(caller.value);
    if agent.None? {
      return Failure(Unauthorized("User is not unauthorized"));
    }
    SoldCountsAgentPolicies(agentPolicies, db.policies, agent.value);
    var total := SumFigure(db, agentPolicies, Commission);
    r := Success(total);
  }

  /** getMyWithdrawals: the withdrawalPenalty total over all the agent's policies, withdrawn or not. */
  method MyPenalties(db: Db, caller: Caller, agentPolicies: seq<string>) returns (r: Result<real>)
    requires db.Valid()
    requires forall i :: 0 <= i < |agentPolicies| ==> agentPolicies[i] in db.policies
    requires caller.Some? && KeyOfUser(db.agents, AgentUser, caller.value).Some? ==>
               ListsAgentPolicies(agentPolicies, db.policies, KeyOfUser(db.agents, AgentUser, caller.value).value)
    ensures AllResolve(agentPolicies, db.policies, db.plans, db.schemes)
    ensures match AgentRefusal(db.agents, caller)
            case Some(e) => r == Failure(e)
            case None =>
              var agentId := KeyOfUser(db.agents, AgentUser, caller.value).value;
              r == Success(Total(agentPolicies, db.policies, db.plans, db.schemes, Penalty))
              && Elements(agentPolicies) == AgentPolicySet(db.policies, agentId)
              && |agentPolicies| == |AgentPolicySet(db.policies, agentId)|
  {
    assert AllResolve(agentPolicies, db.policies, db.plans, db.schemes);
    if caller.None? {
      return Failure(Unauthorized("User is not available for token"));
    }
    var agent := db.FindAgent(caller.value);
    if agent.None? {
      return Failure(Unauthorized("User is not unauthorized"));
    }
    SoldCountsAgentPolicies(agentPolicies, db.policies, agent.value);
    var total := SumFigure(db, agentPolicies, Penalty);
    r := Success(total);
  }

  /** The stored policies the agent sold. */
  ghost function AgentPolicySet(policies: map<string, Policy>, agentId: string): set<string>
  {
    set k | k in policies && policies[k].agentId == Some(agentId)
  }

  function Elements(ids: seq<string>): (s: set<string>)
    ensures forall x :: x in s <==> x in ids
  {
    if ids == [] then {} else Elements(ids[..|ids| - 1]) + {ids[|ids| - 1]}
  }

  /** A list without repeats has as many elements as its set. */
  lemma {:induction false} DistinctListSize(ids: seq<string>)
    requires forall i, j :: 0 <= i < j < |ids| ==> ids[i] != ids[j]
    ensures |Elements(ids)| == |ids|
  {
    if ids != [] {
      var front := ids[..|ids| - 1];
      DistinctListSize(front);
      assert ids[|ids| - 1] !in front;
    }
  }

  /** The sold count, the length of findByAgent's list, is the number of stored policies the agent sold. */
  lemma SoldCountsAgentPolicies(ids: seq<string>, policies: map<string, Policy>, agentId: string)
    requires ListsAgentPolicies(ids, policies, agentId)
    ensures Elements(ids) == AgentPolicySet(policies, agentId)
    ensures |ids| == |AgentPolicySet(policies, agentId)|
  {
    DistinctListSize(ids);
    assert Elements(ids) == AgentPolicySet(policies, agentId);
  }

  /** getSoldPolicies: the size of findByAgent's list. */
  method SoldPolicies(db: Db, caller: Caller, agentPolicies: seq<string>) returns (r: Result<nat>)
    requires db.Valid()
    requires caller.Some? && KeyOfUser(db.agents, AgentUser, caller.value).Some? ==>
               ListsAgentPolicies(agentPolicies, db.policies, KeyOfUser(db.agents, AgentUser, caller.value).value)
    ensures match AgentRefusal(db.agents, caller)
            case Some(e) => r == Failure(e)
            case None => r == Success(|AgentPolicySet(db.policies, KeyOfUser(db.agents, AgentUser, caller.value).value)|)
  {
    if caller.None? {
      return Failure(Unauthorized("User is not available for token"));
    }
    var agent := db.FindAgent(caller.value);
    if agent.None? {
      return Failure(Unauthorized("User is not unauthorized"));
    }
    SoldCountsAgentPolicies(agentPolicies, db.policies, agent.value);
    r := Success(|agentPolicies|);
  }

  /** The withdrawal requests countApprovedByAgent counts: APPROVED, on a policy of the agent. */
  function ApprovedOfAgent(withdrawals: map<nat, WithdrawalRequest>, policies: map<string, Policy>,
                           agentId: string): (ks: set<nat>)
    ensures forall k :: k in ks <==> k in withdrawals && withdrawals[k].status == WithdrawalService.Approved
                                     && withdrawals[k].policyId in policies
                                     && policies[withdrawals[k].policyId].agentId == Some(agentId)
  {
    set k | k in withdrawals && withdrawals[k].status == WithdrawalService.Approved
            && withdrawals[k].policyId in policies && policies[withdrawals[k].policyId].agentId == Some(agentId)
  }

  /** getCancelledPolicies: the repository count of the agent's approved withdrawal requests. */
  method CancelledPolicies(db: Db, caller: Caller) returns (r: Result<nat>)
    requires db.Valid()
    ensures match AgentRefusal(db.agents, caller)
            case Some(e) => r == Failure(e)
            case None => r == Success(|ApprovedOfAgent(db.withdrawals, db.policies, KeyOfUser(db.agents, AgentUser, caller.value).value)|)
  {
    if caller.None? {
      return Failure(Unauthorized("User is not available for token"));
    }
    var agent := db.FindAgent(caller.value);
    if agent.None? {
      return Failure(Unauthorized("User is not unauthorized"));
    }
    r := Success(|ApprovedOfAgent(db.withdrawals, db.policies, agent.value)|);
  }

  /**
   * Approving a withdrawal on one of the agent's policies (the request
   * approved, the policy cancelled) adds one to the cancelled count, unless
   * the request was already approved: approval does not check the status,
   * and the count does not grow twice.
   */
  lemma ApprovalCountsOnce(withdrawals: map<nat, WithdrawalRequest>, policies: map<string, Policy>,
                           agentId: string, id: nat, adminId: string)
    requires id in withdrawals && withdrawals[id].policyId in policies
    requires policies[withdrawals[id].policyId].agentId == Some(agentId)
    ensures var w := withdrawals[id];
            var after := withdrawals[id := w.(status := WithdrawalService.Approved, adminId := Some(adminId))];
            var cancelled := policies[w.policyId := policies[w.policyId].(status := Cancelled)];
            |ApprovedOfAgent(after, cancelled, agentId)|
            == |ApprovedOfAgent(withdrawals, policies, agentId)| + (if w.status == WithdrawalService.Approved then 0 else 1)
  {
    var w := withdrawals[id];
    var after := withdrawals[id := w.(status := WithdrawalService.Approved, adminId := Some(adminId))];
    var cancelled := policies[w.policyId := policies[w.policyId].(status := Cancelled)];
    var before := ApprovedOfAgent(withdrawals, policies, agentId);
    if w.status == WithdrawalService.Approved {
      assert ApprovedOfAgent(after, cancelled, agentId) == before;
    } else {
      assert ApprovedOfAgent(after, cancelled, agentId) == before + {id};
    }
  }
}
