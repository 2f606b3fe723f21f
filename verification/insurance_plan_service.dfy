/**
 * The backend's InsurancePlanService: each insurance scheme carries the
 * plan that bounds the policies sold under it (terms, ages, amounts and the
 * profit ratio).
 */
module InsurancePlanService {
  import opened Common
  import opened Entities
  import opened Store
  import Mappers

  /**
   * What the repository returns for a scheme's plan: a stored plan of that
   * scheme, or None exactly when the scheme has no plan.
   */
  predicate IsSchemePlan(plans: map<string, InsurancePlan>, schemeId: string, found: Option<string>)
  {
    match found
    case Some(k) => k in plans && plans[k].schemeId == schemeId
    case None => forall k :: k in plans ==> plans[k].schemeId != schemeId
  }

  /** createInsurancePlan: a plan built from the request, under a fresh id, for a stored scheme. */
  method CreatePlan(db: Db, schemeId: string, req: Mappers.InsurancePlanRequest, freshId: string)
    returns (r: Result<string>)
    requires db.Valid() && freshId !in db.plans
    modifies db`plans
    ensures db.Valid()
    ensures schemeId !in db.schemes ==>
              r == Failure(NotFound("Insurance Scheme not found")) && db.plans == old(db.plans)
    ensures schemeId in db.schemes ==>
              r == Success("Insurance Plan Created")
              && db.plans == old(db.plans)[freshId := Mappers.PlanRequestToPlan(req, schemeId)]
  {
    if schemeId !in db.schemes {
      return Failure(NotFound("Insurance Scheme not found"));
    }
    db.SavePlan(freshId, Mappers.PlanRequestToPlan(req, schemeId));
    r := Success("Insurance Plan Created");
  }

  /** The scheme's plan with the seven ranges and the activity copied from the request. */
  function UpdatedPlan(plan: InsurancePlan, req: Mappers.InsurancePlanRequest): (r: InsurancePlan)
    ensures r == Mappers.PlanRequestToPlan(req, plan.schemeId)
  {
    plan.(minimumPolicyTerm := req.minimumPolicyTerm, maximumPolicyTerm := req.maximumPolicyTerm,
          minimumAge := req.minimumAge, maximumAge := req.maximumAge,
          minimumInvestmentAmount := req.minimumInvestmentAmount,
          maximumInvestmentAmount := req.maximumInvestmentAmount,
          profitRatio := req.profitRatio, active := req.active)
  }

  /**
   * updateInsurancePlan: the scheme's existing plan takes the request's
   * fields. A scheme without a plan has a null plan, which the source
   * dereferences.
   */
  method UpdatePlan(db: Db, schemeId: string, req: Mappers.InsurancePlanRequest, schemePlan: Option<string>)
    returns (r: Result<string>)
    requires db.Valid() && IsSchemePlan(db.plans, schemeId, schemePlan)
    modifies db`plans
    ensures db.Valid()
    ensures schemeId !in db.schemes ==>
              r == Failure(NotFound("Insurance Scheme not found")) && db.plans == old(db.plans)
    ensures schemeId in db.schemes && schemePlan.None? ==> r == Failure(NullDereference) && db.plans == old(db.plans)
    ensures schemeId in db.schemes && schemePlan.Some? ==>
              r == Success("Insurance Plan Updated/Created")
              && db.plans == old(db.plans)[schemePlan.value := UpdatedPlan(old(db.plans)[schemePlan.value], req)]
  {
    if schemeId !in db.schemes {
      return Failure(NotFound("Insurance Scheme not found"));
    }
    if schemePlan.None? {
      return Failure(NullDereference);
    }
    var k := schemePlan.value;
    db.SavePlan(k, UpdatedPlan(db.plans[k], req));
    r := Success("Insurance Plan Updated/Created");
  }

  /** An update leaves the plan exactly as creating it from the same request would have. */
  lemma UpdateMatchesCreate(plans: map<string, InsurancePlan>, k: string, req: Mappers.InsurancePlanRequest)
    requires k in plans
    ensures var after := plans[k := UpdatedPlan(plans[k], req)];
            after[k] == Mappers.PlanRequestToPlan(req, plans[k].schemeId)
            && IsSchemePlan(after, plans[k].schemeId, Some(k))
            && UpdatedPlan(after[k], req) == after[k]
  {
  }

  /**
   * activateInsurancePlan (flag true) and deleteInsurancePlan (flag false):
   * unknown and already-set plans are refused, each with its own message.
   */
  function SetPlanActiveSpec(plans: map<string, InsurancePlan>, id: string, flag: bool)
    : (r: Result<map<string, InsurancePlan>>)
    ensures r.Success? <==> id in plans && plans[id].active != flag
    ensures id !in plans ==>
              r == Failure(NotFound(if flag then "Insurance Plan not found with PlanId: " + id
                                    else "Insurance Plan not found with id: " + id))
    ensures id in plans && plans[id].active == flag ==>
              r == Failure(ApiError(if flag then "Insurance Plan is already active with id" + id
                                    else "Insurance Plan is already inactive"))
    ensures r.Success? ==> r.value.Keys == plans.Keys && r.value[id] == plans[id].(active := flag)
                           && forall k :: k in plans && k != id ==> r.value[k] == plans[k]
  {
    if id !in plans then
      Failure(NotFound(if flag then "Insurance Plan not found with PlanId: " + id
                       else "Insurance Plan not found with id: " + id))
    else if plans[id].active == flag then
      Failure(ApiError(if flag then "Insurance Plan is already active with id" + id
                       else "Insurance Plan is already inactive"))
    else Success(plans[id := plans[id].(active := flag)])
  }

  /** Deleting an active plan and activating it again restores every plan. */
  lemma DeleteThenActivateRestores(plans: map<string, InsurancePlan>, id: string)
    requires id in plans && plans[id].active
    ensures SetPlanActiveSpec(plans, id, false).Success?
    ensures SetPlanActiveSpec(SetPlanActiveSpec(plans, id, false).value, id, true) == Success(plans)
  {
    var deleted := SetPlanActiveSpec(plans, id, false).value;
    assert deleted[id := deleted[id].(active := true)] == plans;
  }

  method SetPlanActive(db: Db, id: string, flag: bool) returns (r: Result<string>)
    requires db.Valid()
    modifies db`plans
    ensures db.Valid()
    ensures match SetPlanActiveSpec(old(db.plans), id, flag)
            case Success(plans) =>
              r == Success(if flag then "Insurance Plan Activated" else "Insurance Plan Deactivated")
              && db.plans == plans
            case Failure(e) => r == Failure(e) && db.plans == old(db.plans)
  {
    if id !in db.plans {
      return Failure(NotFound(if flag then "Insurance Plan not found with PlanId: " + id
                              else "Insurance Plan not found with id: " + id));
    }
    if db.plans[id].active == flag {
      return Failure(ApiError(if flag then "Insurance Plan is already active with id" + id
                              else "Insurance Plan is already inactive"));
    }
    db.SavePlan(id, db.plans[id].(active := flag));
    r := Success(if flag then "Insurance Plan Activated" else "Insurance Plan Deactivated");
  }

  /** getInsurancePlan: the scheme's plan as a response; no plan is a null response, not an error. */
  function PlanOfScheme(plans: map<string, InsurancePlan>, schemes: map<string, InsuranceScheme>, schemeId: string,
                        schemePlan: Option<string>): (r: Result<Option<Mappers.InsurancePlanResponse>>)
    requires IsSchemePlan(plans, schemeId, schemePlan)
    ensures r.Failure? <==> schemeId !in schemes
    ensures r.Failure? ==> r.error == NotFound("Insurance Scheme not found")
    ensures r.Success? ==> (r.value.None? <==> schemePlan.None?)
    ensures r.Success? && r.value.Some? ==>
              r.value.value.insuranceId == schemePlan.value && r.value.value.insuranceSchemeId == schemeId
              && Mappers.ResponseFields(r.value.value).active == plans[schemePlan.value].active
  {
    if schemeId !in schemes then Failure(NotFound("Insurance Scheme not found"))
    else if schemePlan.None? then Success(None)
    else Success(Some(Mappers.PlanToResponse(schemePlan.value, plans[schemePlan.value], schemes[schemeId])))
  }

  /** A plan created for a scheme that had none is what the scheme then serves: the request, field for field. */
  lemma CreatedPlanIsServed(plans: map<string, InsurancePlan>, schemes: map<string, InsuranceScheme>,
                            schemeId: string, req: Mappers.InsurancePlanRequest, freshId: string)
    requires schemeId in schemes && freshId !in plans
    requires IsSchemePlan(plans, schemeId, None)
    ensures var after := plans[freshId := Mappers.PlanRequestToPlan(req, schemeId)];
            IsSchemePlan(after, schemeId, Some(freshId))
            && (forall k :: k in after && after[k].schemeId == schemeId ==> k == freshId)
            && PlanOfScheme(after, schemes, schemeId, Some(freshId)).value.value.insuranceId == freshId
            && Mappers.ResponseFields(PlanOfScheme(after, schemes, schemeId, Some(freshId)).value.value) == req
  {
    Mappers.PlanRoundTrip(req, freshId, schemeId, schemes[schemeId]);
  }
}
