/**
 * The backend's CityService: cities are created active in an active state,
 * deactivated only when no active customer or agent lives there, activated,
 * and renamed or moved while both they and the target state are active.
 */
module CityService {
  import opened Common
  import opened Entities
  import opened Store
  import Mappers

  /** createCity's refusals: unknown state, then an inactive one. */
  function CreateRefusal(states: map<string, State>, stateId: string): (r: Option<Error>)
    ensures r.None? <==> stateId in states && states[stateId].active
    ensures stateId !in states ==> r == Some(NotFound("State not found for state ID: {}" + stateId))
    ensures stateId in states && !states[stateId].active ==> r == Some(ApiError("State is inactive for state ID:" + stateId))
  {
    if stateId !in states then Some(NotFound("State not found for state ID: {}" + stateId))
    else if !states[stateId].active then Some(ApiError("State is inactive for state ID:" + stateId))
    else None
  }

  /** createCity: an active city of the active state, stored under the fresh id. */
  method CreateCity(db: Db, stateId: string, name: string, freshId: string) returns (r: Result<string>)
    requires db.Valid() && freshId !in db.cities
    modifies db`cities
    ensures db.Valid()
    ensures match CreateRefusal(db.states, stateId)
            case Some(e) => r == Failure(e) && db.cities == old(db.cities)
            case None =>
              r == Success("City Added Successfully")
              && db.cities == old(db.cities)[freshId := City(name, stateId, true)]
  {
    var refusal := CreateRefusal(db.states, stateId);
    if refusal.Some? {
      return Failure(refusal.value);
    }
    var city := Mappers.CityRequestToCity(db.states, stateId, name);
    db.SaveCities(db.cities[freshId := city.value]);
    r := Success("City Added Successfully");
  }

  /** existsByCityAndUserIsActive on customers: a customer of the city whose user is active. */
  predicate HasActiveCustomers(customers: map<string, Customer>, users: map<string, User>, cityId: string)
  {
    exists k :: k in customers && customers[k].cityId == cityId
                && customers[k].userId in users && users[customers[k].userId].active
  }

  /** existsByCityAndUserIsActive on agents: an agent of the city whose user is active. */
  predicate HasActiveAgents(agents: map<string, Agent>, users: map<string, User>, cityId: string)
  {
    exists k :: k in agents && agents[k].cityId == cityId && agents[k].userId in users && users[agents[k].userId].active
  }

  /** deactivateCity's refusals, in order: unknown city, active customers, active agents, inactive city. */
  function DeactivateRefusal(cities: map<string, City>, customers: map<string, Customer>,
                             agents: map<string, Agent>, users: map<string, User>, id: string): (r: Option<Error>)
    ensures r.None? <==> id in cities && cities[id].active
                         && !HasActiveCustomers(customers, users, id) && !HasActiveAgents(agents, users, id)
    ensures id !in cities ==> r == Some(NotFound("City not found with ID: " + id))
    ensures id in cities && HasActiveCustomers(customers, users, id) ==>
              r == Some(ApiError("City cannot be deactivated because it has active customers."))
    ensures id in cities && !HasActiveCustomers(customers, users, id) && HasActiveAgents(agents, users, id) ==>
              r == Some(ApiError("City cannot be deactivated because it has active agents."))
  {
    if id !in cities then Some(NotFound("City not found with ID: " + id))
    else if HasActiveCustomers(customers, users, id) then Some(ApiError("City cannot be deactivated because it has active customers."))
    else if HasActiveAgents(agents, users, id) then Some(ApiError("City cannot be deactivated because it has active agents."))
    else if !cities[id].active then Some(ApiError("City is already inactive with ID: " + id))
    else None
  }

  /** deactivateCity: only the city's flag is cleared. */
  method DeactivateCity(db: Db, id: string) returns (r: Result<string>)
    requires db.Valid()
    modifies db`cities
    ensures db.Valid()
    ensures match DeactivateRefusal(old(db.cities), db.customers, db.agents, db.users, id)
            case Some(e) => r == Failure(e) && db.cities == old(db.cities)
            case None =>
              r == Success("Deactivated Successfully")
              && db.cities == old(db.cities)[id := old(db.cities)[id].(active := false)]
  {
    var refusal := DeactivateRefusal(db.cities, db.customers, db.agents, db.users, id);
    if refusal.Some? {
      return Failure(refusal.value);
    }
    db.SaveCities(db.cities[id := db.cities[id].(active := false)]);
    r := Success("Deactivated Successfully");
  }

  /** Every customer and agent whose user is active lives in an active city. */
  predicate ActiveResidentsHoused(cities: map<string, City>, customers: map<string, Customer>,
                                  agents: map<string, Agent>, users: map<string, User>)
  {
    (forall k :: k in customers && customers[k].userId in users && users[customers[k].userId].active ==>
                   customers[k].cityId in cities && cities[customers[k].cityId].active)
    && (forall k :: k in agents && agents[k].userId in users && users[agents[k].userId].active ==>
                      agents[k].cityId in cities && cities[agents[k].cityId].active)
  }

  /** The guard makes deactivation keep every active customer and agent in an active city. */
  lemma DeactivationKeepsResidentsHoused(cities: map<string, City>, customers: map<string, Customer>,
                                         agents: map<string, Agent>, users: map<string, User>, id: string)
    requires ActiveResidentsHoused(cities, customers, agents, users)
    requires DeactivateRefusal(cities, customers, agents, users, id).None?
    ensures ActiveResidentsHoused(cities[id := cities[id].(active := false)], customers, agents, users)
  {
    var after := cities[id := cities[id].(active := false)];
    forall k | k in customers && customers[k].userId in users && users[customers[k].userId].active
      ensures customers[k].cityId in after && after[customers[k].cityId].active
    {
      assert customers[k].cityId != id;
    }
    forall k | k in agents && agents[k].userId in users && users[agents[k].userId].active
      ensures agents[k].cityId in after && after[agents[k].cityId].active
    {
      assert agents[k].cityId != id;
    }
  }

  /** getCityById: the city's response, or not-found. */
  function CityById(cities: map<string, City>, states: map<string, State>, id: string): (r: Result<Mappers.CityResponse>)
    requires CitiesLinked(cities, states)
    ensures r.Failure? <==> id !in cities
    ensures r.Failure? ==> r.error == NotFound("City not found with ID: {}" + id)
    ensures r.Success? ==> r.value.cityId == id && r.value.name == cities[id].name && r.value.active == cities[id].active
                           && r.value.state == states[cities[id].stateId].name
  {
    if id !in cities then Failure(NotFound("City not found with ID: {}" + id))
    else Success(Mappers.CityToResponse(id, cities[id], states[cities[id].stateId]))
  }

  /** activateCity's refusals: unknown city, then an already active one. */
  function ActivateRefusal(cities: map<string, City>, id: string): (r: Option<Error>)
    ensures r.None? <==> id in cities && !cities[id].active
    ensures id !in cities ==> r == Some(NotFound("City not found with id: " + id))
    ensures id in cities && cities[id].active ==> r == Some(ApiError("City is already active with ID: " + id))
  {
    if id !in cities then Some(NotFound("City not found with id: " + id))
    else if cities[id].active then Some(ApiError("City is already active with ID: " + id))
    else None
  }

  /** activateCity: only the city's flag is set; the state's own flag is not looked at. */
  method ActivateCity(db: Db, id: string) returns (r: Result<string>)
    requires db.Valid()
    modifies db`cities
    ensures db.Valid()
    ensures match ActivateRefusal(old(db.cities), id)
            case Some(e) => r == Failure(e) && db.cities == old(db.cities)
            case None =>
              r == Success("Activated Successfully")
              && db.cities == old(db.cities)[id := old(db.cities)[id].(active := true)]
  {
    var refusal := ActivateRefusal(db.cities, id);
    if refusal.Some? {
      return Failure(refusal.value);
    }
    db.SaveCities(db.cities[id := db.cities[id].(active := true)]);
    r := Success("Activated Successfully");
  }

  /** Deactivating then activating a city gives back the cities as they were. */
  lemma ActivateUndoesDeactivate(cities: map<string, City>, customers: map<string, Customer>,
                                 agents: map<string, Agent>, users: map<string, User>, id: string)
    requires DeactivateRefusal(cities, customers, agents, users, id).None?
    ensures var after := cities[id := cities[id].(active := false)];
            ActivateRefusal(after, id).None?
            && after[id := after[id].(active := true)] == cities
  {
    var after := cities[id := cities[id].(active := false)];
    assert after[id := after[id].(active := true)] == cities;
  }

  /** updateCity's refusals, in order: unknown city, unknown state, inactive state, inactive city. */
  function UpdateRefusal(cities: map<string, City>, states: map<string, State>, id: string, stateId: string)
    : (r: Option<Error>)
    ensures r.None? <==> id in cities && cities[id].active && stateId in states && states[stateId].active
    ensures id !in cities ==> r == Some(NotFound("City Not Found with id: " + id))
    ensures id in cities && stateId !in states ==> r == Some(ApiError("State not found for state ID: " + stateId))
  {
    if id !in cities then Some(NotFound("City Not Found with id: " + id))
    else if stateId !in states then Some(ApiError("State not found for state ID: " + stateId))
    else if !states[stateId].active then Some(ApiError("State is inactive for state ID: " + stateId))
    else if !cities[id].active then Some(ApiError("City is inactive with ID: " + id))
    else None
  }

  /** updateCity: the name and the state change, the flag is kept. */
  method UpdateCity(db: Db, id: string, stateId: string, name: string) returns (r: Result<string>)
    requires db.Valid()
    modifies db`cities
    ensures db.Valid()
    ensures match UpdateRefusal(old(db.cities), db.states, id, stateId)
            case Some(e) => r == Failure(e) && db.cities == old(db.cities)
            case None =>
              r == Success("City updated Successfully")
              && db.cities == old(db.cities)[id := old(db.cities)[id].(name := name, stateId := stateId)]
  {
    var refusal := UpdateRefusal(db.cities, db.states, id, stateId);
    if refusal.Some? {
      return Failure(refusal.value);
    }
    db.SaveCities(db.cities[id := db.cities[id].(name := name, stateId := stateId)]);
    r := Success("City updated Successfully");
  }
}
