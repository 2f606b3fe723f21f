/**
 * The backend's StateService: states are created active, renamed while
 * active, deactivated only when none of their cities is active, and
 * activated together with all their cities. A state's city list
 * (state.getCities()) is passed in as the ids of its cities, in the list's
 * order.
 */
module StateService {
  import opened Common
  import opened Entities
  import opened Store
  import Mappers

  /** The ids of the state's cities, each once: what state.getCities() holds. */
  predicate ListsStateCities(ids: seq<string>, cities: map<string, City>, stateId: string)
  {
    (forall i :: 0 <= i < |ids| ==> ids[i] in cities && cities[ids[i]].stateId == stateId)
    && (forall k :: k in cities && cities[k].stateId == stateId ==> k in ids)
    && (forall i, j :: 0 <= i < j < |ids| ==> ids[i] != ids[j])
  }

  /** createState: a new active state under the fresh id. */
  method CreateState(db: Db, name: string, freshId: string) returns (r: string)
    requires db.Valid() && freshId !in db.states
    modifies db`states
    ensures db.Valid()
    ensures r == "State Added Successfully"
    ensures db.states == old(db.states)[freshId := Mappers.StateRequestToState(name)]
  {
    db.SaveState(freshId, Mappers.StateRequestToState(name));
    r := "State Added Successfully";
  }

  /** getStateById: the state's response, or nothing (null, without an error) for an unknown id. */
  function StateById(states: map<string, State>, id: string): (r: Option<Mappers.StateResponse>)
    ensures r.None? <==> id !in states
    ensures r.Some? ==> r.value.stateId == id && r.value.name == states[id].name && r.value.active == states[id].active
  {
    if id in states then Some(Mappers.StateToResponse(id, states[id])) else None
  }

  /** The loop of deactivateStateById over the state's cities: is any of them active? */
  method HasActiveCity(db: Db, ids: seq<string>) returns (found: bool)
    requires forall i :: 0 <= i < |ids| ==> ids[i] in db.cities
    ensures found <==> exists i :: 0 <= i < |ids| && db.cities[ids[i]].active
  {
    found := false;
    for i := 0 to |ids|
      invariant !found
      invariant forall j :: 0 <= j < i ==> !db.cities[ids[j]].active
    {
      if db.cities[ids[i]].active {
        return true;
      }
    }
  }

  /** Some stored city of the state is active. */
  ghost predicate StateHasActiveCity(cities: map<string, City>, stateId: string)
  {
    exists k :: k in cities && cities[k].stateId == stateId && cities[k].active
  }

  /** deactivateStateById's refusals, in order: unknown state, inactive state, an active city. */
  ghost function DeactivateRefusal(states: map<string, State>, cities: map<string, City>, id: string)
    : (r: Option<Error>)
    ensures r.None? <==> id in states && states[id].active && !StateHasActiveCity(cities, id)
    ensures id !in states ==> r == Some(NotFound("State Not Found with id: " + id))
  {
    if id !in states then Some(NotFound("State Not Found with id: " + id))
    else if !states[id].active then Some(ApiError("State is already inactive with id: " + id))
    else if StateHasActiveCity(cities, id) then Some(ApiError("State cannot be inactive because it has active cities."))
    else None
  }

  /** deactivateStateById: only the state's flag is cleared, and only when no city of it is active. */
  method DeactivateState(db: Db, id: string, stateCities: seq<string>) returns (r: Result<string>)
    requires db.Valid()
    requires id in db.states ==> ListsStateCities(stateCities, db.cities, id)
    modifies db`states
    ensures db.Valid()
    ensures match DeactivateRefusal(old(db.states), db.cities, id)
            case Some(e) => r == Failure(e) && db.states == old(db.states)
            case None =>
              r == Success("State deactivated successfully")
              && db.states == old(db.states)[id := old(db.states)[id].(active := false)]
  {
    if id !in db.states {
      return Failure(NotFound("State Not Found with id: " + id));
    }
    if !db.states[id].active {
      return Failure(ApiError("State is already inactive with id: " + id));
    }
    var active := HasActiveCity(db, stateCities);
    if active {
      return Failure(ApiError("State cannot be inactive because it has active cities."));
    }
    db.SaveState(id, db.states[id].(active := false));
    r := Success("State deactivated successfully");
  }

  /** The cities after activateStateById: every city of the state active, every other city as it was. */
  function ActivateCitiesOf(cities: map<string, City>, stateId: string): (r: map<string, City>)
    ensures r.Keys == cities.Keys
    ensures forall k :: k in r ==> r[k].stateId == cities[k].stateId && r[k].name == cities[k].name
    ensures forall k :: k in r ==> r[k].active == (cities[k].active || cities[k].stateId == stateId)
  {
    map k | k in cities :: if cities[k].stateId == stateId then cities[k].(active := true) else cities[k]
  }

  /** activateStateById's refusals: unknown state, then an already active one. */
  ghost function ActivateRefusal(states: map<string, State>, id: string): (r: Option<Error>)
    ensures r.None? <==> id in states && !states[id].active
    ensures id !in states ==> r == Some(NotFound("State Not Found with ID: " + id))
    ensures id in states && states[id].active ==> r == Some(ApiError("State is already active with id: " + id))
  {
    if id !in states then Some(NotFound("State Not Found with ID: " + id))
    else if states[id].active then Some(ApiError("State is already active with id: " + id))
    else None
  }

  /** activateStateById: the loop sets each of the state's cities active, then the state. */
  method ActivateState(db: Db, id: string, stateCities: seq<string>) returns (r: Result<string>)
    requires db.Valid()
    requires id in db.states ==> ListsStateCities(stateCities, db.cities, id)
    modifies db`states, db`cities
    ensures db.Valid()
    ensures match ActivateRefusal(old(db.states), id)
            case Some(e) => r == Failure(e) && db.states == old(db.states) && db.cities == old(db.cities)
            case None =>
              r == Success("State activated successfully")
              && db.cities == ActivateCitiesOf(old(db.cities), id)
              && db.states == old(db.states)[id := old(db.states)[id].(active := true)]
  {
    if id !in db.states {
      return Failure(NotFound("State Not Found with ID: " + id));
    }
    if db.states[id].active {
      return Failure(ApiError("State is already active with id: " + id));
    }
    var cities := db.cities;
    for i := 0 to |stateCities|
      invariant cities.Keys == db.cities.Keys
      invariant forall k :: k in cities ==>
                  cities[k] == if k in stateCities[..i] then db.cities[k].(active := true) else db.cities[k]
    {
      cities := cities[stateCities[i] := cities[stateCities[i]].(active := true)];
    }
    assert stateCities[..|stateCities|] == stateCities;
    assert cities == ActivateCitiesOf(db.cities, id);
    db.SaveCities(cities);
    db.SaveState(id, db.states[id].(active := true));
    r := Success("State activated successfully");
  }

  /** Once a state with a city is activated, deactivating it is refused: its cities are all active now. */
  lemma ActivatedStateKeepsItsCities(states: map<string, State>, cities: map<string, City>, id: string, city: string)
    requires id in states && city in cities && cities[city].stateId == id
    ensures DeactivateRefusal(states[id := states[id].(active := true)], ActivateCitiesOf(cities, id), id)
            == Some(ApiError("State cannot be inactive because it has active cities."))
  {
    assert ActivateCitiesOf(cities, id)[city].active;
  }

  /** updateState's refusals: unknown state, then an inactive one. */
  ghost function UpdateRefusal(states: map<string, State>, id: string): (r: Option<Error>)
    ensures r.None? <==> id in states && states[id].active
    ensures id !in states ==> r == Some(NotFound("State Not Found with Id: " + id))
    ensures id in states && !states[id].active ==> r == Some(ApiError("State is inactive with id: " + id))
  {
    if id !in states then Some(NotFound("State Not Found with Id: " + id))
    else if !states[id].active then Some(ApiError("State is inactive with id: " + id))
    else None
  }

  /** updateState: an active state gets the new name and nothing else changes. */
  method UpdateState(db: Db, id: string, name: string) returns (r: Result<string>)
    requires db.Valid()
    modifies db`states
    ensures db.Valid()
    ensures match UpdateRefusal(old(db.states), id)
            case Some(e) => r == Failure(e) && db.states == old(db.states)
            case None =>
              r == Success("State successfully updated")
              && db.states == old(db.states)[id := old(db.states)[id].(name := name)]
  {
    if id !in db.states {
      return Failure(NotFound("State Not Found with Id: " + id));
    }
    if !db.states[id].active {
      return Failure(ApiError("State is inactive with id: " + id));
    }
    db.SaveState(id, db.states[id].(name := name));
    r := Success("State successfully updated");
  }

  // ----- getCitiesByStateId -----

  /** A city row: its id and the city. */
  type CityRow = (string, City)

  /** The filter: the id, the name or the state's name contains the query, compared in lower case. */
  predicate CityMatches(row: CityRow, stateName: string, query: string)
  {
    var q := ToLower(query);
    Contains(ToLower(row.0), q) || Contains(ToLower(row.1.name), q) || Contains(ToLower(stateName), q)
  }

  /** The rows that match, in their order. */
  function FilterCities(rows: seq<CityRow>, stateName: string, query: string): (r: seq<CityRow>)
    ensures |r| <= |rows|
    ensures forall x :: x in r <==> x in rows && CityMatches(x, stateName, query)
    ensures multiset(r) <= multiset(rows)
  {
    if rows == [] then []
    else
      var front := FilterCities(rows[..|rows| - 1], stateName, query);
      var last := rows[|rows| - 1];
      assert rows == rows[..|rows| - 1] + [last];
      if CityMatches(last, stateName, query) then front + [last] else front
  }

  /** Every string contains the empty one, so an empty query keeps every city. */
  lemma {:induction false} EmptyQueryKeepsAll(rows: seq<CityRow>, stateName: string)
    ensures FilterCities(rows, stateName, "") == rows
  {
    if rows != [] {
      var last := rows[|rows| - 1];
      assert OccursAt(ToLower(last.0), ToLower(""), 0);
      EmptyQueryKeepsAll(rows[..|rows| - 1], stateName);
      assert rows == rows[..|rows| - 1] + [last];
    }
  }

  /** The sort key sortBy selects. */
  datatype SortKey = ByCityId | ByName | Unordered

  /** The comparator's two choices: the key and whether it is reversed. */
  datatype CityOrder = CityOrder(key: SortKey, descending: bool)

  /** cityId or name when sortBy names them (ignoring case), no key otherwise; reversed iff direction is "DESC" ignoring case. */
  function OrderOf(sortBy: string, direction: string): (o: CityOrder)
    ensures o.key == ByCityId <==> EqualsIgnoreCase("cityId", sortBy)
    ensures o.key == ByName <==> EqualsIgnoreCase("name", sortBy) && !EqualsIgnoreCase("cityId", sortBy)
    ensures o.descending <==> EqualsIgnoreCase("DESC", direction)
  {
    CityOrder(if EqualsIgnoreCase("cityId", sortBy) then ByCityId
              else if EqualsIgnoreCase("name", sortBy) then ByName
              else Unordered,
              EqualsIgnoreCase("DESC", direction))
  }

  /** The comparator: String.compareTo on the key, 0 without one, negated when descending. */
  function CityCompare(o: CityOrder, a: CityRow, b: CityRow): int
  {
    var c := match o.key
             case ByCityId => JavaCompare(a.0, b.0)
             case ByName => JavaCompare(a.1.name, b.1.name)
             case Unordered => 0;
    if o.descending then -c else c
  }

  /** Descending order compares a with b as ascending order compares b with a. */
  lemma DescendingReverses(o: CityOrder, a: CityRow, b: CityRow)
    requires o.descending
    ensures CityCompare(o, a, b) == CityCompare(o.(descending := false), b, a)
  {
    JavaCompareAntisymmetric(a.0, b.0);
    JavaCompareAntisymmetric(a.1.name, b.1.name);
  }

  lemma CityCompareAntisymmetric(o: CityOrder, a: CityRow, b: CityRow)
    ensures CityCompare(o, a, b) == -CityCompare(o, b, a)
  {
    JavaCompareAntisymmetric(a.0, b.0);
    JavaCompareAntisymmetric(a.1.name, b.1.name);
  }

  lemma CityCompareTransitive(o: CityOrder, a: CityRow, b: CityRow, c: CityRow)
    requires CityCompare(o, a, b) <= 0 && CityCompare(o, b, c) <= 0
    ensures CityCompare(o, a, c) <= 0
  {
    match o.key
    case ByCityId =>
      if o.descending {
        JavaCompareAntisymmetric(a.0, b.0);
        JavaCompareAntisymmetric(b.0, c.0);
        JavaCompareAntisymmetric(a.0, c.0);
        JavaCompareTransitive(c.0, b.0, a.0);
      } else {
        JavaCompareTransitive(a.0, b.0, c.0);
      }
    case ByName =>
      if o.descending {
        JavaCompareAntisymmetric(a.1.name, b.1.name);
        JavaCompareAntisymmetric(b.1.name, c.1.name);
        JavaCompareAntisymmetric(a.1.name, c.1.name);
        JavaCompareTransitive(c.1.name, b.1.name, a.1.name);
      } else {
        JavaCompareTransitive(a.1.name, b.1.name, c.1.name);
      }
    case Unordered =>
  }

  /** Every earlier row compares not after every later one. */
  predicate CitiesInOrder(rows: seq<CityRow>, o: CityOrder)
  {
    forall i, j :: 0 <= i < j < |rows| ==> CityCompare(o, rows[i], rows[j]) <= 0
  }

  /** Insert x after the last row that does not compare after it, so equal rows keep their order. */
  function InsertCity(sorted: seq<CityRow>, x: CityRow, o: CityOrder): (r: seq<CityRow>)
    ensures multiset(r) == multiset(sorted) + multiset{x}
  {
    if sorted == [] then [x]
    else
      var last := sorted[|sorted| - 1];
      assert sorted == sorted[..|sorted| - 1] + [last];
      if CityCompare(o, last, x) <= 0 then sorted + [x]
      else InsertCity(sorted[..|sorted| - 1], x, o) + [last]
  }

  /** The stream's sorted(...): a stable insertion sort of the filtered rows. */
  function SortCities(rows: seq<CityRow>, o: CityOrder): (r: seq<CityRow>)
    ensures multiset(r) == multiset(rows)
  {
    if rows == [] then []
    else
      assert rows == rows[..|rows| - 1] + [rows[|rows| - 1]];
      InsertCity(SortCities(rows[..|rows| - 1], o), rows[|rows| - 1], o)
  }

  /** Appending a row that no earlier row compares after keeps the order. */
  lemma AppendKeepsOrder(sorted: seq<CityRow>, x: CityRow, o: CityOrder)
    requires sorted != [] && CitiesInOrder(sorted, o) && CityCompare(o, sorted[|sorted| - 1], x) <= 0
    ensures CitiesInOrder(sorted + [x], o)
  {
    var n := |sorted| - 1;
    forall i | 0 <= i < n
      ensures CityCompare(o, sorted[i], x) <= 0
    {
      CityCompareTransitive(o, sorted[i], sorted[n], x);
    }
  }

  /** Every row of x inserted into rows not after `last` is not after `last`, when x is before it. */
  lemma InsertedBeforeLast(front: seq<CityRow>, last: CityRow, x: CityRow, o: CityOrder)
    requires forall k :: 0 <= k < |front| ==> CityCompare(o, front[k], last) <= 0
    requires CityCompare(o, last, x) > 0
    ensures forall i :: 0 <= i < |InsertCity(front, x, o)| ==> CityCompare(o, InsertCity(front, x, o)[i], last) <= 0
  {
    var inserted := InsertCity(front, x, o);
    CityCompareAntisymmetric(o, last, x);
    forall i | 0 <= i < |inserted|
      ensures CityCompare(o, inserted[i], last) <= 0
    {
      var y := inserted[i];
      assert y in multiset(inserted);
      if y != x {
        assert y in multiset(front);
        var k :| 0 <= k < |front| && front[k] == y;
      }
    }
  }

  lemma {:induction false} InsertKeepsOrder(sorted: seq<CityRow>, x: CityRow, o: CityOrder)
    requires CitiesInOrder(sorted, o)
    ensures CitiesInOrder(InsertCity(sorted, x, o), o)
  {
    if sorted != [] {
      var n := |sorted| - 1;
      if CityCompare(o, sorted[n], x) <= 0 {
        AppendKeepsOrder(sorted, x, o);
      } else {
        var front := sorted[..n];
        assert CitiesInOrder(front, o);
        InsertKeepsOrder(front, x, o);
        InsertedBeforeLast(front, sorted[n], x, o);
        var inserted := InsertCity(front, x, o);
        var r := inserted + [sorted[n]];
        assert InsertCity(sorted, x, o) == r;
        forall i, j | 0 <= i < j < |r|
          ensures CityCompare(o, r[i], r[j]) <= 0
        {
          if j < |inserted| {
            assert r[i] == inserted[i] && r[j] == inserted[j];
            assert CityCompare(o, inserted[i], inserted[j]) <= 0;
          } else {
            assert r[i] == inserted[i] && r[j] == sorted[n];
          }
        }
      }
    }
  }

  /** The sorted rows are in comparator order. */
  lemma {:induction false} SortedInOrder(rows: seq<CityRow>, o: CityOrder)
    ensures CitiesInOrder(SortCities(rows, o), o)
  {
    if rows != [] {
      SortedInOrder(rows[..|rows| - 1], o);
      InsertKeepsOrder(SortCities(rows[..|rows| - 1], o), rows[|rows| - 1], o);
    }
  }

  /** A sortBy other than cityId and name compares every pair equal, and the list order is kept. */
  lemma {:induction false} OtherKeysKeepOrder(rows: seq<CityRow>, o: CityOrder)
    requires o.key == Unordered
    ensures SortCities(rows, o) == rows
  {
    if rows != [] {
      OtherKeysKeepOrder(rows[..|rows| - 1], o);
      assert rows == rows[..|rows| - 1] + [rows[|rows| - 1]];
    }
  }

  /**
   * The slice bounds as written: the long offset page×size is cast to int,
   * start + size is an int sum, and subList throws on a negative start or an
   * end before the start. None is the exception.
   */
  function SliceAsWritten(page: nat, size: nat, n: nat): (r: Option<(nat, nat)>)
    requires page <= 0x7FFF_FFFF && size <= 0x7FFF_FFFF
  {
    var start := Min(Int32(page * size), n);
    var end := Min(Int32(start + size), n);
    if start < 0 || end < start then None else Some((start, end))
  }

  function Min(a: int, b: int): int { if a <= b then a else b }

  /**
   * A page far past the end: page 2147483647 of size 2 wraps the offset to
   * -2 and subList throws; page 613566757 of size 7 wraps it to 3 and serves
   * cities 3..9 of ten instead of an empty page.
   */
  lemma OffsetWraps()
    ensures SliceAsWritten(0x7FFF_FFFF, 2, 5).None?
    ensures SliceAsWritten(613566757, 7, 10) == Some((3, 10))
  {
    assert Int32(0x7FFF_FFFF * 2) == -2;
    assert Int32(613566757 * 7) == 3;
  }

  /** The slice bounds with the offset kept exact: start = min(page×size, n), end = min(start + size, n). */
  function Slice(page: nat, size: nat, n: nat): (r: (nat, nat))
    ensures r.0 <= r.1 <= n && r.1 - r.0 <= size
    ensures r.0 == Min(page * size, n) && r.1 == Min(r.0 + size, n)
  {
    var start := Min(page * size, n);
    (start, Min(start + size, n))
  }

  /** Without overflow the code as written computes the same bounds. */
  lemma SliceAgreesWithoutOverflow(page: nat, size: nat, n: nat)
    requires size >= 1 && page * size + size <= 0x7FFF_FFFF
    ensures page <= 0x7FFF_FFFF && size <= 0x7FFF_FFFF
    ensures SliceAsWritten(page, size, n) == Some(Slice(page, size, n))
  {
    assert page * size == page * (size - 1) + page;
  }

  /** The state's cities that match the query, in comparator order. */
  function Arranged(rows: seq<CityRow>, stateName: string, o: CityOrder, query: string): (r: seq<CityRow>)
    ensures multiset(r) == multiset(FilterCities(rows, stateName, query))
  {
    SortCities(FilterCities(rows, stateName, query), o)
  }

  datatype CityListing = CityListing(content: seq<Mappers.CityResponse>, page: nat, size: nat, totalElements: nat)

  /** The rows of the listed ids, as state.getCities() holds them. */
  function RowsOf(ids: seq<string>, cities: map<string, City>): (rows: seq<CityRow>)
    requires forall i :: 0 <= i < |ids| ==> ids[i] in cities
    ensures |rows| == |ids| && forall i :: 0 <= i < |ids| ==> rows[i] == (ids[i], cities[ids[i]])
  {
    seq(|ids|, i requires 0 <= i < |ids| => (ids[i], cities[ids[i]]))
  }

  /** subList(start, end) of the arranged rows: at most `size` of them, from position page×size on. */
  function PageOf(sorted: seq<CityRow>, page: nat, size: nat): (r: seq<CityRow>)
    ensures |r| <= size
    ensures r == sorted[Slice(page, size, |sorted|).0..Slice(page, size, |sorted|).1]
  {
    var bounds := Slice(page, size, |sorted|);
    sorted[bounds.0..bounds.1]
  }

  /** cityToCityResponse of each row, in order. */
  function CityResponses(rows: seq<CityRow>, state: State): (r: seq<Mappers.CityResponse>)
    ensures |r| == |rows|
    ensures forall i :: 0 <= i < |rows| ==> r[i] == Mappers.CityToResponse(rows[i].0, rows[i].1, state)
  {
    seq(|rows|, i requires 0 <= i < |rows| => Mappers.CityToResponse(rows[i].0, rows[i].1, state))
  }

  /**
   * getCitiesByStateId: filter, sort, then the slice of page `page`; the
   * total is the number of cities that matched. An unknown state is
   * not-found; PageRequest.of then refuses a negative page and a size below
   * one. The slice is the exact-offset one (see SliceAsWritten for the code's
   * 32-bit offset).
   */
  function CitiesByState(states: map<string, State>, cities: map<string, City>, stateId: string,
                         stateCities: seq<string>, page: int, size: int, sortBy: string, direction: string,
                         query: string): (r: Result<CityListing>)
    requires stateId in states ==> ListsStateCities(stateCities, cities, stateId)
    requires -0x8000_0000 <= page <= 0x7FFF_FFFF && -0x8000_0000 <= size <= 0x7FFF_FFFF
    ensures r.Failure? <==> stateId !in states || page < 0 || size < 1
    ensures stateId !in states ==> r == Failure(NotFound("State not found"))
    ensures stateId in states && page < 0 ==> r == Failure(IllegalArgument(PageIndexMessage))
    ensures stateId in states && page >= 0 && size < 1 ==> r == Failure(IllegalArgument(PageSizeMessage))
    ensures r.Success? ==>
              var sorted := Arranged(RowsOf(stateCities, cities), states[stateId].name, OrderOf(sortBy, direction), query);
              r.value.totalElements == |sorted| && r.value.page == page && r.value.size == size
              && r.value.content == CityResponses(PageOf(sorted, page, size), states[stateId])
  {
    if stateId !in states then Failure(NotFound("State not found"))
    else if page < 0 then Failure(IllegalArgument(PageIndexMessage))
    else if size < 1 then Failure(IllegalArgument(PageSizeMessage))
    else
      var sorted := Arranged(RowsOf(stateCities, cities), states[stateId].name, OrderOf(sortBy, direction), query);
      Success(CityListing(CityResponses(PageOf(sorted, page, size), states[stateId]), page, size, |sorted|))
  }

  /** The messages of Spring's PageRequest.of for a negative page and a size below one. */
  const PageIndexMessage: string := "Page index must not be less than zero"
  const PageSizeMessage: string := "Page size must not be less than one"

  /**
   * While page×size + size fits in an int, the listing serves exactly the
   * rows between the bounds the code as written computes.
   */
  lemma CitiesByStateMatchesCodeWithinInt(states: map<string, State>, cities: map<string, City>, stateId: string,
                                          stateCities: seq<string>, page: nat, size: nat, sortBy: string,
                                          direction: string, query: string)
    requires stateId in states && ListsStateCities(stateCities, cities, stateId)
    requires size >= 1 && page * size + size <= 0x7FFF_FFFF
    ensures var sorted := Arranged(RowsOf(stateCities, cities), states[stateId].name, OrderOf(sortBy, direction), query);
            var r := CitiesByState(states, cities, stateId, stateCities, page, size, sortBy, direction, query);
            SliceAsWritten(page, size, |sorted|).Some?
            && r.Success?
            && r.value.content == CityResponses(sorted[SliceAsWritten(page, size, |sorted|).value.0..SliceAsWritten(page, size, |sorted|).value.1], states[stateId])
  {
    var sorted := Arranged(RowsOf(stateCities, cities), states[stateId].name, OrderOf(sortBy, direction), query);
    assert page <= page * size by {
      assert page * size == page + page * (size - 1);
      assert page * (size - 1) >= 0;
    }
    SliceAgreesWithoutOverflow(page, size, |sorted|);
  }

  /**
   * What the listing promises about its content: each listed city is a
   * city of the state that matches the query, and the listed cities are in
   * comparator order.
   */
  lemma ListedCitiesMatchAndAreOrdered(rows: seq<CityRow>, cities: map<string, City>, stateId: string,
                                       stateName: string, o: CityOrder, query: string, page: nat, size: nat)
    requires forall x :: x in rows ==> x.0 in cities && cities[x.0] == x.1 && x.1.stateId == stateId
    ensures var sorted := Arranged(rows, stateName, o, query);
            var bounds := Slice(page, size, |sorted|);
            CitiesInOrder(sorted[bounds.0..bounds.1], o)
            && forall x :: x in sorted[bounds.0..bounds.1] ==>
                 x.0 in cities && cities[x.0] == x.1 && x.1.stateId == stateId && CityMatches(x, stateName, query)
  {
    var filtered := FilterCities(rows, stateName, query);
    var sorted := Arranged(rows, stateName, o, query);
    SortedInOrder(filtered, o);
    var bounds := Slice(page, size, |sorted|);
    forall x | x in sorted[bounds.0..bounds.1]
      ensures x in filtered
    {
      assert x in multiset(sorted);
    }
  }

  /** The rows of a state's listed cities are stored cities of that state. */
  lemma RowsAreStateCities(stateCities: seq<string>, cities: map<string, City>, stateId: string)
    requires ListsStateCities(stateCities, cities, stateId)
    ensures forall x :: x in RowsOf(stateCities, cities) ==> x.0 in cities && cities[x.0] == x.1 && x.1.stateId == stateId
  {
  }
}
