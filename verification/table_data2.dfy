/**
 * The client's second table component, TableData2: the listing tables of
 * the administration pages. The columns come from the first row's keys; the
 * `status` prop names the entity listed and decides the buttons after each
 * row. A render function of its props: the model returns what is rendered.
 */
module TableData2 {
  import opened Common
  import opened Js
  import TableData

  /** The callbacks a button can call. */
  datatype Callback = ActivateRow | DeactivateRow | GetInsideData | UpdateRow

  /** A button: its text, the callback and argument it calls on click (if any), and whether it is disabled. */
  datatype Button = Button(text: string, onClick: Option<(Callback, JsValue)>, disabled: bool)

  datatype RenderedRow = RenderedRow(cells: seq<JsValue>, buttons: seq<Button>)

  datatype Rendered =
    | NoDataPresent
    | Table(headers: seq<string>, extraHeaders: seq<string>, rows: seq<RenderedRow>)

  /** The keys other than `drop`, in their order. */
  function Without(keys: seq<string>, drop: string): (r: seq<string>)
    ensures forall k :: k in r <==> k in keys && k != drop
    ensures |r| <= |keys|
    ensures drop !in keys ==> r == keys
  {
    if keys == [] then []
    else if keys[0] == drop then Without(keys[1..], drop)
    else [keys[0]] + Without(keys[1..], drop)
  }

  /** The columns: the first row's keys without 'active', and without 'agent' in the Client table. */
  function Headers(first: TableData.Row, status: string): (hs: seq<string>)
    ensures "active" !in hs
    ensures "agent" in hs <==> status != "Client" && "agent" in Keys(first)
    ensures forall k :: k != "active" && k != "agent" ==> (k in hs <==> k in Keys(first))
  {
    var headers := Without(Keys(first), "active");
    if status == "Client" then Without(headers, "agent") else headers
  }

  /** The header cells after the data columns: View Details, Update and Action, each when its callbacks exist. */
  function ExtraHeaders(hasGetInsideData: bool, hasUpdate: bool, hasActivate: bool, hasDeactivate: bool)
    : (hs: seq<string>)
    ensures "View Details" in hs <==> hasGetInsideData
    ensures "Update" in hs <==> hasUpdate
    ensures "Action" in hs <==> hasActivate && hasDeactivate
  {
    (if hasGetInsideData then ["View Details"] else [])
    + (if hasUpdate then ["Update"] else [])
    + (if hasActivate && hasDeactivate then ["Action"] else [])
  }

  /** A cell: an object that is not null as its JSON text, anything else as it is. */
  function RenderCell(v: JsValue): (r: JsValue)
    ensures v.Obj? ==> r == Str(v.json)
    ensures !v.Obj? ==> r == v
  {
    if v.Obj? then Str(v.json) else v
  }

  /** The id field of the entity tables, which activate and deactivate their rows. */
  function IdField(status: string): (f: Option<string>)
    ensures f.Some? <==> status in {"State", "Admin", "Agent", "Employee", "Customer", "City", "Type", "Scheme"}
  {
    match status
    case "State" => Some("stateId")
    case "Admin" => Some("adminId")
    case "Agent" => Some("agentId")
    case "Employee" => Some("employeeId")
    case "Customer" => Some("customerId")
    case "City" => Some("cityId")
    case "Type" => Some("insuranceTypeId")
    case "Scheme" => Some("insuranceSchemeId")
    case _ => None
  }

  /** The text of the row's View button, for the tables that have one. */
  function ViewText(status: string): (t: Option<string>)
    ensures t.Some? <==> status in {"State", "Agent", "Customer", "City", "Type", "Scheme", "Claim"}
  {
    match status
    case "State" => Some("View Cities")
    case "Agent" => Some("View Cities")
    case "Customer" => Some("View Cities")
    case "City" => Some("View Cities")
    case "Type" => Some("View Schemes")
    case "Scheme" => Some("View Plans")
    case "Claim" => Some("View Documents")
    case _ => None
  }

  /** The field a table's View button passes: the entity id, or claimId for claims. */
  function ViewField(status: string): string
  {
    if status == "Claim" then "claimId" else if IdField(status).Some? then IdField(status).value else ""
  }

  /** A request row's decision: Reject and Approve while PENDING, else a disabled APPROVED or REJECTED label. */
  function DecisionButtons(row: TableData.Row, idField: string): (bs: seq<Button>)
    ensures Get(row, "status") == Str("PENDING") ==>
              bs == [Button("Reject", Some((DeactivateRow, Get(row, idField))), false),
                     Button("Approve", Some((ActivateRow, Get(row, idField))), false)]
    ensures Get(row, "status") != Str("PENDING") ==>
              |bs| == 1 && bs[0].disabled && bs[0].onClick.None?
              && bs[0].text == if Get(row, "status") == Str("APPROVED") then "APPROVED" else "REJECTED"
  {
    if Get(row, "status") == Str("PENDING") then
      [Button("Reject", Some((DeactivateRow, Get(row, idField))), false),
       Button("Approve", Some((ActivateRow, Get(row, idField))), false)]
    else if Get(row, "status") == Str("APPROVED") then [Button("APPROVED", None, true)]
    else [Button("REJECTED", None, true)]
  }

  /** An entity row's toggle: Deactivate when row.active is truthy, Activate otherwise, on the row's id. */
  function ToggleButton(row: TableData.Row, idField: string): (b: Button)
    ensures Truthy(Get(row, "active")) ==> b == Button("Deactivate", Some((DeactivateRow, Get(row, idField))), false)
    ensures !Truthy(Get(row, "active")) ==> b == Button("Activate", Some((ActivateRow, Get(row, idField))), false)
  {
    if Truthy(Get(row, "active")) then Button("Deactivate", Some((DeactivateRow, Get(row, idField))), false)
    else Button("Activate", Some((ActivateRow, Get(row, idField))), false)
  }

  /** The buttons after a row, in order: View, Update, then the toggle or the decision. */
  function RowButtons(row: TableData.Row, status: string, hasGetInsideData: bool, hasUpdate: bool)
    : (bs: seq<Button>)
    ensures status == "Withdrawal" ==> bs == DecisionButtons(row, "withdrawalRequestId")
    ensures status == "Claim" ==>
              bs == (if hasGetInsideData then [Button("View Documents", Some((GetInsideData, Get(row, "claimId"))), false)]
                     else []) + DecisionButtons(row, "claimId")
    ensures IdField(status).Some? ==> |bs| >= 1 && bs[|bs| - 1] == ToggleButton(row, IdField(status).value)
    ensures IdField(status).None? && status != "Withdrawal" && status != "Claim" ==> bs == []
  {
    var view := if hasGetInsideData && ViewText(status).Some?
                then [Button(ViewText(status).value, Some((GetInsideData, Get(row, ViewField(status)))), false)]
                else [];
    if status == "Withdrawal" then DecisionButtons(row, "withdrawalRequestId")
    else if status == "Claim" then view + DecisionButtons(row, "claimId")
    else if IdField(status).Some? then
      var id := IdField(status).value;
      view + (if hasUpdate then [Button("Update", Some((UpdateRow, Get(row, id))), false)] else [])
      + [ToggleButton(row, id)]
    else []
  }

  /** The whole table, or the "No data is present." notice for missing or empty data. */
  function Render(data: Option<seq<TableData.Row>>, status: string, hasActivate: bool, hasDeactivate: bool,
                  hasGetInsideData: bool, hasUpdate: bool): (r: Rendered)
    ensures r.NoDataPresent? <==> data.None? || data.value == []
    ensures r.Table? ==>
              r.headers == Headers(data.value[0], status)
              && r.extraHeaders == ExtraHeaders(hasGetInsideData, hasUpdate, hasActivate, hasDeactivate)
              && |r.rows| == |data.value|
              && forall i :: 0 <= i < |r.rows| ==>
                   |r.rows[i].cells| == |r.headers|
                   && (forall j :: 0 <= j < |r.headers| ==> r.rows[i].cells[j] == RenderCell(Get(data.value[i], r.headers[j])))
                   && r.rows[i].buttons == RowButtons(data.value[i], status, hasGetInsideData, hasUpdate)
  {
    if data.None? || data.value == [] then NoDataPresent
    else
      var rows := data.value;
      var headers := Headers(rows[0], status);
      Table(headers, ExtraHeaders(hasGetInsideData, hasUpdate, hasActivate, hasDeactivate),
            seq(|rows|, i requires 0 <= i < |rows| =>
              RenderedRow(seq(|headers|, j requires 0 <= j < |headers| => RenderCell(Get(rows[i], headers[j]))),
                          RowButtons(rows[i], status, hasGetInsideData, hasUpdate))))
  }

  /**
   * In every entity table a row offers exactly one of Activate and
   * Deactivate, and toggling the row's active flag swaps them.
   */
  lemma ToggleSwaps(row: TableData.Row, status: string, hasGetInsideData: bool, hasUpdate: bool)
    requires IdField(status).Some? && Get(row, "active").Bool?
    ensures var bs := RowButtons(row, status, hasGetInsideData, hasUpdate);
            var flipped := [("active", Bool(!Get(row, "active").b))] + row;
            var after := RowButtons(flipped, status, hasGetInsideData, hasUpdate);
            bs[|bs| - 1].text != after[|after| - 1].text
            && bs[|bs| - 1].onClick.value.1 == after[|after| - 1].onClick.value.1
  {
    var id := IdField(status).value;
    var flipped := [("active", Bool(!Get(row, "active").b))] + row;
    assert Get(flipped, "active") == Bool(!Get(row, "active").b);
    if id != "active" {
      assert Get(flipped, id) == Get(row, id);
    }
  }
}
