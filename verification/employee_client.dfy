/**
 * The employee client's calls: the token check that precedes the calls
 * that change data, the endpoint each status toggle chooses, and the
 * document download's file name.
 */
module EmployeeClient {
  import opened Common
  import opened Js
  import DownloadName

  const BaseUrl: string := "http://localhost:8081/SecureLife.com"

  /** The error class a missing token is thrown as. */
  datatype ErrorClass = PlainError | UnAuthorized

  /** What a call does: throw before any request, or send one. */
  datatype Call =
    | Thrown(errorClass: ErrorClass, message: string)
    | Post(url: string)
    | Put(url: string)

  const NotLoggedIn: string := "User is not logged in"

  /** localStorage.getItem('token') is truthy: present and not empty. */
  predicate LoggedIn(token: Option<string>)
  {
    token.Some? && token.value != ""
  }

  /** The guard: no token throws `errorClass` before anything is sent; otherwise `request` is sent. */
  function Guarded(token: Option<string>, errorClass: ErrorClass, request: Call): (c: Call)
    ensures !LoggedIn(token) ==> c == Thrown(errorClass, NotLoggedIn)
    ensures LoggedIn(token) ==> c == request
  {
    if !LoggedIn(token) then Thrown(errorClass, NotLoggedIn) else request
  }

  /** addAgent: POST /agents, guarded by a plain Error. */
  function AddAgent(token: Option<string>): (c: Call)
    ensures !c.Thrown? <==> LoggedIn(token)
    ensures c.Thrown? ==> c == Thrown(PlainError, NotLoggedIn)
    ensures !c.Thrown? ==> c == Post(BaseUrl + "/agents")
  {
    Guarded(token, PlainError, Post(BaseUrl + "/agents"))
  }

  /** updateAgent: PUT /agent/{id}, guarded by UnAuthorized. */
  function UpdateAgent(token: Option<string>, agentId: string): (c: Call)
    ensures !c.Thrown? <==> LoggedIn(token)
    ensures c.Thrown? ==> c == Thrown(UnAuthorized, NotLoggedIn)
    ensures !c.Thrown? ==> c == Put(BaseUrl + "/agent/" + agentId)
  {
    Guarded(token, UnAuthorized, Put(BaseUrl + "/agent/" + agentId))
  }

  /** The endpoint toggleAgentStatus picks: /active for a truthy flag, /deactivate otherwise. */
  function AgentStatusEndpoint(agentId: string, isActive: JsValue): (url: string)
    ensures Truthy(isActive) ==> url == BaseUrl + "/agent/" + agentId + "/active"
    ensures !Truthy(isActive) ==> url == BaseUrl + "/agent/" + agentId + "/deactivate"
  {
    if Truthy(isActive) then BaseUrl + "/agent/" + agentId + "/active"
    else BaseUrl + "/agent/" + agentId + "/deactivate"
  }

  /** toggleAgentStatus: UnAuthorized without a token, else a PUT to the chosen endpoint. */
  function ToggleAgentStatus(token: Option<string>, agentId: string, isActive: JsValue): (c: Call)
    ensures !c.Thrown? <==> LoggedIn(token)
    ensures c.Thrown? ==> c == Thrown(UnAuthorized, NotLoggedIn)
    ensures !c.Thrown? ==> c == Put(AgentStatusEndpoint(agentId, isActive))
  {
    Guarded(token, UnAuthorized, Put(AgentStatusEndpoint(agentId, isActive)))
  }

  /** updateCustomer: PUT /customer/{id}/update, guarded by a plain Error. */
  function UpdateCustomer(token: Option<string>, customerId: string): (c: Call)
    ensures !c.Thrown? <==> LoggedIn(token)
    ensures c.Thrown? ==> c == Thrown(PlainError, NotLoggedIn)
    ensures !c.Thrown? ==> c == Put(BaseUrl + "/customer/" + customerId + "/update")
  {
    Guarded(token, PlainError, Put(BaseUrl + "/customer/" + customerId + "/update"))
  }

  /** The endpoint toggleCustomerStatus picks: /active for a truthy flag, /delete otherwise. */
  function CustomerStatusEndpoint(customerId: string, isActive: JsValue): (url: string)
    ensures Truthy(isActive) ==> url == BaseUrl + "/customer/" + customerId + "/active"
    ensures !Truthy(isActive) ==> url == BaseUrl + "/customer/" + customerId + "/delete"
  {
    if Truthy(isActive) then BaseUrl + "/customer/" + customerId + "/active"
    else BaseUrl + "/customer/" + customerId + "/delete"
  }

  /** toggleCustomerStatus: a plain Error without a token, else a PUT to the chosen endpoint. */
  function ToggleCustomerStatus(token: Option<string>, customerId: string, isActive: JsValue): (c: Call)
    ensures !c.Thrown? <==> LoggedIn(token)
    ensures c.Thrown? ==> c == Thrown(PlainError, NotLoggedIn)
    ensures !c.Thrown? ==> c == Put(CustomerStatusEndpoint(customerId, isActive))
  {
    Guarded(token, PlainError, Put(CustomerStatusEndpoint(customerId, isActive)))
  }

  /**
   * The two toggle directions reach different endpoints, for agents and for
   * customers alike, and an agent's deactivation path differs from a
   * customer's deletion path even for the same id.
   */
  lemma ToggleDirectionsDiffer(id: string, on: JsValue, off: JsValue)
    requires Truthy(on) && !Truthy(off)
    ensures AgentStatusEndpoint(id, on) != AgentStatusEndpoint(id, off)
    ensures CustomerStatusEndpoint(id, on) != CustomerStatusEndpoint(id, off)
    ensures AgentStatusEndpoint(id, off) != CustomerStatusEndpoint(id, off)
  {
    var base := BaseUrl + "/agent/" + id;
    var a1, a2 := AgentStatusEndpoint(id, on), AgentStatusEndpoint(id, off);
    assert a1[|base| + 1] == 'a' && a2[|base| + 1] == 'd';
    var cbase := BaseUrl + "/customer/" + id;
    var c1, c2 := CustomerStatusEndpoint(id, on), CustomerStatusEndpoint(id, off);
    assert c1[|cbase| + 1] == 'a' && c2[|cbase| + 1] == 'd';
    assert a2[|BaseUrl| + 1] == 'a' && c2[|BaseUrl| + 1] == 'c';
  }

  /** downloadDocument: the same derivation as the admin client's, from the name shown in the table. */
  method DownloadDocument(documentId: string, documentNameFromUI: string, contentDisposition: Option<string>,
                          contentType: Option<string>)
    returns (url: string, fileName: Option<string>)
    ensures url == BaseUrl + "/document/" + documentId + "/download"
    ensures fileName == DownloadName.Derived(documentNameFromUI, contentDisposition, contentType)
  {
    url := BaseUrl + "/document/" + documentId + "/download";
    fileName := DownloadName.DeriveFileName(documentNameFromUI, contentDisposition, contentType);
  }
}
