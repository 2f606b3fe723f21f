/**
 * The backend's ClaimService: a customer files a claim on a policy with one
 * uploaded document, and an admin approves or rejects it. Approval marks the
 * policy CLAIMED. Neither decision looks at the claim's current status.
 *
 * The claim-document relation is owned by the document (its `claimId`): a
 * claim's documents are the stored documents that point at it. The e-mails
 * are not modelled; the payout the approval e-mail quotes is.
 */
module ClaimService {
  import opened Common
  import opened Entities
  import opened Store
  import opened AdminService

  datatype ClaimRequest = ClaimRequest(documentId: string, explanation: string)

  const ClaimSent: string := "Claim request sent successfully"

  /** documentRepository.findById: the position of the first document with that id, if any. */
  function FindDocument(documents: seq<Document>, id: string): (r: Option<nat>)
    ensures r.Some? ==> r.value < |documents| && documents[r.value].documentId == id
    ensures r.None? <==> forall j :: 0 <= j < |documents| ==> documents[j].documentId != id
  {
    if documents == [] then None
    else if documents[0].documentId == id then Some(0)
    else
      match FindDocument(documents[1..], id)
      case None => None
      case Some(k) => Some(k + 1)
  }

  /** requestClaim's refusals, in order: unknown user, no customer, unknown policy, unknown document. */
  ghost function ClaimRefusal(customers: map<string, Customer>, policies: map<string, Policy>,
                              documents: seq<Document>, caller: Caller, policyId: string, req: ClaimRequest)
    : (r: Option<Error>)
    ensures r.None? <==>
              caller.Some? && KeyOfUser(customers, CustomerUser, caller.value).Some?
              && policyId in policies && FindDocument(documents, req.documentId).Some?
    ensures caller.None? ==> r == Some(NotFound("User is not available"))
    ensures caller.Some? && KeyOfUser(customers, CustomerUser, caller.value).None? ==>
              r == Some(ApiError("Customer not found"))
  {
    if caller.None? then Some(NotFound("User is not available"))
    else if KeyOfUser(customers, CustomerUser, caller.value).None? then Some(ApiError("Customer not found"))
    else if policyId !in policies then Some(NotFound("Policy not found"))
    else if FindDocument(documents, req.documentId).None? then
      Some(NotFound("No documents found with the provided IDs"))
    else None
  }

  /** The checks of requestClaim: the position of the claimed document, or the first refusal. */
  method CheckClaim(db: Db, caller: Caller, policyId: string, req: ClaimRequest) returns (r: Result<nat>)
    requires db.Valid()
    ensures match ClaimRefusal(db.customers, db.policies, db.documents, caller, policyId, req)
            case Some(e) => r == Failure(e)
            case None => r == Success(FindDocument(db.documents, req.documentId).value)
  {
    if caller.None? {
      return Failure(NotFound("User is not available"));
    }
    var customer := db.FindCustomer(caller.value);
    if customer.None? {
      return Failure(ApiError("Customer not found"));
    }
    if policyId !in db.policies {
      return Failure(NotFound("Policy not found"));
    }
    var found := FindDocument(db.documents, req.documentId);
    if found.None? {
      return Failure(NotFound("No documents found with the provided IDs"));
    }
    r := Success(found.value);
  }

  /**
   * requestClaim as written: a PENDING claim on the policy holding the one
   * document and the explanation is saved under a fresh id. The document's
   * own `claimId` is not set, so the stored relation does not change. The
   * caller's customer is looked up but not compared with the policy's.
   */
  method RequestClaim(db: Db, caller: Caller, policyId: string, req: ClaimRequest, freshId: nat)
    returns (r: Result<string>)
    requires db.Valid() && freshId !in db.claims
    modifies db`claims
    ensures db.Valid()
    ensures match ClaimRefusal(db.customers, db.policies, db.documents, caller, policyId, req)
            case Some(e) => r == Failure(e) && db.claims == old(db.claims)
            case None =>
              r == Success(ClaimSent)
              && db.claims == old(db.claims)[freshId := Claim(policyId, [req.documentId], req.explanation, ClaimPending)]
  {
    var found := CheckClaim(db, caller, policyId, req);
    if found.Failure? {
      return Failure(found.error);
    }
    db.SaveClaim(freshId, Claim(policyId, [req.documentId], req.explanation, ClaimPending));
    r := Success(ClaimSent);
  }

  /**
   * requestClaim with the relation's owning side set: the same claim, and the
   * claimed document now points at it.
   */
  method RequestClaimLinked(db: Db, caller: Caller, policyId: string, req: ClaimRequest, freshId: nat)
    returns (r: Result<string>)
    requires db.Valid() && freshId !in db.claims
    modifies db`claims, db`documents
    ensures db.Valid()
    ensures match ClaimRefusal(db.customers, db.policies, old(db.documents), caller, policyId, req)
            case Some(e) => r == Failure(e) && db.claims == old(db.claims) && db.documents == old(db.documents)
            case None =>
              var i := FindDocument(old(db.documents), req.documentId).value;
              r == Success(ClaimSent)
              && db.claims == old(db.claims)[freshId := Claim(policyId, [req.documentId], req.explanation, ClaimPending)]
              && db.documents == old(db.documents)[i := old(db.documents)[i].(claimId := Some(freshId))]
              && DocumentsOf(db.documents, freshId) == [db.documents[i]]
  {
    var found := CheckClaim(db, caller, policyId, req);
    if found.Failure? {
      return Failure(found.error);
    }
    SaveLinkedClaim(db, found.value, freshId, Claim(policyId, [req.documentId], req.explanation, ClaimPending));
    r := Success(ClaimSent);
  }

  /** Save the new claim, then point document `i` at it. */
  method SaveLinkedClaim(db: Db, i: nat, freshId: nat, c: Claim)
    requires db.Valid() && freshId !in db.claims && i < |db.documents| && c.policyId in db.policies
    modifies db`claims, db`documents
    ensures db.Valid()
    ensures db.claims == old(db.claims)[freshId := c]
    ensures db.documents == old(db.documents)[i := old(db.documents)[i].(claimId := Some(freshId))]
    ensures DocumentsOf(db.documents, freshId) == [db.documents[i]]
  {
    NewClaimListsNoDocuments(db.documents, db.claims, freshId);
    db.SaveClaim(freshId, c);
    LinkedClaimListsItsDocument(db.documents, i, freshId);
    db.LinkDocument(i, freshId);
  }

  // ----- decisions -----

  /** approveClaim / rejectClaim on the claims: the claim's new status, or not-found. */
  function Decide(claims: map<nat, Claim>, claimId: nat, s: ClaimStatus): (r: Result<map<nat, Claim>>)
    ensures r.Failure? <==> claimId !in claims
    ensures r.Failure? ==> r.error == NotFound("Claim not found")
    ensures r.Success? ==> r.value.Keys == claims.Keys && r.value[claimId].status == s
                           && r.value[claimId].(status := claims[claimId].status) == claims[claimId]
                           && forall k :: k in claims && k != claimId ==> r.value[k] == claims[k]
  {
    if claimId !in claims then Failure(NotFound("Claim not found"))
    else Success(claims[claimId := claims[claimId].(status := s)])
  }

  /**
   * Decisions do not look at the current status: deciding a decided claim
   * again succeeds, and only the last decision remains.
   */
  lemma LastDecisionWins(claims: map<nat, Claim>, claimId: nat, first: ClaimStatus, second: ClaimStatus)
    requires claimId in claims
    ensures Decide(claims, claimId, first).Success?
    ensures Decide(Decide(claims, claimId, first).value, claimId, second) == Decide(claims, claimId, second)
  {
    var once := Decide(claims, claimId, first).value;
    assert once[claimId := once[claimId].(status := second)] == claims[claimId := claims[claimId].(status := second)];
  }

  /**
   * approveClaim: the claim becomes APPROVED and its policy CLAIMED, whatever
   * the claim's status was; the latest insurance setting is read only after
   * saving, so with no setting the call fails with the changes made.
   */
  method ApproveClaim(db: Db, claimId: nat) returns (r: Result<()>)
    requires db.Valid()
    modifies db`claims, db`policies
    ensures db.Valid()
    ensures match Decide(old(db.claims), claimId, ClaimApproved)
            case Failure(e) => r == Failure(e) && db.claims == old(db.claims) && db.policies == old(db.policies)
            case Success(claims) =>
              var pid := old(db.claims)[claimId].policyId;
              db.claims == claims
              && db.policies == old(db.policies)[pid := old(db.policies)[pid].(status := Claimed)]
              && r == (if db.insuranceSettings == [] then Failure(NullDereference) else Success(()))
  {
    if claimId !in db.claims {
      return Failure(NotFound("Claim not found"));
    }
    MarkClaimed(db, claimId);
    var setting := GetLastInsuranceSetting(db.insuranceSettings);
    if setting.None? {
      return Failure(NullDereference);
    }
    r := Success(());
  }

  /** The saves of approveClaim: the claim APPROVED, its policy CLAIMED. */
  method MarkClaimed(db: Db, claimId: nat)
    requires db.Valid() && claimId in db.claims
    modifies db`claims, db`policies
    ensures db.Valid()
    ensures var c := old(db.claims)[claimId];
            db.claims == old(db.claims)[claimId := c.(status := ClaimApproved)]
            && db.policies == old(db.policies)[c.policyId := old(db.policies)[c.policyId].(status := Claimed)]
  {
    var claim := db.claims[claimId];
    db.SaveClaim(claimId, claim.(status := ClaimApproved));
    var policy := db.policies[claim.policyId];
    db.SavePolicy(claim.policyId, policy.(status := Claimed));
  }

  /** rejectClaim: the claim becomes REJECTED; its policy is untouched. */
  method RejectClaim(db: Db, claimId: nat) returns (r: Result<()>)
    requires db.Valid()
    modifies db`claims
    ensures db.Valid()
    ensures match Decide(old(db.claims), claimId, ClaimRejected)
            case Failure(e) => r == Failure(e) && db.claims == old(db.claims)
            case Success(claims) => r == Success(()) && db.claims == claims
  {
    if claimId !in db.claims {
      return Failure(NotFound("Claim not found"));
    }
    var claim := db.claims[claimId];
    db.SaveClaim(claimId, claim.(status := ClaimRejected));
    r := Success(());
  }

  /**
   * The payout the approval e-mail quotes: the policy's total investment less
   * the latest claim deduction, as a percentage.
   */
  function PayoutQuote(totalInvestmentAmount: int, claimDeduction: real): (r: real)
    ensures totalInvestmentAmount >= 0 && 0.0 <= claimDeduction <= 100.0 ==>
              0.0 <= r <= totalInvestmentAmount as real
    ensures claimDeduction == 0.0 ==> r == totalInvestmentAmount as real
    ensures claimDeduction == 100.0 ==> r == 0.0
  {
    var keep := 1.0 - claimDeduction / 100.0;
    var total := totalInvestmentAmount as real;
    assert total >= 0.0 && 0.0 <= keep <= 1.0 ==> 0.0 <= total * keep <= total * 1.0;
    total * keep
  }

  // ----- responses -----

  datatype ClaimResponse = ClaimResponse(
    claimId: nat,
    policyId: string,
    explanation: string,
    customerId: string,
    status: ClaimStatus)

  /** convertToClaimResponse: the claim's fields and its policy's customer. */
  function ClaimToResponse(claimId: nat, c: Claim, policies: map<string, Policy>): (r: ClaimResponse)
    requires c.policyId in policies
    ensures r.claimId == claimId && r.policyId == c.policyId && r.explanation == c.explanation
    ensures r.customerId == policies[c.policyId].customerId && r.status == c.status
  {
    ClaimResponse(claimId, c.policyId, c.explanation, policies[c.policyId].customerId, c.status)
  }

  /** The claim listings: the repository's page mapped row by row, its numbers kept. */
  function ClaimPage(page: Page<(nat, Claim)>, policies: map<string, Policy>): (r: Page<ClaimResponse>)
    requires forall i :: 0 <= i < |page.content| ==> page.content[i].1.policyId in policies
    ensures |r.content| == |page.content|
    ensures forall i :: 0 <= i < |page.content| ==>
              r.content[i] == ClaimToResponse(page.content[i].0, page.content[i].1, policies)
    ensures r.number == page.number && r.size == page.size && r.totalElements == page.totalElements
    ensures r.totalPages == page.totalPages && r.last == page.last
  {
    var rows := page.content;
    Page(seq(|rows|, i requires 0 <= i < |rows| => ClaimToResponse(rows[i].0, rows[i].1, policies)),
         page.number, page.size, page.totalElements, page.totalPages, page.last)
  }

  // ----- documents of a claim -----

  /** documentRepository.findByClaim: the documents that point at the claim, in storage order. */
  function DocumentsOf(documents: seq<Document>, claimId: nat): (r: seq<Document>)
    ensures |r| <= |documents|
    ensures forall d :: d in r <==> d in documents && d.claimId == Some(claimId)
  {
    if documents == [] then []
    else (if documents[0].claimId == Some(claimId) then [documents[0]] else []) + DocumentsOf(documents[1..], claimId)
  }

  /** A claim id that no stored claim has is pointed at by no stored document. */
  lemma NewClaimListsNoDocuments(documents: seq<Document>, claims: map<nat, Claim>, claimId: nat)
    requires DocumentsLinked(documents, claims) && claimId !in claims
    ensures DocumentsOf(documents, claimId) == []
  {
  }

  /**
   * Pointing one document at a claim no document pointed at makes it the
   * claim's only document.
   */
  lemma {:induction false} LinkedClaimListsItsDocument(documents: seq<Document>, i: nat, claimId: nat)
    requires i < |documents| && DocumentsOf(documents, claimId) == []
    ensures DocumentsOf(documents[i := documents[i].(claimId := Some(claimId))], claimId)
            == [documents[i].(claimId := Some(claimId))]
  {
    var linked := documents[i := documents[i].(claimId := Some(claimId))];
    assert documents[0] !in DocumentsOf(documents, claimId);
    if i == 0 {
      assert linked[1..] == documents[1..];
      assert DocumentsOf(documents[1..], claimId) == [];
    } else {
      assert linked[1..] == documents[1..][i - 1 := documents[i].(claimId := Some(claimId))];
      assert DocumentsOf(documents[1..], claimId) == [];
      LinkedClaimListsItsDocument(documents[1..], i - 1, claimId);
    }
  }

  datatype DocumentResponse = DocumentResponse(
    documentId: string,
    documentName: string,
    documentType: string,
    uploadDate: Instant)

  function ToDocumentResponse(d: Document): (r: DocumentResponse)
    ensures r.documentId == d.documentId && r.documentName == d.documentName
    ensures r.documentType == d.documentType && r.uploadDate == d.uploadDate
  {
    DocumentResponse(d.documentId, d.documentName, d.documentType, d.uploadDate)
  }

  /** getDocumentsByClaimId: one response per document of the claim, in order; an unknown claim is not found. */
  method DocumentsByClaimId(db: Db, claimId: nat) returns (r: Result<seq<DocumentResponse>>)
    ensures claimId !in db.claims ==> r == Failure(NotFound("Claim not found"))
    ensures claimId in db.claims ==>
              r.Success? && |r.value| == |DocumentsOf(db.documents, claimId)|
              && forall k :: 0 <= k < |r.value| ==> r.value[k] == ToDocumentResponse(DocumentsOf(db.documents, claimId)[k])
  {
    if claimId !in db.claims {
      return Failure(NotFound("Claim not found"));
    }
    var documents := DocumentsOf(db.documents, claimId);
    var responses: seq<DocumentResponse> := [];
    for i := 0 to |documents|
      invariant |responses| == i
      invariant forall k :: 0 <= k < i ==> responses[k] == ToDocumentResponse(documents[k])
    {
      responses := responses + [ToDocumentResponse(documents[i])];
    }
    r := Success(responses);
  }
}
