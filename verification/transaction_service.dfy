/**
 * The backend's TransactionService: the ledger feed. The transaction
 * repository is a sequence in storage order; findByPolicy returns the
 * policy's transactions in that order, with no date sort.
 */
module TransactionService {
  import opened Common
  import opened Entities
  import opened Store
  import opened Mappers

  /** findByPolicy: the policy's transactions, in storage order. */
  function ForPolicy(txs: seq<Transaction>, policyId: string): (r: seq<Transaction>)
    ensures |r| <= |txs|
    ensures forall i :: 0 <= i < |r| ==> r[i].policyId == policyId
  {
    if txs == [] then []
    else if txs[|txs| - 1].policyId == policyId then ForPolicy(txs[..|txs| - 1], policyId) + [txs[|txs| - 1]]
    else ForPolicy(txs[..|txs| - 1], policyId)
  }

  /** A new transaction is appended to its own policy's feed and to no other. */
  lemma ForPolicyAppend(txs: seq<Transaction>, t: Transaction, policyId: string)
    ensures ForPolicy(txs + [t], policyId) == ForPolicy(txs, policyId) + (if t.policyId == policyId then [t] else [])
  {
    assert (txs + [t])[..|txs|] == txs;
  }

  /**
   * The feed and the other policies' transactions partition the ledger: every
   * transaction of the policy is in its feed, once per occurrence.
   */
  lemma {:induction false} ForPolicyPartitions(txs: seq<Transaction>, policyId: string)
    ensures multiset(ForPolicy(txs, policyId)) + multiset(Others(txs, policyId)) == multiset(txs)
    ensures forall t: Transaction :: t.policyId == policyId ==> multiset(ForPolicy(txs, policyId))[t] == multiset(txs)[t]
  {
    if txs != [] {
      var init, last := txs[..|txs| - 1], txs[|txs| - 1];
      assert txs == init + [last];
      ForPolicyPartitions(init, policyId);
      assert multiset(txs) == multiset(init) + multiset{last};
    }
    forall t: Transaction | t.policyId == policyId
      ensures multiset(ForPolicy(txs, policyId))[t] == multiset(txs)[t]
    {
      assert t !in Others(txs, policyId);
    }
  }

  /** The transactions of all other policies, in storage order. */
  function Others(txs: seq<Transaction>, policyId: string): (r: seq<Transaction>)
    ensures |r| <= |txs|
    ensures forall i :: 0 <= i < |r| ==> r[i].policyId != policyId
  {
    if txs == [] then []
    else if txs[|txs| - 1].policyId == policyId then Others(txs[..|txs| - 1], policyId)
    else Others(txs[..|txs| - 1], policyId) + [txs[|txs| - 1]]
  }

  /**
   * The positions idx pick `feed` out of the ledger in storage order: they
   * increase, they include every position that holds a transaction of the
   * policy, and the feed's k-th entry is the transaction at idx[k].
   */
  ghost predicate SelectsInOrder(feed: seq<Transaction>, txs: seq<Transaction>, policyId: string, idx: seq<nat>)
  {
    |idx| == |feed|
    && (forall k :: 0 <= k < |idx| ==> idx[k] < |txs| && feed[k] == txs[idx[k]])
    && (forall k, l :: 0 <= k < l < |idx| ==> idx[k] < idx[l])
    && (forall j :: 0 <= j < |txs| && txs[j].policyId == policyId ==> j in idx)
  }

  /** The feed is the policy's transactions, each position once, in the order they were stored. */
  lemma {:induction false} ForPolicyInStorageOrder(txs: seq<Transaction>, policyId: string)
    ensures exists idx :: SelectsInOrder(ForPolicy(txs, policyId), txs, policyId, idx)
  {
    if txs == [] {
      var none: seq<nat> := [];
      assert SelectsInOrder(ForPolicy(txs, policyId), txs, policyId, none);
    } else {
      var init, last := txs[..|txs| - 1], txs[|txs| - 1];
      assert txs == init + [last];
      ForPolicyInStorageOrder(init, policyId);
      var idx: seq<nat> :| SelectsInOrder(ForPolicy(init, policyId), init, policyId, idx);
      ForPolicyAppend(init, last, policyId);
      SelectionExtends(ForPolicy(init, policyId), init, policyId, idx, last);
    }
  }

  /** Storing one more transaction extends a selection by its position, when it is the policy's. */
  lemma SelectionExtends(feed: seq<Transaction>, txs: seq<Transaction>, policyId: string, idx: seq<nat>,
                         t: Transaction)
    requires SelectsInOrder(feed, txs, policyId, idx)
    ensures t.policyId == policyId ==> SelectsInOrder(feed + [t], txs + [t], policyId, idx + [|txs|])
    ensures t.policyId != policyId ==> SelectsInOrder(feed, txs + [t], policyId, idx)
  {
    var txs' := txs + [t];
    assert forall j :: 0 <= j < |txs| ==> txs'[j] == txs[j];
    if t.policyId == policyId {
      var idx' := idx + [|txs|];
      assert forall k :: 0 <= k < |idx| ==> idx'[k] == idx[k] && idx[k] < |txs|;
      assert |txs| in idx';
    }
  }

  function MapResponses(txs: seq<Transaction>): (r: seq<TransactionResponse>)
    ensures |r| == |txs|
    ensures forall i :: 0 <= i < |txs| ==> r[i] == TransactionToResponse(txs[i])
  {
    seq(|txs|, i requires 0 <= i < |txs| => TransactionToResponse(txs[i]))
  }

  /**
   * transctionByPolicyId: one response per stored transaction of the policy,
   * in storage order; an unknown policy is an error.
   */
  method TransactionsByPolicyId(db: Db, policyId: string) returns (r: Result<seq<TransactionResponse>>)
    ensures r.Failure? <==> policyId !in db.policies
    ensures r.Failure? ==> r.error == ApiError("policy id notfound")
    ensures r.Success? ==> r.value == MapResponses(ForPolicy(db.transactions, policyId))
  {
    if policyId !in db.policies {
      return Failure(ApiError("policy id notfound"));
    }
    var txs := db.transactions;
    var responses: seq<TransactionResponse> := [];
    var i := 0;
    while i < |txs|
      invariant 0 <= i <= |txs|
      invariant responses == MapResponses(ForPolicy(txs[..i], policyId))
    {
      assert txs[..i + 1] == txs[..i] + [txs[i]];
      ForPolicyAppend(txs[..i], txs[i], policyId);
      if txs[i].policyId == policyId {
        responses := responses + [TransactionToResponse(txs[i])];
      }
      i := i + 1;
    }
    assert txs[..i] == txs;
    r := Success(responses);
  }

  /**
   * getAllTransactions after the repository query: the page's rows mapped
   * one-to-one in order, the page's number, size and totals copied.
   */
  method ToPagedResponse(page: Page<Transaction>) returns (r: PagedResponse<TransactionResponse>)
    ensures r.content == MapResponses(page.content)
    ensures r.page == page.number && r.size == page.size && r.totalElements == page.totalElements
    ensures r.totalPages == page.totalPages && r.last == page.last
  {
    var responses: seq<TransactionResponse> := [];
    var i := 0;
    while i < |page.content|
      invariant 0 <= i <= |page.content|
      invariant responses == MapResponses(page.content[..i])
    {
      responses := responses + [TransactionToResponse(page.content[i])];
      i := i + 1;
    }
    assert page.content[..i] == page.content;
    r := PagedResponse(responses, page.number, page.size, page.totalElements, page.totalPages, page.last);
  }
}
