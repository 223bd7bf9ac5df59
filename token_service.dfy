/**
 * The spend mediator and the read side of the ledger: balance, history,
 * spend requests and their PENDING -> APPROVED / DENIED review.
 */
module TokenService {
  import opened Wrappers
  import opened Schema
  import opened Ledger
  import opened Store
  import BlockchainService
  import LessonService

  /** Page size of the history when the caller gives none. */
  const DEFAULT_HISTORY_LIMIT: nat := 50

  datatype BalanceView = BalanceView(balance: int, dailyEarned: int, dailyCap: int)

  /** A child's balance and what it has earned today, on day `today`. Reads only. */
  function GetBalance(db: Database, childId: ChildId, today: Day): (r: Result<BalanceView>)
    reads db
    ensures r.Err? <==> childId >= |db.children|
    ensures r.Err? ==> r.message == "Child not found"
    ensures r.Ok? ==>
              && r.value.balance == db.children[childId].tokenBalance
              && r.value.dailyEarned == LessonService.EffectiveDailyEarned(db.children[childId], today)
              && r.value.dailyCap == TOKEN_DAILY_CAP
  {
    if childId >= |db.children| then Err("Child not found")
    else
      var child := db.children[childId];
      Ok(BalanceView(child.tokenBalance, LessonService.EffectiveDailyEarned(child, today), TOKEN_DAILY_CAP))
  }

  /** In a valid store the reported balance is the ledger's sum and the daily figure is within the cap. */
  lemma BalanceAgreesWithLedger(db: Database, childId: ChildId, today: Day)
    requires db.Valid()
    requires childId < |db.children|
    ensures GetBalance(db, childId, today).Ok?
    ensures GetBalance(db, childId, today).value.balance == AmountSum(db.transactions, childId)
    ensures GetBalance(db, childId, today).value.balance == LastBalance(db.transactions, childId)
    ensures GetBalance(db, childId, today).value.balance >= 0
    ensures 0 <= GetBalance(db, childId, today).value.dailyEarned <= TOKEN_DAILY_CAP
  {
    BalanceFacts(db.children, db.transactions, childId);
    assert AccountValid(db.children[childId], db.transactions, childId);
  }

  /** The positions of child `c`'s entries, oldest first. */
  function EntryPositions(txs: seq<TokenTx>, c: ChildId): (r: seq<TxId>)
    ensures forall k :: 0 <= k < |r| ==> r[k] < |txs| && txs[r[k]].childId == c
    ensures forall k, l :: 0 <= k < l < |r| ==> r[k] < r[l]
    ensures forall i :: 0 <= i < |txs| && txs[i].childId == c ==> i in r
  {
    if |txs| == 0 then []
    else
      var prefix := EntryPositions(txs[..|txs| - 1], c);
      if txs[|txs| - 1].childId == c then prefix + [|txs| - 1] else prefix
  }

  /** Child `c`'s entries, in creation order. */
  function EntriesOf(txs: seq<TokenTx>, c: ChildId): (r: seq<TokenTx>)
    ensures |r| <= |txs|
    ensures forall k :: 0 <= k < |r| ==> r[k].childId == c
  {
    if |txs| == 0 then []
    else
      var prefix := EntriesOf(txs[..|txs| - 1], c);
      if txs[|txs| - 1].childId == c then prefix + [txs[|txs| - 1]] else prefix
  }

  /**
   * A child's entries keep the ledger's order and multiplicity: the k-th is
   * the entry at the k-th of the child's positions, which are exactly the
   * positions of its entries, oldest first.
   */
  lemma {:induction false} EntriesInOrder(txs: seq<TokenTx>, c: ChildId)
    ensures |EntriesOf(txs, c)| == |EntryPositions(txs, c)|
    ensures forall k {:trigger EntriesOf(txs, c)[k]} :: 0 <= k < |EntriesOf(txs, c)| ==> EntriesOf(txs, c)[k] == txs[EntryPositions(txs, c)[k]]
  {
    if |txs| > 0 {
      var init := txs[..|txs| - 1];
      EntriesInOrder(init, c);
      var e0, p0 := EntriesOf(init, c), EntryPositions(init, c);
      var e, p := EntriesOf(txs, c), EntryPositions(txs, c);
      if txs[|txs| - 1].childId == c {
        assert e == e0 + [txs[|txs| - 1]] && p == p0 + [|txs| - 1];
      } else {
        assert e == e0 && p == p0;
      }
      forall k | 0 <= k < |e0|
        ensures e[k] == txs[p[k]]
      {
        assert e[k] == e0[k] == init[p0[k]] && p[k] == p0[k];
      }
    }
  }

  /** The sequence in reverse order. */
  function Reversed(s: seq<TokenTx>): (r: seq<TokenTx>)
    ensures |r| == |s|
    ensures forall k :: 0 <= k < |s| ==> r[k] == s[|s| - 1 - k]
  {
    if |s| == 0 then [] else [s[|s| - 1]] + Reversed(s[..|s| - 1])
  }

  /**
   * A child's ledger entries, newest first, at most `limit` of them (50 when
   * the caller gives none). Reads only.
   */
  function GetHistory(db: Database, childId: ChildId, limit: Option<nat>): (r: seq<TokenTx>)
    reads db
    ensures |r| <= limit.GetOr(DEFAULT_HISTORY_LIMIT)
    ensures var mine := EntriesOf(db.transactions, childId);
            var n := limit.GetOr(DEFAULT_HISTORY_LIMIT);
            && |r| == (if |mine| < n then |mine| else n)
            && forall k :: 0 <= k < |r| ==> r[k] == mine[|mine| - 1 - k]
  {
    var newest := Reversed(EntriesOf(db.transactions, childId));
    var n := limit.GetOr(DEFAULT_HISTORY_LIMIT);
    if |newest| <= n then newest else newest[..n]
  }

  /** The validated body of a spend request. */
  datatype SpendInput = SpendInput(amount: int, reason: string, referenceId: Option<Reference>)

  /**
   * Child `childId` asks to spend `input.amount` tokens. Fails when the child
   * holds fewer tokens, or already has MAX_PENDING_REQUESTS requests waiting;
   * otherwise stores a new PENDING request and returns its id with it.
   */
  method CreateSpendRequest(db: Database, childId: ChildId, input: SpendInput, now: Time)
    returns (r: Result<(RequestId, SpendRequest)>)
    requires db.Valid()
    modifies db`spendRequests
    ensures db.Valid()
    ensures childId >= |db.children| ==> r == Err("Child not found")
    ensures childId < |db.children| && input.amount > db.children[childId].tokenBalance ==>
              r == Err("Insufficient token balance")
    ensures childId < |db.children| && input.amount <= db.children[childId].tokenBalance &&
            PendingCount(old(db.spendRequests), childId) >= MAX_PENDING_REQUESTS ==>
              r == Err("Too many pending requests. Wait for approval.")
    ensures r.Ok? <==>
              && childId < |db.children|
              && input.amount <= db.children[childId].tokenBalance
              && PendingCount(old(db.spendRequests), childId) < MAX_PENDING_REQUESTS
    ensures r.Err? ==> db.spendRequests == old(db.spendRequests)
    ensures r.Ok? ==>
              && r.value.0 == |old(db.spendRequests)|
              && r.value.1 == SpendRequest(childId, input.amount, input.reason, input.referenceId, RequestPending, None, now)
              && db.spendRequests == old(db.spendRequests) + [r.value.1]
              && PendingCount(db.spendRequests, childId) == PendingCount(old(db.spendRequests), childId) + 1
              && PendingCount(db.spendRequests, childId) <= MAX_PENDING_REQUESTS
  {
    if childId >= |db.children| {
      return Err("Child not found");
    }
    if input.amount > db.children[childId].tokenBalance {
      return Err("Insufficient token balance");
    }
    var pendingCount := PendingCount(db.spendRequests, childId);
    if pendingCount >= MAX_PENDING_REQUESTS {
      return Err("Too many pending requests. Wait for approval.");
    }
    var request := SpendRequest(childId, input.amount, input.reason, input.referenceId, RequestPending, None, now);
    forall c | 0 <= c < |db.children|
      ensures PendingCount(db.spendRequests + [request], c) <= MAX_PENDING_REQUESTS
    {
      PendingCountAppend(db.spendRequests, request, c);
    }
    r := Ok((|db.spendRequests|, request));
    db.spendRequests := db.spendRequests + [request];
  }

  /** A parent's decision on a request. */
  datatype Decision = Approve | Deny

  /** What reviewing returns: the decided request, and the entry whose chain sync an approval requested. */
  datatype ReviewResult = ReviewResult(request: SpendRequest, syncRequested: Option<TxId>)

  /** Request `id` exists and belongs to a child of family `familyId`. */
  predicate VisibleTo(requests: seq<SpendRequest>, children: seq<Child>, id: RequestId, familyId: FamilyId)
  {
    id < |requests| && requests[id].childId < |children| && children[requests[id].childId].familyId == familyId
  }

  /**
   * A parent of family `familyId` decides request `requestId`. Only a PENDING
   * request of the family's own child can be decided, and only once. An
   * approval re-checks the balance, then marks the request APPROVED, appends
   * a spend entry and lowers the balance in one step; a denial only marks
   * the request DENIED.
   */
  method ReviewSpendRequest(db: Database, cfg: BlockchainService.ChainConfig, requestId: RequestId,
                            familyId: FamilyId, decision: Decision, now: Time)
    returns (r: Result<ReviewResult>)
    requires db.Valid()
    modifies db`spendRequests, db`transactions, db`children
    ensures db.Valid()
    ensures !VisibleTo(old(db.spendRequests), old(db.children), requestId, familyId) ==> r == Err("Request not found")
    ensures VisibleTo(old(db.spendRequests), old(db.children), requestId, familyId) && old(db.spendRequests)[requestId].status != RequestPending ==>
              r == Err("Request already reviewed")
    ensures VisibleTo(old(db.spendRequests), old(db.children), requestId, familyId) && old(db.spendRequests)[requestId].status == RequestPending &&
            decision == Approve &&
            old(db.spendRequests)[requestId].amount > old(db.children)[old(db.spendRequests)[requestId].childId].tokenBalance ==>
              r == Err("Child no longer has sufficient balance")
    ensures r.Ok? <==>
              && VisibleTo(old(db.spendRequests), old(db.children), requestId, familyId)
              && old(db.spendRequests)[requestId].status == RequestPending
              && (decision == Approve ==>
                    old(db.spendRequests)[requestId].amount <= old(db.children)[old(db.spendRequests)[requestId].childId].tokenBalance)
    ensures r.Err? ==>
              db.spendRequests == old(db.spendRequests) && db.transactions == old(db.transactions) &&
              db.children == old(db.children)
    ensures r.Ok? ==>
              var req := old(db.spendRequests)[requestId];
              var child := old(db.children)[req.childId];
              && VisibleTo(old(db.spendRequests), old(db.children), requestId, familyId) && req.status == RequestPending
              && |db.spendRequests| == |old(db.spendRequests)|
              && r.value.request == db.spendRequests[requestId]
              && (decision == Approve ==>
                    var newBalance := child.tokenBalance - req.amount;
                    var entry := TokenTx(req.childId, SpendUnlockContent, -req.amount, newBalance,
                                         "Spend approved: " + req.reason, req.referenceId, now,
                                         BlockchainService.InitialSyncStatus(cfg), None, None, 0, None);
                    && req.amount <= child.tokenBalance
                    && newBalance >= 0
                    && db.spendRequests == old(db.spendRequests)[requestId := req.(status := Approved, reviewedAt := Some(now))]
                    && db.transactions == old(db.transactions) + [entry]
                    && db.children == old(db.children)[req.childId := child.(tokenBalance := newBalance)]
                    && r.value.syncRequested == Some(|old(db.transactions)|))
              && (decision == Deny ==>
                    && db.spendRequests == old(db.spendRequests)[requestId := req.(status := Denied, reviewedAt := Some(now))]
                    && db.transactions == old(db.transactions)
                    && db.children == old(db.children)
                    && r.value.syncRequested == None)
  {
    if requestId >= |db.spendRequests| {
      return Err("Request not found");
    }
    var request := db.spendRequests[requestId];
    var child := db.children[request.childId];
    if child.familyId != familyId {
      return Err("Request not found");
    }
    if request.status != RequestPending {
      return Err("Request already reviewed");
    }
    var syncRequested: Option<TxId> := None;
    if decision == Approve {
      if request.amount > child.tokenBalance {
        return Err("Child no longer has sufficient balance");
      }
      var newBalance := child.tokenBalance - request.amount;
      var decided := request.(status := Approved, reviewedAt := Some(now));
      var entry := TokenTx(request.childId, SpendUnlockContent, -request.amount, newBalance,
                           "Spend approved: " + request.reason, request.referenceId, now,
                           BlockchainService.InitialSyncStatus(cfg), None, None, 0, None);
      var account := child.(tokenBalance := newBalance);
      AppendPreservesValid(db.children, db.transactions, entry, account);
      var requests := db.spendRequests[requestId := decided];
      forall c | 0 <= c < |db.children|
        ensures PendingCount(requests, c) <= MAX_PENDING_REQUESTS
      {
        PendingCountUpdate(db.spendRequests, requestId, decided, c);
      }
      db.spendRequests := requests;
      syncRequested := Some(|db.transactions|);
      db.transactions := db.transactions + [entry];
      db.children := db.children[request.childId := account];
    } else {
      var decided := request.(status := Denied, reviewedAt := Some(now));
      var requests := db.spendRequests[requestId := decided];
      forall c | 0 <= c < |db.children|
        ensures PendingCount(requests, c) <= MAX_PENDING_REQUESTS
      {
        PendingCountUpdate(db.spendRequests, requestId, decided, c);
      }
      db.spendRequests := requests;
    }
    r := Ok(ReviewResult(db.spendRequests[requestId], syncRequested));
  }
}
