/**
 * The chain reconciler: mirrors ledger entries as mint/burn transactions of
 * the on-chain token and records, per entry, how far that got. The chain
 * client is an oracle passed in as a function from the call made to its
 * outcome; it may fail.
 */
module BlockchainService {
  import opened Wrappers
  import opened Schema
  import opened Ledger
  import opened Store

  /** An entry that failed this many times is no longer picked up. */
  const MAX_RETRIES: nat := 5
  /** The batch job handles at most this many entries per run. */
  const BATCH_SIZE: nat := 50

  /** The three environment variables the chain client needs. */
  datatype ChainConfig = ChainConfig(contractAddress: Option<string>, serverWalletKey: Option<string>, rpcUrl: Option<string>)

  /** An environment variable counts as set when it is present and not empty. */
  predicate IsSet(v: Option<string>)
  {
    v.Some? && v.value != ""
  }

  /** Minting is on when all three settings are present; an unset variable reads as the empty string. */
  function IsEnabled(cfg: ChainConfig): (b: bool)
    ensures b <==> cfg.contractAddress.GetOr("") != "" && cfg.serverWalletKey.GetOr("") != "" && cfg.rpcUrl.GetOr("") != ""
  {
    IsSet(cfg.contractAddress) && IsSet(cfg.serverWalletKey) && IsSet(cfg.rpcUrl)
  }

  /** The sync status a new ledger entry is written with. */
  function InitialSyncStatus(cfg: ChainConfig): (s: Option<SyncStatus>)
    ensures s == Some(SyncPending) <==> IsEnabled(cfg)
    ensures s == None <==> !IsEnabled(cfg)
  {
    if IsEnabled(cfg) then Some(SyncPending) else None
  }

  /** A call into the token contract. */
  datatype ChainCall = Mint(wallet: Address, amount: nat) | Burn(wallet: Address, amount: nat)

  /** What the chain client reports: the mined transaction's hash, or a thrown error and its message if it was an Error. */
  datatype ChainOutcome = Mined(hash: string) | Thrown(message: Option<string>)

  function Abs(x: int): (r: nat)
    ensures r == x || r == -x
  {
    if x < 0 then -x else x
  }

  /** Earnings are minted to the child's wallet; everything else is burnt from it. */
  function CallFor(address: Address, amount: int): (c: ChainCall)
    ensures c.Mint? <==> amount > 0
    ensures c.wallet == address && c.amount == Abs(amount)
  {
    if amount > 0 then Mint(address, Abs(amount)) else Burn(address, Abs(amount))
  }

  /** The ledger columns of an entry, which syncing never touches. */
  predicate SameLedgerColumns(a: TokenTx, b: TokenTx)
  {
    && a.childId == b.childId && a.txType == b.txType && a.amount == b.amount
    && a.balanceAfter == b.balanceAfter && a.description == b.description
    && a.referenceId == b.referenceId && a.createdAt == b.createdAt
  }

  /** The entry after one sync attempt with the given outcome. */
  function SyncResult(e: TokenTx, outcome: ChainOutcome, now: Time): (r: TokenTx)
    ensures SameLedgerColumns(e, r)
    ensures r.syncStatus == Some(SyncConfirmed) <==> outcome.Mined?
    ensures r.syncStatus == Some(SyncFailed) <==> outcome.Thrown?
    ensures outcome.Mined? ==>
              r.txHash == Some(outcome.hash) && r.syncError == None &&
              r.retryCount == e.retryCount && r.syncedAt == Some(now)
    ensures outcome.Thrown? ==>
              r.syncError == Some(outcome.message.GetOr("Unknown error")) &&
              r.retryCount == e.retryCount + 1 &&
              r.txHash == e.txHash && r.syncedAt == e.syncedAt
  {
    match outcome
    case Mined(h) =>
      e.(syncStatus := Some(SyncConfirmed), txHash := Some(h), syncError := None, syncedAt := Some(now))
    case Thrown(m) =>
      e.(syncStatus := Some(SyncFailed), syncError := Some(m.GetOr("Unknown error")), retryCount := e.retryCount + 1)
  }

  /**
   * An already confirmed entry is not skipped: a second attempt that fails
   * turns it FAILED and counts a retry.
   */
  lemma ConfirmedIsNotSkipped(e: TokenTx, message: Option<string>, now: Time)
    requires e.syncStatus == Some(SyncConfirmed)
    ensures SyncResult(e, Thrown(message), now).syncStatus == Some(SyncFailed)
    ensures SyncResult(e, Thrown(message), now).retryCount == e.retryCount + 1
  {
  }

  /**
   * Mirrors entry `txId` on the chain: marks it SUBMITTED, calls the chain,
   * then records the outcome. Returns the call it made, if any.
   */
  method SyncTransaction(db: Database, cfg: ChainConfig, txId: TxId, chain: ChainCall -> ChainOutcome, now: Time)
    returns (call: Option<ChainCall>)
    requires db.Valid()
    modifies db`transactions
    ensures db.Valid()
    ensures SameLedger(old(db.transactions), db.transactions)
    ensures call.None? <==>
              || !IsEnabled(cfg)
              || txId >= |old(db.transactions)|
              || FindWallet(db.wallets, ChildOwner(old(db.transactions)[txId].childId)).None?
    ensures call.None? ==> db.transactions == old(db.transactions)
    ensures call.Some? ==>
              var e := old(db.transactions)[txId];
              var w := FindWallet(db.wallets, ChildOwner(e.childId));
              && call.value == CallFor(db.wallets[w.value].address, e.amount)
              && db.transactions == old(db.transactions)[txId := SyncResult(e, chain(call.value), now)]
  {
    if !IsEnabled(cfg) {
      return None;
    }
    if txId >= |db.transactions| {
      return None;
    }
    var e := db.transactions[txId];
    var w := FindWallet(db.wallets, ChildOwner(e.childId));
    if w.None? {
      return None;
    }
    var c := CallFor(db.wallets[w.value].address, e.amount);
    var txs0 := db.transactions;
    db.transactions := db.transactions[txId := e.(syncStatus := Some(SyncSubmitted))];
    var outcome := chain(c);
    db.transactions := db.transactions[txId := SyncResult(db.transactions[txId], outcome, now)];
    assert db.transactions == txs0[txId := SyncResult(e, outcome, now)];
    SameLedgerPreservesValid(db.children, txs0, db.transactions);
    call := Some(c);
  }

  /** An entry the batch job may pick up: waiting or failed, with retries left. */
  predicate Eligible(e: TokenTx)
  {
    (e.syncStatus == Some(SyncPending) || e.syncStatus == Some(SyncFailed)) && e.retryCount < MAX_RETRIES
  }

  /** The positions of all eligible entries, oldest first. */
  function EligibleIndices(txs: seq<TokenTx>): (r: seq<TxId>)
    ensures forall k :: 0 <= k < |r| ==> r[k] < |txs| && Eligible(txs[r[k]])
    ensures forall k, l :: 0 <= k < l < |r| ==> r[k] < r[l]
    ensures forall i :: 0 <= i < |txs| && Eligible(txs[i]) ==> i in r
  {
    if |txs| == 0 then []
    else
      var prefix := EligibleIndices(txs[..|txs| - 1]);
      if Eligible(txs[|txs| - 1]) then prefix + [|txs| - 1] else prefix
  }

  /** The entries one batch run works on: the oldest eligible ones, at most BATCH_SIZE. */
  function SelectBatch(txs: seq<TokenTx>): (batch: seq<TxId>)
    ensures |batch| <= BATCH_SIZE
    ensures forall k :: 0 <= k < |batch| ==> batch[k] < |txs| && Eligible(txs[batch[k]])
    ensures forall k, l :: 0 <= k < l < |batch| ==> batch[k] < batch[l]
  {
    var all := EligibleIndices(txs);
    if |all| <= BATCH_SIZE then all else all[..BATCH_SIZE]
  }

  /**
   * Oldest first: an eligible entry is in the batch, or the batch is full and
   * every entry in it is older.
   */
  lemma BatchIsOldestFirst(txs: seq<TokenTx>, i: nat)
    requires i < |txs| && Eligible(txs[i])
    ensures || i in SelectBatch(txs)
            || (|SelectBatch(txs)| == BATCH_SIZE && forall k :: 0 <= k < BATCH_SIZE ==> SelectBatch(txs)[k] < i)
  {
    var all := EligibleIndices(txs);
    var p :| 0 <= p < |all| && all[p] == i;
    if p < BATCH_SIZE {
      assert SelectBatch(txs)[p] == i;
    }
  }

  /** An entry whose retries are used up is never selected again. */
  lemma ExhaustedNeverSelected(txs: seq<TokenTx>, i: nat)
    requires i < |txs| && txs[i].retryCount >= MAX_RETRIES
    ensures i !in SelectBatch(txs)
  {
  }

  /** How many of the entries at positions `ids` are CONFIRMED. */
  function CountConfirmed(txs: seq<TokenTx>, ids: seq<TxId>): (n: nat)
    ensures n <= |ids|
  {
    if |ids| == 0 then 0
    else
      var last := ids[|ids| - 1];
      CountConfirmed(txs, ids[..|ids| - 1]) +
      (if last < |txs| && txs[last].syncStatus == Some(SyncConfirmed) then 1 else 0)
  }

  lemma {:induction false} CountConfirmedFrame(a: seq<TokenTx>, b: seq<TokenTx>, ids: seq<TxId>)
    requires |a| == |b|
    requires forall k :: 0 <= k < |ids| && ids[k] < |a| ==> a[ids[k]] == b[ids[k]]
    ensures CountConfirmed(a, ids) == CountConfirmed(b, ids)
  {
    if |ids| > 0 {
      CountConfirmedFrame(a, b, ids[..|ids| - 1]);
    }
  }

  /** One batch step changes only entry `pending[k]`, so the earlier counts and the untouched entries stay as they were. */
  lemma SyncStepFrame(txs0: seq<TokenTx>, before: seq<TokenTx>, after: seq<TokenTx>, pending: seq<TxId>, k: nat)
    requires k < |pending|
    requires forall j, l :: 0 <= j < l < |pending| ==> pending[j] < pending[l]
    requires |before| == |txs0| && |after| == |before|
    requires forall i :: 0 <= i < |before| && i != pending[k] ==> after[i] == before[i]
    requires forall i :: 0 <= i < |txs0| && i !in pending[..k] ==> before[i] == txs0[i]
    ensures CountConfirmed(after, pending[..k + 1]) ==
              CountConfirmed(before, pending[..k]) +
              (if pending[k] < |after| && after[pending[k]].syncStatus == Some(SyncConfirmed) then 1 else 0)
    ensures forall i :: 0 <= i < |txs0| && i !in pending[..k + 1] ==> after[i] == txs0[i]
  {
    forall j | 0 <= j < k
      ensures pending[..k][j] != pending[k]
    {
    }
    CountConfirmedFrame(before, after, pending[..k]);
    assert pending[..k + 1][..k] == pending[..k];
    forall i | 0 <= i < |txs0| && i !in pending[..k + 1]
      ensures after[i] == txs0[i]
    {
      assert pending[..k + 1] == pending[..k] + [pending[k]];
    }
  }

  /**
   * Entry `e` after the batch job's step `k`: the sync result of the chain's
   * answer, at batch step k, to the call for its child's wallet when the child
   * has one, else as it was (a step without a wallet makes no call).
   */
  function BatchStepResult(e: TokenTx, wallets: seq<Wallet>, chain: (nat, ChainCall) -> ChainOutcome, k: nat, now: Time): (r: TokenTx)
    ensures SameLedgerColumns(e, r)
    ensures FindWallet(wallets, ChildOwner(e.childId)).None? ==> r == e
  {
    match FindWallet(wallets, ChildOwner(e.childId))
    case None => e
    case Some(w) => SyncResult(e, chain(k, CallFor(wallets[w].address, e.amount)), now)
  }

  /**
   * A batch entry ends CONFIRMED exactly when its child has a wallet and the
   * chain mined the call for it; an entry of a child without a wallet stays
   * eligible.
   */
  lemma BatchStepConfirmed(e: TokenTx, wallets: seq<Wallet>, chain: (nat, ChainCall) -> ChainOutcome, k: nat, now: Time)
    requires Eligible(e)
    ensures var w := FindWallet(wallets, ChildOwner(e.childId));
            BatchStepResult(e, wallets, chain, k, now).syncStatus == Some(SyncConfirmed) <==>
              w.Some? && chain(k, CallFor(wallets[w.value].address, e.amount)).Mined?
    ensures FindWallet(wallets, ChildOwner(e.childId)).None? ==> Eligible(BatchStepResult(e, wallets, chain, k, now))
  {
  }

  /** After step `k` the entries of steps 0..k hold their step's result, given that step `k` changed only its own entry. */
  lemma SyncStepEntries(txs0: seq<TokenTx>, before: seq<TokenTx>, after: seq<TokenTx>, wallets: seq<Wallet>,
                        chain: (nat, ChainCall) -> ChainOutcome, pending: seq<TxId>, k: nat, now: Time)
    requires k < |pending|
    requires forall j, l :: 0 <= j < l < |pending| ==> pending[j] < pending[l]
    requires forall j :: 0 <= j < |pending| ==> pending[j] < |txs0|
    requires |before| == |txs0| && |after| == |txs0|
    requires forall i :: 0 <= i < |before| && i != pending[k] ==> after[i] == before[i]
    requires forall j :: 0 <= j < k ==> before[pending[j]] == BatchStepResult(txs0[pending[j]], wallets, chain, j, now)
    requires after[pending[k]] == BatchStepResult(txs0[pending[k]], wallets, chain, k, now)
    ensures forall j :: 0 <= j <= k ==> after[pending[j]] == BatchStepResult(txs0[pending[j]], wallets, chain, j, now)
  {
    forall j | 0 <= j < k
      ensures after[pending[j]] == BatchStepResult(txs0[pending[j]], wallets, chain, j, now)
    {
      assert pending[j] < pending[k];
    }
  }

  /** Step `k` of the batch job: syncs entry `pending[k]` and keeps the run's bookkeeping. */
  method SyncStep(db: Database, cfg: ChainConfig, chain: (nat, ChainCall) -> ChainOutcome, now: Time,
                  ghost txs0: seq<TokenTx>, pending: seq<TxId>, k: nat, synced: nat)
    returns (confirmed: bool)
    requires db.Valid() && IsEnabled(cfg)
    requires k < |pending|
    requires forall j, l :: 0 <= j < l < |pending| ==> pending[j] < pending[l]
    requires forall j :: 0 <= j < |pending| ==> pending[j] < |txs0|
    requires |db.transactions| == |txs0| && SameLedger(txs0, db.transactions)
    requires synced == CountConfirmed(db.transactions, pending[..k])
    requires forall i :: 0 <= i < |txs0| && i !in pending[..k] ==> db.transactions[i] == txs0[i]
    requires forall j :: 0 <= j < k ==>
               db.transactions[pending[j]] == BatchStepResult(txs0[pending[j]], db.wallets, chain, j, now)
    modifies db`transactions
    ensures db.Valid()
    ensures |db.transactions| == |txs0| && SameLedger(txs0, db.transactions)
    ensures confirmed <==> db.transactions[pending[k]].syncStatus == Some(SyncConfirmed)
    ensures (if confirmed then synced + 1 else synced) == CountConfirmed(db.transactions, pending[..k + 1])
    ensures forall i :: 0 <= i < |txs0| && i !in pending[..k + 1] ==> db.transactions[i] == txs0[i]
    ensures forall j :: 0 <= j <= k ==>
              db.transactions[pending[j]] == BatchStepResult(txs0[pending[j]], db.wallets, chain, j, now)
  {
    ghost var before := db.transactions;
    var id := pending[k];
    assert forall j :: 0 <= j < k ==> pending[..k][j] < id;
    assert before[id] == txs0[id];
    var _ := SyncTransaction(db, cfg, id, c => chain(k, c), now);
    SyncStepFrame(txs0, before, db.transactions, pending, k);
    assert db.transactions[id] == BatchStepResult(txs0[id], db.wallets, chain, k, now);
    SyncStepEntries(txs0, before, db.transactions, db.wallets, chain, pending, k, now);
    confirmed := db.transactions[id].syncStatus == Some(SyncConfirmed);
  }

  /**
   * The batch job: syncs the selected entries one after another and counts
   * those that ended CONFIRMED as synced and the others as failed.
   * `chain(k, c)` is the chain's answer to call `c` made at batch step k.
   */
  method ProcessPendingSync(db: Database, cfg: ChainConfig, chain: (nat, ChainCall) -> ChainOutcome, now: Time)
    returns (synced: nat, failed: nat, ghost batch: seq<TxId>)
    requires db.Valid()
    modifies db`transactions
    ensures db.Valid()
    ensures SameLedger(old(db.transactions), db.transactions)
    ensures !IsEnabled(cfg) ==> batch == [] && db.transactions == old(db.transactions)
    ensures IsEnabled(cfg) ==> batch == SelectBatch(old(db.transactions))
    ensures synced + failed == |batch|
    ensures synced == CountConfirmed(db.transactions, batch)
    ensures forall i :: 0 <= i < |db.transactions| && i !in batch ==> db.transactions[i] == old(db.transactions)[i]
    ensures forall j :: 0 <= j < |batch| ==>
              db.transactions[batch[j]] == BatchStepResult(old(db.transactions)[batch[j]], db.wallets, chain, j, now)
  {
    if !IsEnabled(cfg) {
      return 0, 0, [];
    }
    var pending := SelectBatch(db.transactions);
    batch := pending;
    synced, failed := 0, 0;
    ghost var txs0 := db.transactions;
    for k := 0 to |pending|
      invariant db.Valid()
      invariant |db.transactions| == |txs0|
      invariant SameLedger(txs0, db.transactions)
      invariant synced + failed == k
      invariant synced == CountConfirmed(db.transactions, pending[..k])
      invariant forall i :: 0 <= i < |txs0| && i !in pending[..k] ==> db.transactions[i] == txs0[i]
      invariant forall j :: 0 <= j < k ==>
                  db.transactions[pending[j]] == BatchStepResult(txs0[pending[j]], db.wallets, chain, j, now)
    {
      var confirmed := SyncStep(db, cfg, chain, now, txs0, pending, k, synced);
      if confirmed {
        synced := synced + 1;
      } else {
        failed := failed + 1;
      }
    }
    assert pending[..|pending|] == pending;
  }
}
