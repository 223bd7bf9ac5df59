/**
 * The running-balance discipline of the token ledger. Entries of all children
 * share one table in creation order; each child's entries, read in that order,
 * form a chain in which every `balanceAfter` is the previous one plus the
 * entry's `amount`, starting from 0, and the child's cached `tokenBalance` is
 * the last `balanceAfter`.
 */
module Ledger {
  import opened Schema

  /** `balanceAfter` of child `c`'s newest entry, or 0 when it has none. */
  function LastBalance(txs: seq<TokenTx>, c: ChildId): int
  {
    if |txs| == 0 then 0
    else if txs[|txs| - 1].childId == c then txs[|txs| - 1].balanceAfter
    else LastBalance(txs[..|txs| - 1], c)
  }

  /** The sum of the amounts of child `c`'s entries. */
  function AmountSum(txs: seq<TokenTx>, c: ChildId): int
  {
    if |txs| == 0 then 0
    else AmountSum(txs[..|txs| - 1], c) + (if txs[|txs| - 1].childId == c then txs[|txs| - 1].amount else 0)
  }

  /** Every entry of child `c` continues the running total of the entries of `c` before it. */
  predicate Chained(txs: seq<TokenTx>, c: ChildId)
  {
    |txs| == 0 ||
    (Chained(txs[..|txs| - 1], c) &&
     (txs[|txs| - 1].childId == c ==>
        txs[|txs| - 1].balanceAfter == LastBalance(txs[..|txs| - 1], c) + txs[|txs| - 1].amount))
  }

  /** Child `c`'s account agrees with its ledger, and its daily counter is within the cap. */
  predicate AccountValid(child: Child, txs: seq<TokenTx>, c: ChildId)
  {
    && child.tokenBalance == LastBalance(txs, c)
    && Chained(txs, c)
    && 0 <= child.dailyTokensEarned <= TOKEN_DAILY_CAP
  }

  /** The ledger invariant over the child table and the transaction table. */
  predicate LedgerValid(children: seq<Child>, txs: seq<TokenTx>)
  {
    && (forall i :: 0 <= i < |txs| ==> txs[i].childId < |children| && txs[i].balanceAfter >= 0)
    && (forall c :: 0 <= c < |children| ==> AccountValid(children[c], txs, c))
  }

  /** The two tables agree on every ledger column; only blockchain columns may differ. */
  predicate SameLedger(a: seq<TokenTx>, b: seq<TokenTx>)
  {
    && |a| == |b|
    && forall i :: 0 <= i < |a| ==>
         a[i].childId == b[i].childId && a[i].amount == b[i].amount && a[i].balanceAfter == b[i].balanceAfter
  }

  lemma {:induction false} LastBalanceNonNegative(txs: seq<TokenTx>, c: ChildId)
    requires forall i :: 0 <= i < |txs| ==> txs[i].balanceAfter >= 0
    ensures LastBalance(txs, c) >= 0
  {
    if |txs| > 0 && txs[|txs| - 1].childId != c {
      LastBalanceNonNegative(txs[..|txs| - 1], c);
    }
  }

  /** A chained ledger's last balance is the sum of all its amounts. */
  lemma {:induction false} ChainedSum(txs: seq<TokenTx>, c: ChildId)
    requires Chained(txs, c)
    ensures LastBalance(txs, c) == AmountSum(txs, c)
  {
    if |txs| > 0 {
      ChainedSum(txs[..|txs| - 1], c);
    }
  }

  lemma {:induction false} ChainedPrefix(txs: seq<TokenTx>, c: ChildId, k: nat)
    requires Chained(txs, c)
    requires k <= |txs|
    ensures Chained(txs[..k], c)
  {
    if k < |txs| {
      assert txs[..|txs| - 1][..k] == txs[..k];
      ChainedPrefix(txs[..|txs| - 1], c, k);
    } else {
      assert txs[..k] == txs;
    }
  }

  /** Each entry's `balanceAfter` is the sum of the amounts up to and including it. */
  lemma PrefixSum(txs: seq<TokenTx>, c: ChildId, i: nat)
    requires Chained(txs, c)
    requires i < |txs| && txs[i].childId == c
    ensures txs[i].balanceAfter == AmountSum(txs[..i + 1], c)
  {
    ChainedPrefix(txs, c, i + 1);
    ChainedSum(txs[..i + 1], c);
    assert txs[..i + 1][i] == txs[i];
  }

  /** What appending one entry does to the three ledger views of child `c`. */
  lemma AppendEntry(txs: seq<TokenTx>, e: TokenTx, c: ChildId)
    ensures LastBalance(txs + [e], c) == if e.childId == c then e.balanceAfter else LastBalance(txs, c)
    ensures AmountSum(txs + [e], c) == AmountSum(txs, c) + (if e.childId == c then e.amount else 0)
    ensures Chained(txs + [e], c) <==>
              Chained(txs, c) && (e.childId == c ==> e.balanceAfter == LastBalance(txs, c) + e.amount)
  {
    assert (txs + [e])[..|txs|] == txs;
  }

  /** Rewriting blockchain columns leaves every child's ledger view as it was. */
  lemma {:induction false} SameLedgerViews(a: seq<TokenTx>, b: seq<TokenTx>, c: ChildId)
    requires SameLedger(a, b)
    ensures LastBalance(a, c) == LastBalance(b, c)
    ensures AmountSum(a, c) == AmountSum(b, c)
    ensures Chained(a, c) == Chained(b, c)
  {
    if |a| > 0 {
      SameLedgerViews(a[..|a| - 1], b[..|b| - 1], c);
    }
  }

  lemma SameLedgerPreservesValid(children: seq<Child>, a: seq<TokenTx>, b: seq<TokenTx>)
    requires LedgerValid(children, a)
    requires SameLedger(a, b)
    ensures LedgerValid(children, b)
  {
    forall c | 0 <= c < |children|
      ensures AccountValid(children[c], b, c)
    {
      SameLedgerViews(a, b, c);
    }
  }

  /** The key invariant: a child's balance is its last `balanceAfter`, the sum of its amounts, and never negative. */
  lemma BalanceFacts(children: seq<Child>, txs: seq<TokenTx>, c: ChildId)
    requires LedgerValid(children, txs)
    requires c < |children|
    ensures children[c].tokenBalance == LastBalance(txs, c)
    ensures children[c].tokenBalance == AmountSum(txs, c)
    ensures children[c].tokenBalance >= 0
  {
    assert AccountValid(children[c], txs, c);
    ChainedSum(txs, c);
    LastBalanceNonNegative(txs, c);
  }

  /**
   * Appending an entry for child `c` whose `balanceAfter` is the old balance
   * plus its amount, non-negative, while the account takes that balance,
   * keeps the ledger valid.
   */
  lemma AppendPreservesValid(children: seq<Child>, txs: seq<TokenTx>, e: TokenTx, account: Child)
    requires LedgerValid(children, txs)
    requires e.childId < |children|
    requires e.balanceAfter == children[e.childId].tokenBalance + e.amount
    requires e.balanceAfter >= 0
    requires account.tokenBalance == e.balanceAfter
    requires 0 <= account.dailyTokensEarned <= TOKEN_DAILY_CAP
    ensures LedgerValid(children[e.childId := account], txs + [e])
  {
    var children' := children[e.childId := account];
    var txs' := txs + [e];
    forall c | 0 <= c < |children'|
      ensures AccountValid(children'[c], txs', c)
    {
      AppendEntry(txs, e, c);
      assert AccountValid(children[c], txs, c);
    }
    forall i | 0 <= i < |txs'|
      ensures txs'[i].childId < |children'| && txs'[i].balanceAfter >= 0
    {
      if i < |txs| { assert txs'[i] == txs[i]; }
    }
  }

  /** Changing an account without changing its balance keeps the ledger valid. */
  lemma UpdateAccountPreservesValid(children: seq<Child>, txs: seq<TokenTx>, c: ChildId, account: Child)
    requires LedgerValid(children, txs)
    requires c < |children|
    requires account.tokenBalance == children[c].tokenBalance
    requires 0 <= account.dailyTokensEarned <= TOKEN_DAILY_CAP
    ensures LedgerValid(children[c := account], txs)
  {
    var children' := children[c := account];
    forall d | 0 <= d < |children'|
      ensures AccountValid(children'[d], txs, d)
    {
      assert AccountValid(children[d], txs, d);
    }
  }

  lemma {:induction false} NoEntriesView(txs: seq<TokenTx>, c: ChildId)
    requires forall i :: 0 <= i < |txs| ==> txs[i].childId != c
    ensures LastBalance(txs, c) == 0 && AmountSum(txs, c) == 0 && Chained(txs, c)
  {
    if |txs| > 0 {
      NoEntriesView(txs[..|txs| - 1], c);
    }
  }

  /** A new child, starting at balance 0 with no entries, keeps the ledger valid. */
  lemma NewChildPreservesValid(children: seq<Child>, txs: seq<TokenTx>, account: Child)
    requires LedgerValid(children, txs)
    requires account.tokenBalance == 0
    requires 0 <= account.dailyTokensEarned <= TOKEN_DAILY_CAP
    ensures LedgerValid(children + [account], txs)
  {
    var children' := children + [account];
    forall c | 0 <= c < |children'|
      ensures AccountValid(children'[c], txs, c)
    {
      if c < |children| {
        assert children'[c] == children[c];
        assert AccountValid(children[c], txs, c);
      } else {
        NoEntriesView(txs, c);
      }
    }
  }
}
