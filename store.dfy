/**
 * The relational store shared by all services, as one object whose fields are
 * its tables. Rows of the append-only tables are identified by position.
 */
module Store {
  import opened Wrappers
  import opened Schema
  import opened Ledger

  /** At most this many spend requests of one child may be PENDING at once. */
  const MAX_PENDING_REQUESTS: nat := 5

  /** The number of PENDING spend requests of child `c`. */
  function PendingCount(rs: seq<SpendRequest>, c: ChildId): (n: nat)
    ensures n <= |rs|
  {
    if |rs| == 0 then 0
    else PendingCount(rs[..|rs| - 1], c) +
         (if rs[|rs| - 1].childId == c && rs[|rs| - 1].status == RequestPending then 1 else 0)
  }

  lemma PendingCountAppend(rs: seq<SpendRequest>, r: SpendRequest, c: ChildId)
    ensures PendingCount(rs + [r], c) ==
              PendingCount(rs, c) + (if r.childId == c && r.status == RequestPending then 1 else 0)
  {
    assert (rs + [r])[..|rs|] == rs;
  }

  /**
   * Replacing one request by one of the same child that is PENDING only if the
   * old one was never raises any child's pending count.
   */
  lemma {:induction false} PendingCountUpdate(rs: seq<SpendRequest>, i: nat, r: SpendRequest, c: ChildId)
    requires i < |rs|
    requires r.childId == rs[i].childId
    requires r.status == RequestPending ==> rs[i].status == RequestPending
    ensures PendingCount(rs[i := r], c) <= PendingCount(rs, c)
  {
    var last := |rs| - 1;
    if i == last {
      assert rs[i := r][..last] == rs[..last];
    } else {
      assert rs[i := r][..last] == rs[..last][i := r];
      PendingCountUpdate(rs[..last], i, r, c);
    }
  }

  /** The position of the wallet row of `owner`, if there is one. */
  function FindWallet(ws: seq<Wallet>, owner: Owner): (r: Option<nat>)
    ensures r.Some? ==> r.value < |ws| && ws[r.value].owner == owner
    ensures r.None? <==> forall i :: 0 <= i < |ws| ==> ws[i].owner != owner
  {
    if |ws| == 0 then None
    else if ws[|ws| - 1].owner == owner then Some(|ws| - 1)
    else FindWallet(ws[..|ws| - 1], owner)
  }

  /** No owner has two wallet rows (the unique owner columns of the wallet table). */
  predicate OwnersUnique(ws: seq<Wallet>)
  {
    forall i, j :: 0 <= i < j < |ws| ==> ws[i].owner != ws[j].owner
  }

  predicate ChallengeIdsUnique(cs: seq<Challenge>)
  {
    forall i, j :: 0 <= i < j < |cs| ==> cs[i].id != cs[j].id
  }

  /** Every challenge progress row names an existing child. */
  predicate ProgressChildrenKnown(cs: seq<Challenge>, childCount: nat)
  {
    forall i, k :: 0 <= i < |cs| && 0 <= k < |cs[i].progress| ==> cs[i].progress[k].childId < childCount
  }

  /** The invariant of the tables other than the ledger, for a store holding `childCount` children. */
  predicate TablesValid(spendRequests: seq<SpendRequest>, lessons: map<LessonId, Lesson>, wallets: seq<Wallet>,
                        challenges: seq<Challenge>, nextChallengeId: nat, childCount: nat)
  {
    && (forall r :: 0 <= r < |spendRequests| ==> spendRequests[r].childId < childCount)
    && (forall c :: 0 <= c < childCount ==> PendingCount(spendRequests, c) <= MAX_PENDING_REQUESTS)
    && (forall l :: l in lessons ==> lessons[l].tokenReward >= 0)
    && OwnersUnique(wallets)
    && (forall i :: 0 <= i < |challenges| ==> challenges[i].id < nextChallengeId)
    && ChallengeIdsUnique(challenges)
    && ProgressChildrenKnown(challenges, childCount)
  }

  /** Removing one challenge row keeps the table invariant. */
  lemma RemoveChallengeKeepsTables(spendRequests: seq<SpendRequest>, lessons: map<LessonId, Lesson>, wallets: seq<Wallet>,
                                   challenges: seq<Challenge>, nextChallengeId: nat, childCount: nat, k: nat)
    requires TablesValid(spendRequests, lessons, wallets, challenges, nextChallengeId, childCount)
    requires k < |challenges|
    ensures TablesValid(spendRequests, lessons, wallets, challenges[..k] + challenges[k + 1..], nextChallengeId, childCount)
  {
    var cs := challenges[..k] + challenges[k + 1..];
    assert forall i :: 0 <= i < |cs| ==> cs[i] == challenges[if i < k then i else i + 1];
  }

  class Database {
    var children: seq<Child>
    var familyNames: map<FamilyId, string>
    var categories: map<CategoryId, Category>
    var lessons: map<LessonId, Lesson>
    var progress: map<(ChildId, LessonId), LessonProgress>
    var transactions: seq<TokenTx>
    var spendRequests: seq<SpendRequest>
    var wallets: seq<Wallet>
    var challenges: seq<Challenge>
    var nextChallengeId: nat

    /** The invariant every service operation keeps. */
    ghost predicate Valid()
      reads this
    {
      && LedgerValid(children, transactions)
      && TablesValid(spendRequests, lessons, wallets, challenges, nextChallengeId, |children|)
    }

    /** An empty store over the given families, categories and lessons (the static content). */
    constructor (familyNames: map<FamilyId, string>, categories: map<CategoryId, Category>, lessons: map<LessonId, Lesson>)
      requires forall l :: l in lessons ==> lessons[l].tokenReward >= 0
      ensures Valid()
      ensures this.familyNames == familyNames && this.categories == categories && this.lessons == lessons
      ensures children == [] && progress == map[] && transactions == [] && spendRequests == []
      ensures wallets == [] && challenges == [] && nextChallengeId == 0
    {
      children := [];
      this.familyNames := familyNames;
      this.categories := categories;
      this.lessons := lessons;
      progress := map[];
      transactions := [];
      spendRequests := [];
      wallets := [];
      challenges := [];
      nextChallengeId := 0;
    }

    /**
     * Inserts a child profile with the column defaults: balance 0, nothing
     * earned today, the counter last reset today.
     */
    method AddChild(familyId: FamilyId, displayName: string, today: Day) returns (id: ChildId)
      requires Valid()
      modifies this`children
      ensures Valid()
      ensures id == |old(children)|
      ensures children == old(children) + [Child(familyId, displayName, 0, 0, today)]
    {
      id := |children|;
      var child := Child(familyId, displayName, 0, 0, today);
      NewChildPreservesValid(children, transactions, child);
      children := children + [child];
      forall c | 0 <= c < |children|
        ensures PendingCount(spendRequests, c) <= MAX_PENDING_REQUESTS
      {
        if c == id {
          NoPendingForNewChild(spendRequests, c);
        }
      }
    }
  }

  lemma {:induction false} NoPendingForNewChild(rs: seq<SpendRequest>, c: ChildId)
    requires forall r :: 0 <= r < |rs| ==> rs[r].childId < c
    ensures PendingCount(rs, c) == 0
  {
    if |rs| > 0 {
      NoPendingForNewChild(rs[..|rs| - 1], c);
    }
  }
}
