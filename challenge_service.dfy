/**
 * Family challenges: creating one enrols every current child of the family,
 * deleting one takes its progress rows with it, and the parent and child
 * listings attach category names and per-child progress.
 */
module ChallengeService {
  import opened Wrappers
  import opened Schema
  import opened Store

  /** Reward of a challenge created without one. */
  const DEFAULT_CHALLENGE_REWARD: int := 50

  /**
   * The validated body of a new challenge. The end date arrives as text;
   * `endsAt` is the instant it parses to, or None when it is no date at all.
   */
  datatype CreateChallengeInput = CreateChallengeInput(
    title: string,
    description: Option<string>,
    tokenReward: Option<int>,
    requiredLessons: int,
    categoryId: Option<CategoryId>,
    endsAt: Option<Time>)

  const END_IN_PAST: string := "End date must be in the future"
  /** The insert's rejection of an end date that is no date; the database's own message is not modelled. */
  const INVALID_END_DATE: string := "Invalid end date"

  /** A child's progress on a challenge, with the child's display name. */
  datatype ProgressView = ProgressView(childId: ChildId, childName: string, lessonsCompleted: nat,
                                       completed: bool, completedAt: Option<Time>)

  /** A challenge as the parent sees it. */
  datatype ChallengeView = ChallengeView(
    id: ChallengeId,
    familyId: FamilyId,
    title: string,
    description: Option<string>,
    tokenReward: int,
    requiredLessons: int,
    categoryId: Option<CategoryId>,
    categoryName: Option<string>,
    status: ChallengeStatus,
    startsAt: Time,
    endsAt: Time,
    createdAt: Time,
    progress: seq<ProgressView>)

  /** A challenge as a child sees it: only the child's own progress, with defaults when there is none. */
  datatype ChildChallengeView = ChildChallengeView(
    id: ChallengeId,
    title: string,
    description: Option<string>,
    tokenReward: int,
    requiredLessons: int,
    categoryName: Option<string>,
    endsAt: Time,
    lessonsCompleted: nat,
    completed: bool,
    completedAt: Option<Time>)

  /** The children among the first `n` that belong to the family, in table order. */
  function FamilyMembers(children: seq<Child>, familyId: FamilyId, n: nat): (ids: seq<ChildId>)
    requires n <= |children|
    ensures forall k :: 0 <= k < |ids| ==> ids[k] < n && children[ids[k]].familyId == familyId
    ensures forall c :: 0 <= c < n && children[c].familyId == familyId ==> c in ids
    ensures forall p, q :: 0 <= p < q < |ids| ==> ids[p] < ids[q]
  {
    if n == 0 then []
    else
      var init := FamilyMembers(children, familyId, n - 1);
      if children[n - 1].familyId == familyId then
        var ids := init + [n - 1];
        assert forall k :: 0 <= k < |init| ==> ids[k] == init[k];
        ids
      else init
  }

  /** A fresh progress row per family member: no lessons, not completed. */
  function Enrollment(children: seq<Child>, familyId: FamilyId): (rows: seq<ChallengeProgress>)
    ensures var members := FamilyMembers(children, familyId, |children|);
            && |rows| == |members|
            && forall k :: 0 <= k < |rows| ==> rows[k] == ChallengeProgress(members[k], 0, false, None)
  {
    var members := FamilyMembers(children, familyId, |children|);
    seq(|members|, k requires 0 <= k < |members| => ChallengeProgress(members[k], 0, false, None))
  }

  /** Every current child of the family has exactly one row, and nobody else has any. */
  lemma EnrollmentExact(children: seq<Child>, familyId: FamilyId, c: ChildId)
    ensures var rows := Enrollment(children, familyId);
            && ((exists k :: 0 <= k < |rows| && rows[k].childId == c) <==> c < |children| && children[c].familyId == familyId)
            && forall p, q :: 0 <= p < q < |rows| ==> rows[p].childId != rows[q].childId
  {
    var rows := Enrollment(children, familyId);
    var members := FamilyMembers(children, familyId, |children|);
    if c < |children| && children[c].familyId == familyId {
      var k :| 0 <= k < |members| && members[k] == c;
      assert rows[k].childId == c;
    }
  }

  /** The name of a challenge's category: none without a category, else the looked-up name if it exists. */
  function CategoryName(categories: map<CategoryId, Category>, categoryId: Option<CategoryId>): (r: Option<string>)
    ensures categoryId.None? ==> r.None?
    ensures categoryId.Some? && categoryId.value in categories ==> r == Some(categories[categoryId.value].name)
    ensures categoryId.Some? && categoryId.value !in categories ==> r.None?
  {
    match categoryId
    case None => None
    case Some(id) => if id in categories then Some(categories[id].name) else None
  }

  /** A child's display name; in a valid store every progress row names an existing child. */
  function ChildName(children: seq<Child>, c: ChildId): string
  {
    if c < |children| then children[c].displayName else ""
  }

  function ProgressViews(children: seq<Child>, rows: seq<ChallengeProgress>): (r: seq<ProgressView>)
    ensures |r| == |rows|
    ensures forall k :: 0 <= k < |rows| ==>
              r[k] == ProgressView(rows[k].childId, ChildName(children, rows[k].childId),
                                   rows[k].lessonsCompleted, rows[k].completed, rows[k].completedAt)
  {
    seq(|rows|, k requires 0 <= k < |rows| =>
      ProgressView(rows[k].childId, ChildName(children, rows[k].childId),
                   rows[k].lessonsCompleted, rows[k].completed, rows[k].completedAt))
  }

  /** The position of challenge `id` if it belongs to family `familyId`. */
  function FindChallenge(cs: seq<Challenge>, id: ChallengeId, familyId: FamilyId): (r: Option<nat>)
    ensures r.Some? ==> r.value < |cs| && cs[r.value].id == id && cs[r.value].familyId == familyId
    ensures r.None? <==> forall i :: 0 <= i < |cs| ==> !(cs[i].id == id && cs[i].familyId == familyId)
  {
    if |cs| == 0 then None
    else if cs[|cs| - 1].id == id && cs[|cs| - 1].familyId == familyId then Some(|cs| - 1)
    else FindChallenge(cs[..|cs| - 1], id, familyId)
  }

  /**
   * Creates a challenge for family `familyId` at instant `now`: the end must
   * lie in the future and a given category must exist; an end date that is
   * no date passes the first check and fails at the insert. The challenge starts
   * ACTIVE at `now`, and every current child of the family is enrolled. The
   * returned view carries no category name.
   */
  method CreateChallenge(db: Database, familyId: FamilyId, input: CreateChallengeInput, now: Time)
    returns (r: Result<ChallengeView>)
    requires db.Valid()
    modifies db`challenges, db`nextChallengeId
    ensures db.Valid()
    ensures input.endsAt.Some? && input.endsAt.value <= now ==> r == Err(END_IN_PAST)
    ensures !(input.endsAt.Some? && input.endsAt.value <= now) &&
            input.categoryId.Some? && input.categoryId.value !in db.categories ==>
              r == Err("Category not found")
    ensures input.endsAt.None? && (input.categoryId.Some? ==> input.categoryId.value in db.categories) ==>
              r == Err(INVALID_END_DATE)
    ensures r.Ok? <==>
              && input.endsAt.Some? && input.endsAt.value > now
              && (input.categoryId.Some? ==> input.categoryId.value in db.categories)
    ensures r.Err? ==> db.challenges == old(db.challenges) && db.nextChallengeId == old(db.nextChallengeId)
    ensures r.Ok? ==>
              var rows := Enrollment(db.children, familyId);
              var c := Challenge(old(db.nextChallengeId), familyId, input.title, input.description,
                                 input.tokenReward.GetOr(DEFAULT_CHALLENGE_REWARD), input.requiredLessons,
                                 input.categoryId, Active, now, input.endsAt.value, now, rows);
              && db.challenges == old(db.challenges) + [c]
              && db.nextChallengeId == old(db.nextChallengeId) + 1
              && r.value == ChallengeView(c.id, familyId, c.title, c.description, c.tokenReward, c.requiredLessons,
                                          c.categoryId, None, Active, now, c.endsAt, now,
                                          ProgressViews(db.children, rows))
  {
    // an end date that is no date compares false with now, so only the insert rejects it
    if input.endsAt.Some? && input.endsAt.value <= now {
      return Err(END_IN_PAST);
    }
    if input.categoryId.Some? && input.categoryId.value !in db.categories {
      return Err("Category not found");
    }
    if input.endsAt.None? {
      return Err(INVALID_END_DATE);
    }
    var endsAt := input.endsAt.value;
    var rows := Enrollment(db.children, familyId);
    var c := Challenge(db.nextChallengeId, familyId, input.title, input.description,
                       input.tokenReward.GetOr(DEFAULT_CHALLENGE_REWARD), input.requiredLessons,
                       input.categoryId, Active, now, endsAt, now, rows);
    db.challenges := db.challenges + [c];
    db.nextChallengeId := db.nextChallengeId + 1;
    r := Ok(ChallengeView(c.id, familyId, c.title, c.description, c.tokenReward, c.requiredLessons,
                          c.categoryId, None, Active, now, endsAt, now, ProgressViews(db.children, rows)));
  }

  /** Deletes challenge `challengeId` of family `familyId`, and its progress rows with it. */
  method DeleteChallenge(db: Database, challengeId: ChallengeId, familyId: FamilyId) returns (r: Result<bool>)
    requires db.Valid()
    modifies db`challenges
    ensures db.Valid()
    ensures r.Err? <==> FindChallenge(old(db.challenges), challengeId, familyId).None?
    ensures r.Err? ==> r.message == "Challenge not found" && db.challenges == old(db.challenges)
    ensures r.Ok? ==>
              var k := FindChallenge(old(db.challenges), challengeId, familyId).value;
              && r.value
              && db.challenges == old(db.challenges)[..k] + old(db.challenges)[k + 1..]
              && forall i :: 0 <= i < |db.challenges| ==> db.challenges[i].id != challengeId
  {
    var found := FindChallenge(db.challenges, challengeId, familyId);
    if found.None? {
      return Err("Challenge not found");
    }
    var k := found.value;
    ghost var cs := db.challenges;
    RemoveChallengeKeepsTables(db.spendRequests, db.lessons, db.wallets, cs, db.nextChallengeId, |db.children|, k);
    db.challenges := db.challenges[..k] + db.challenges[k + 1..];
    forall i | 0 <= i < |db.challenges|
      ensures db.challenges[i].id != challengeId
    {
      if i < k {
        assert db.challenges[i] == cs[i];
      } else {
        assert db.challenges[i] == cs[i + 1];
      }
    }
    r := Ok(true);
  }

  /** An ordering key compared lexicographically. */
  datatype SortKey = SortKey(major: int, minor: int)

  predicate KeyLe(a: SortKey, b: SortKey)
  {
    a.major < b.major || (a.major == b.major && a.minor <= b.minor)
  }

  predicate SortedBy(s: seq<Challenge>, key: Challenge -> SortKey)
  {
    forall p, q :: 0 <= p < q < |s| ==> KeyLe(key(s[p]), key(s[q]))
  }

  /** `x` inserted before the first row it does not come after. */
  function InsertBy(x: Challenge, s: seq<Challenge>, key: Challenge -> SortKey): (r: seq<Challenge>)
    ensures |r| == |s| + 1
    ensures multiset(r) == multiset(s) + multiset{x}
  {
    if |s| == 0 then [x]
    else if KeyLe(key(x), key(s[0])) then [x] + s
    else
      assert s == [s[0]] + s[1..];
      [s[0]] + InsertBy(x, s[1..], key)
  }

  lemma {:induction false} InsertBySorted(x: Challenge, s: seq<Challenge>, key: Challenge -> SortKey)
    requires SortedBy(s, key)
    ensures SortedBy(InsertBy(x, s, key), key)
  {
    if |s| > 0 && !KeyLe(key(x), key(s[0])) {
      InsertBySorted(x, s[1..], key);
      var t := InsertBy(x, s[1..], key);
      forall k | 0 <= k < |t|
        ensures KeyLe(key(s[0]), key(t[k]))
      {
        assert t[k] in multiset(t);
        if t[k] != x {
          assert t[k] in multiset(s[1..]);
          var j :| 0 <= j < |s[1..]| && s[1..][j] == t[k];
          assert s[j + 1] == t[k];
        }
      }
      var r := [s[0]] + t;
      assert forall p :: 0 < p < |r| ==> r[p] == t[p - 1];
    }
  }

  /** The rows ordered by `key`, rows with equal keys in their original order. */
  function SortBy(s: seq<Challenge>, key: Challenge -> SortKey): (r: seq<Challenge>)
    ensures |r| == |s|
    ensures multiset(r) == multiset(s)
  {
    if |s| == 0 then []
    else
      assert s == [s[0]] + s[1..];
      InsertBy(s[0], SortBy(s[1..], key), key)
  }

  lemma {:induction false} SortBySorted(s: seq<Challenge>, key: Challenge -> SortKey)
    ensures SortedBy(SortBy(s, key), key)
  {
    if |s| > 0 {
      SortBySorted(s[1..], key);
      InsertBySorted(s[0], SortBy(s[1..], key), key);
    }
  }

  /** The challenges of one family, in table order. */
  function OfFamily(cs: seq<Challenge>, familyId: FamilyId): (r: seq<Challenge>)
    ensures forall k :: 0 <= k < |r| ==> r[k].familyId == familyId && r[k] in cs
    ensures forall c :: c in cs && c.familyId == familyId ==> c in r
    ensures multiset(r) <= multiset(cs)
  {
    if |cs| == 0 then []
    else
      var init := OfFamily(cs[..|cs| - 1], familyId);
      assert cs == cs[..|cs| - 1] + [cs[|cs| - 1]];
      if cs[|cs| - 1].familyId == familyId then init + [cs[|cs| - 1]] else init
  }

  /** The family's listing holds each of its challenges exactly as often as the table does, and no other. */
  lemma {:induction false} OfFamilyCount(cs: seq<Challenge>, familyId: FamilyId, c: Challenge)
    ensures multiset(OfFamily(cs, familyId))[c] == if c.familyId == familyId then multiset(cs)[c] else 0
  {
    if |cs| > 0 {
      var init, last := cs[..|cs| - 1], cs[|cs| - 1];
      OfFamilyCount(init, familyId, c);
      assert cs == init + [last];
      assert multiset(cs)[c] == multiset(init)[c] + multiset([last])[c];
      if last.familyId == familyId {
        assert OfFamily(cs, familyId) == OfFamily(init, familyId) + [last];
        assert multiset(OfFamily(cs, familyId))[c] == multiset(OfFamily(init, familyId))[c] + multiset([last])[c];
      } else {
        assert OfFamily(cs, familyId) == OfFamily(init, familyId);
        assert multiset([last])[c] == 0 || c.familyId != familyId;
      }
    }
  }

  /** The ACTIVE challenges of one family, in table order. */
  function ActiveOfFamily(cs: seq<Challenge>, familyId: FamilyId): (r: seq<Challenge>)
    ensures forall k :: 0 <= k < |r| ==> r[k].familyId == familyId && r[k].status == Active && r[k] in cs
    ensures forall c :: c in cs && c.familyId == familyId && c.status == Active ==> c in r
  {
    if |cs| == 0 then []
    else
      var init := ActiveOfFamily(cs[..|cs| - 1], familyId);
      var c := cs[|cs| - 1];
      if c.familyId == familyId && c.status == Active then init + [c] else init
  }

  function StatusRank(s: ChallengeStatus): int
  {
    match s
    case Active => 0
    case Completed => 1
    case Expired => 2
  }

  /** The parent listing's order: by status (ACTIVE, COMPLETED, EXPIRED), newest first within a status. */
  function ParentKey(c: Challenge): SortKey
  {
    SortKey(StatusRank(c.status), -(c.createdAt as int))
  }

  /** The child listing's order: the earliest end first. */
  function ChildKey(c: Challenge): SortKey
  {
    SortKey(c.endsAt, 0)
  }

  /** The parent key orders by status, ACTIVE first, then by creation instant, newest first. */
  lemma ParentKeyOrder(a: Challenge, b: Challenge)
    ensures KeyLe(ParentKey(a), ParentKey(b)) <==>
              || StatusRank(a.status) < StatusRank(b.status)
              || (a.status == b.status && a.createdAt >= b.createdAt)
    ensures a.status == Active && b.status != Active ==> KeyLe(ParentKey(a), ParentKey(b)) && !KeyLe(ParentKey(b), ParentKey(a))
  {
  }

  /** The child key orders by end instant alone, earliest first. */
  lemma ChildKeyOrder(a: Challenge, b: Challenge)
    ensures KeyLe(ChildKey(a), ChildKey(b)) <==> a.endsAt <= b.endsAt
  {
  }

  function ParentView(db: Database, c: Challenge): (v: ChallengeView)
    reads db
    ensures v.id == c.id && v.categoryName == CategoryName(db.categories, c.categoryId)
    ensures v.progress == ProgressViews(db.children, c.progress)
  {
    ChallengeView(c.id, c.familyId, c.title, c.description, c.tokenReward, c.requiredLessons, c.categoryId,
                  CategoryName(db.categories, c.categoryId), c.status, c.startsAt, c.endsAt, c.createdAt,
                  ProgressViews(db.children, c.progress))
  }

  /**
   * The family's challenges for the parent: by status, newest first within
   * a status, each with its category name and every enrolled child's progress.
   */
  function GetChallenges(db: Database, familyId: FamilyId): (r: seq<ChallengeView>)
    reads db
    ensures var sorted := SortBy(OfFamily(db.challenges, familyId), ParentKey);
            && |r| == |sorted|
            && forall k :: 0 <= k < |r| ==> r[k] == ParentView(db, sorted[k])
  {
    var sorted := SortBy(OfFamily(db.challenges, familyId), ParentKey);
    seq(|sorted|, k requires 0 <= k < |sorted| reads db => ParentView(db, sorted[k]))
  }

  /** The parent listing shows every challenge of the family exactly as often as it is stored, in listing order. */
  lemma GetChallengesComplete(db: Database, familyId: FamilyId)
    ensures var sorted := SortBy(OfFamily(db.challenges, familyId), ParentKey);
            && multiset(sorted) == multiset(OfFamily(db.challenges, familyId))
            && (forall c :: multiset(sorted)[c] == if c.familyId == familyId then multiset(db.challenges)[c] else 0)
            && SortedBy(sorted, ParentKey)
            && (forall k :: 0 <= k < |sorted| ==> sorted[k].familyId == familyId)
            && forall c :: c in db.challenges && c.familyId == familyId ==> c in sorted
  {
    SortBySorted(OfFamily(db.challenges, familyId), ParentKey);
    var sorted := SortBy(OfFamily(db.challenges, familyId), ParentKey);
    forall k | 0 <= k < |sorted|
      ensures sorted[k].familyId == familyId
    {
      assert sorted[k] in multiset(OfFamily(db.challenges, familyId));
    }
    forall c | c in db.challenges && c.familyId == familyId
      ensures c in sorted
    {
      assert c in multiset(sorted);
    }
    forall c
      ensures multiset(sorted)[c] == if c.familyId == familyId then multiset(db.challenges)[c] else 0
    {
      OfFamilyCount(db.challenges, familyId, c);
    }
  }

  /** The child's own progress row on `c`, the first one when the child has any. */
  function OwnProgress(rows: seq<ChallengeProgress>, childId: ChildId): (r: Option<ChallengeProgress>)
    ensures r.None? <==> forall k :: 0 <= k < |rows| ==> rows[k].childId != childId
    ensures r.Some? ==> r.value in rows && r.value.childId == childId
  {
    if |rows| == 0 then None
    else if rows[0].childId == childId then Some(rows[0])
    else OwnProgress(rows[1..], childId)
  }

  function ChildView(db: Database, c: Challenge, childId: ChildId): (v: ChildChallengeView)
    reads db
    ensures v.id == c.id && v.endsAt == c.endsAt && v.categoryName == CategoryName(db.categories, c.categoryId)
    ensures OwnProgress(c.progress, childId).None? ==> v.lessonsCompleted == 0 && !v.completed && v.completedAt.None?
    ensures OwnProgress(c.progress, childId).Some? ==>
              var p := OwnProgress(c.progress, childId).value;
              v.lessonsCompleted == p.lessonsCompleted && v.completed == p.completed && v.completedAt == p.completedAt
  {
    var p := OwnProgress(c.progress, childId);
    ChildChallengeView(c.id, c.title, c.description, c.tokenReward, c.requiredLessons,
                       CategoryName(db.categories, c.categoryId), c.endsAt,
                       if p.Some? then p.value.lessonsCompleted else 0,
                       if p.Some? then p.value.completed else false,
                       if p.Some? then p.value.completedAt else None)
  }

  /** The family's ACTIVE challenges for a child, the earliest end first, with the child's own progress. */
  function GetChildChallenges(db: Database, childId: ChildId, familyId: FamilyId): (r: seq<ChildChallengeView>)
    reads db
    ensures var sorted := SortBy(ActiveOfFamily(db.challenges, familyId), ChildKey);
            && |r| == |sorted|
            && forall k :: 0 <= k < |r| ==> r[k] == ChildView(db, sorted[k], childId)
  {
    var sorted := SortBy(ActiveOfFamily(db.challenges, familyId), ChildKey);
    seq(|sorted|, k requires 0 <= k < |sorted| reads db => ChildView(db, sorted[k], childId))
  }

  /** The child listing holds exactly the family's ACTIVE challenges, ordered by end instant. */
  lemma GetChildChallengesExact(db: Database, childId: ChildId, familyId: FamilyId)
    ensures var sorted := SortBy(ActiveOfFamily(db.challenges, familyId), ChildKey);
            && (forall p, q :: 0 <= p < q < |sorted| ==> sorted[p].endsAt <= sorted[q].endsAt)
            && (forall k :: 0 <= k < |sorted| ==> sorted[k].familyId == familyId && sorted[k].status == Active)
            && (forall c :: c in db.challenges && c.familyId == familyId && c.status == Active ==> c in sorted)
  {
    var active := ActiveOfFamily(db.challenges, familyId);
    SortBySorted(active, ChildKey);
    var sorted := SortBy(active, ChildKey);
    forall k | 0 <= k < |sorted|
      ensures sorted[k].familyId == familyId && sorted[k].status == Active
    {
      assert sorted[k] in multiset(active);
    }
    forall c | c in db.challenges && c.familyId == familyId && c.status == Active
      ensures c in sorted
    {
      assert c in multiset(sorted);
    }
  }
}
