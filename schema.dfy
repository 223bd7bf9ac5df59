/**
 * The rows of the relational store that the token economy reads and writes.
 * Identifiers are natural numbers; for the append-only tables a row's id is
 * its position in the table. Calendar days and instants are natural numbers.
 */
module Schema {
  import opened Wrappers

  /** Most tokens a child may earn from lessons in one calendar day. */
  const TOKEN_DAILY_CAP: int := 100

  type ChildId = nat
  type FamilyId = nat
  type LessonId = nat
  type CategoryId = nat
  type ChallengeId = nat
  type TxId = nat
  type RequestId = nat
  /** A calendar day number: day n + 1 is the day after day n. */
  type Day = nat
  /** An instant, in milliseconds. */
  type Time = nat
  type Address = string

  /**
   * The reference column of ledger entries and spend requests: a lesson's id
   * for lesson rewards, or the text a client supplied with a spend request.
   */
  datatype Reference = LessonRef(lessonId: LessonId) | ClientRef(text: string)

  /** A child profile: the account that owns a token balance. */
  datatype Child = Child(
    familyId: FamilyId,
    displayName: string,
    tokenBalance: int,
    dailyTokensEarned: int,
    lastTokenResetDay: Day)

  datatype LessonStatus = Draft | Published | Archived
  datatype Difficulty = Beginner | Intermediate | Advanced

  datatype Lesson = Lesson(
    categoryId: CategoryId,
    title: string,
    status: LessonStatus,
    difficulty: Difficulty,
    tokenReward: int)

  datatype Category = Category(name: string, color: Option<string>, sortOrder: int)

  /** A child's progress on one lesson (unique per child and lesson). */
  datatype LessonProgress = LessonProgress(
    started: bool,
    completed: bool,
    score: Option<int>,
    timeSpentSeconds: int,
    startedAt: Option<Time>,
    completedAt: Option<Time>)

  datatype TxType =
    | EarnLessonComplete
    | EarnChallengeComplete
    | EarnStreakBonus
    | SpendUnlockLesson
    | SpendUnlockContent
    | SpendJoinChallenge
    | AdminAdjustment

  datatype SyncStatus = SyncPending | SyncSubmitted | SyncConfirmed | SyncFailed

  /**
   * One ledger entry. The ledger columns (child, type, amount, balanceAfter,
   * description, reference) never change after creation; the blockchain
   * columns are rewritten by the chain reconciler. A status of None is the
   * NULL column: blockchain mirroring was off when the entry was written.
   */
  datatype TokenTx = TokenTx(
    childId: ChildId,
    txType: TxType,
    amount: int,
    balanceAfter: int,
    description: string,
    referenceId: Option<Reference>,
    createdAt: Time,
    syncStatus: Option<SyncStatus>,
    txHash: Option<string>,
    syncError: Option<string>,
    retryCount: nat,
    syncedAt: Option<Time>)

  datatype RequestStatus = RequestPending | Approved | Denied

  datatype SpendRequest = SpendRequest(
    childId: ChildId,
    amount: int,
    reason: string,
    referenceId: Option<Reference>,
    status: RequestStatus,
    reviewedAt: Option<Time>,
    createdAt: Time)

  datatype Owner = FamilyOwner(familyId: FamilyId) | ChildOwner(childId: ChildId)

  /** A custodial wallet: the public address and the encrypted private key. */
  datatype Wallet = Wallet(
    owner: Owner,
    address: Address,
    encryptedKey: string,
    encryptionIV: string,
    encryptionTag: string)

  datatype ChallengeStatus = Active | Completed | Expired

  datatype ChallengeProgress = ChallengeProgress(
    childId: ChildId,
    lessonsCompleted: nat,
    completed: bool,
    completedAt: Option<Time>)

  /** A family challenge; its progress rows are stored with it and go with it. */
  datatype Challenge = Challenge(
    id: ChallengeId,
    familyId: FamilyId,
    title: string,
    description: Option<string>,
    tokenReward: int,
    requiredLessons: int,
    categoryId: Option<CategoryId>,
    status: ChallengeStatus,
    startsAt: Time,
    endsAt: Time,
    createdAt: Time,
    progress: seq<ChallengeProgress>)
}
