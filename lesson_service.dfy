/**
 * Lesson completion: the reward calculator with its daily cap, and the
 * progress and ledger writes that completing or opening a lesson makes.
 */
module LessonService {
  import opened Wrappers
  import opened Schema
  import opened Ledger
  import opened Store
  import BlockchainService

  /** Whether `today` is a later calendar day than the one the counter was last reset on. */
  predicate IsNewDay(today: Day, lastReset: Day)
  {
    today > lastReset
  }

  /** What the child has earned today: nothing yet on a new day, else the stored counter. */
  function EffectiveDailyEarned(child: Child, today: Day): (r: int)
    ensures r == 0 || r == child.dailyTokensEarned
    ensures 0 <= child.dailyTokensEarned <= TOKEN_DAILY_CAP ==> 0 <= r <= TOKEN_DAILY_CAP
  {
    if IsNewDay(today, child.lastTokenResetDay) then 0 else child.dailyTokensEarned
  }

  /**
   * The tokens a lesson worth `reward` awards to a child who has earned
   * `dailyEarned` today: the smaller of the reward and what is left under the
   * cap. There is no lower clamp at 0.
   */
  function Award(reward: int, dailyEarned: int): (r: int)
    ensures r <= reward && r <= TOKEN_DAILY_CAP - dailyEarned
    ensures r == reward || r == TOKEN_DAILY_CAP - dailyEarned
  {
    var maxEarnable := TOKEN_DAILY_CAP - dailyEarned;
    if reward < maxEarnable then reward else maxEarnable
  }

  /** With a non-negative reward and a counter within the cap, the award is never negative. */
  lemma AwardNonNegative(reward: int, dailyEarned: int)
    requires reward >= 0 && dailyEarned <= TOKEN_DAILY_CAP
    ensures 0 <= Award(reward, dailyEarned) <= reward
    ensures dailyEarned + Award(reward, dailyEarned) <= TOKEN_DAILY_CAP
  {
  }

  /** Without the cap invariant the award can be negative: a counter above the cap takes tokens away. */
  lemma AwardBelowZeroOverCap()
    ensures Award(10, TOKEN_DAILY_CAP + 5) == -5
  {
  }

  /** The account after a lesson worth `reward` is settled on day `today`, and the award. */
  datatype Settlement = Settlement(award: int, account: Child)

  function Settle(child: Child, reward: int, today: Day): (s: Settlement)
    ensures s.award == Award(reward, EffectiveDailyEarned(child, today))
    ensures s.account.tokenBalance == child.tokenBalance + s.award
    ensures s.account.dailyTokensEarned == EffectiveDailyEarned(child, today) + s.award
    ensures s.account.lastTokenResetDay == if today > child.lastTokenResetDay then today else child.lastTokenResetDay
    ensures s.account.familyId == child.familyId && s.account.displayName == child.displayName
  {
    var daily := EffectiveDailyEarned(child, today);
    var award := Award(reward, daily);
    Settlement(award, child.(
      tokenBalance := child.tokenBalance + award,
      dailyTokensEarned := daily + award,
      lastTokenResetDay := if IsNewDay(today, child.lastTokenResetDay) then today else child.lastTokenResetDay))
  }

  /** Settling keeps the counter within the cap and never lowers the balance. */
  lemma SettleKeepsCap(child: Child, reward: int, today: Day)
    requires reward >= 0
    requires 0 <= child.dailyTokensEarned <= TOKEN_DAILY_CAP
    ensures 0 <= Settle(child, reward, today).award <= reward
    ensures 0 <= Settle(child, reward, today).account.dailyTokensEarned <= TOKEN_DAILY_CAP
    ensures Settle(child, reward, today).account.tokenBalance >= child.tokenBalance
  {
    AwardNonNegative(reward, EffectiveDailyEarned(child, today));
  }

  /** On a new day the counter starts again: the award is capped only by the full daily allowance. */
  lemma NewDayResetsCounter(child: Child, reward: int, today: Day)
    requires today > child.lastTokenResetDay
    ensures Settle(child, reward, today).award == (if reward < TOKEN_DAILY_CAP then reward else TOKEN_DAILY_CAP)
    ensures Settle(child, reward, today).account.dailyTokensEarned == Settle(child, reward, today).award
    ensures Settle(child, reward, today).account.lastTokenResetDay == today
  {
  }

  /** On the same day, a reward at least as large as what is left under the cap fills the cap exactly. */
  lemma SameDayHitsCap(child: Child, reward: int, today: Day)
    requires today <= child.lastTokenResetDay
    requires reward >= TOKEN_DAILY_CAP - child.dailyTokensEarned
    ensures Settle(child, reward, today).award == TOKEN_DAILY_CAP - child.dailyTokensEarned
    ensures Settle(child, reward, today).account.dailyTokensEarned == TOKEN_DAILY_CAP
    ensures Settle(child, reward, today).account.lastTokenResetDay == child.lastTokenResetDay
  {
  }

  /** The validated body of a completion request. */
  datatype CompleteLessonInput = CompleteLessonInput(score: Option<int>, timeSpentSeconds: int)

  /** What completing a lesson returns, plus the entry whose chain sync it requested. */
  datatype CompleteResult = CompleteResult(progress: LessonProgress, tokensAwarded: int, newBalance: int, syncRequested: Option<TxId>)

  predicate LessonAvailable(db: Database, lessonId: LessonId)
    reads db
  {
    lessonId in db.lessons && db.lessons[lessonId].status == Published
  }

  /** The progress row a completion leaves, from the row that existed before, if any. */
  function CompletedProgress(existing: Option<LessonProgress>, input: CompleteLessonInput, now: Time): (p: LessonProgress)
    ensures p.completed && p.completedAt == Some(now)
    ensures p.score == input.score && p.timeSpentSeconds == input.timeSpentSeconds
    ensures existing.None? ==> p.started && p.startedAt == Some(now)
    ensures existing.Some? ==> p.started == existing.value.started && p.startedAt == existing.value.startedAt
  {
    match existing
    case Some(e) =>
      e.(completed := true, score := input.score, timeSpentSeconds := input.timeSpentSeconds, completedAt := Some(now))
    case None =>
      LessonProgress(true, true, input.score, input.timeSpentSeconds, Some(now), Some(now))
  }

  /**
   * Completes lesson `lessonId` for child `childId` on day `today` at instant
   * `now`: records the progress, awards the capped reward, appends a ledger
   * entry when the award is positive and updates the child's balance and
   * daily counter, all in one step.
   */
  method CompleteLesson(db: Database, cfg: BlockchainService.ChainConfig, lessonId: LessonId, childId: ChildId,
                        input: CompleteLessonInput, today: Day, now: Time)
    returns (r: Result<CompleteResult>)
    requires db.Valid()
    modifies db`progress, db`transactions, db`children
    ensures db.Valid()
    ensures !LessonAvailable(db, lessonId) ==> r == Err("Lesson not found")
    ensures LessonAvailable(db, lessonId) && (childId, lessonId) in old(db.progress) && old(db.progress)[(childId, lessonId)].completed ==>
              r == Err("Lesson already completed")
    ensures LessonAvailable(db, lessonId) && !((childId, lessonId) in old(db.progress) && old(db.progress)[(childId, lessonId)].completed) &&
            childId >= |old(db.children)| ==>
              r == Err("Child profile not found")
    ensures r.Ok? <==>
              && LessonAvailable(db, lessonId)
              && !((childId, lessonId) in old(db.progress) && old(db.progress)[(childId, lessonId)].completed)
              && childId < |old(db.children)|
    ensures r.Err? ==> db.progress == old(db.progress) && db.transactions == old(db.transactions) && db.children == old(db.children)
    ensures r.Ok? ==>
              var key := (childId, lessonId);
              var existing := if key in old(db.progress) then Some(old(db.progress)[key]) else None;
              var child := old(db.children)[childId];
              var lesson := db.lessons[lessonId];
              var s := Settle(child, lesson.tokenReward, today);
              var entry := TokenTx(childId, EarnLessonComplete, s.award, s.account.tokenBalance,
                                   "Completed: " + lesson.title, Some(LessonRef(lessonId)), now,
                                   BlockchainService.InitialSyncStatus(cfg), None, None, 0, None);
              && LessonAvailable(db, lessonId)
              && (existing.Some? ==> !existing.value.completed)
              && childId < |old(db.children)|
              && db.progress == old(db.progress)[key := CompletedProgress(existing, input, now)]
              && db.children == old(db.children)[childId := s.account]
              && db.transactions == old(db.transactions) + (if s.award > 0 then [entry] else [])
              && r.value == CompleteResult(db.progress[key], s.award, s.account.tokenBalance,
                                           if s.award > 0 then Some(|old(db.transactions)|) else None)
              && s.award >= 0
  {
    if !LessonAvailable(db, lessonId) {
      return Err("Lesson not found");
    }
    var lesson := db.lessons[lessonId];
    var key := (childId, lessonId);
    var existing := if key in db.progress then Some(db.progress[key]) else None;
    if existing.Some? && existing.value.completed {
      return Err("Lesson already completed");
    }
    if childId >= |db.children| {
      return Err("Child profile not found");
    }
    var child := db.children[childId];

    // reset the daily counter on a new day, then cap the reward
    var settled := Settle(child, lesson.tokenReward, today);
    SettleKeepsCap(child, lesson.tokenReward, today);
    var tokensToAward := settled.award;
    var account := settled.account;
    var newBalance := account.tokenBalance;

    var p := CompletedProgress(existing, input, now);
    db.progress := db.progress[key := p];

    var tokenTxId: Option<TxId> := None;
    if tokensToAward > 0 {
      var entry := TokenTx(childId, EarnLessonComplete, tokensToAward, newBalance,
                           "Completed: " + lesson.title, Some(LessonRef(lessonId)), now,
                           BlockchainService.InitialSyncStatus(cfg), None, None, 0, None);
      BalanceFacts(db.children, db.transactions, childId);
      AppendPreservesValid(db.children, db.transactions, entry, account);
      tokenTxId := Some(|db.transactions|);
      db.transactions := db.transactions + [entry];
    } else {
      UpdateAccountPreservesValid(db.children, db.transactions, childId, account);
    }
    db.children := db.children[childId := account];
    r := Ok(CompleteResult(p, tokensToAward, newBalance, tokenTxId));
  }

  /**
   * Opens lesson `lessonId` for child `childId`: creates a started progress
   * row when there is none, marks an unstarted row started, and leaves a
   * started row alone. Returns the row.
   */
  method OpenLesson(db: Database, lessonId: LessonId, childId: ChildId, now: Time)
    returns (r: Result<LessonProgress>)
    requires db.Valid()
    modifies db`progress
    ensures db.Valid()
    ensures !LessonAvailable(db, lessonId) <==> r == Err("Lesson not found")
    ensures r.Err? ==> db.progress == old(db.progress)
    ensures r.Ok? ==>
              var key := (childId, lessonId);
              && key in db.progress && r.value == db.progress[key] && r.value.started
              && (key !in old(db.progress) ==>
                    db.progress == old(db.progress)[key := LessonProgress(true, false, None, 0, Some(now), None)])
              && (key in old(db.progress) && !old(db.progress)[key].started ==>
                    db.progress == old(db.progress)[key := old(db.progress)[key].(started := true, startedAt := Some(now))])
              && (key in old(db.progress) && old(db.progress)[key].started ==> db.progress == old(db.progress))
  {
    if !LessonAvailable(db, lessonId) {
      return Err("Lesson not found");
    }
    var key := (childId, lessonId);
    var progress: LessonProgress;
    if key !in db.progress {
      progress := LessonProgress(true, false, None, 0, Some(now), None);
      db.progress := db.progress[key := progress];
    } else if !db.progress[key].started {
      progress := db.progress[key].(started := true, startedAt := Some(now));
      db.progress := db.progress[key := progress];
    } else {
      progress := db.progress[key];
    }
    r := Ok(progress);
  }
}
