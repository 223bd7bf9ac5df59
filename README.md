# family-vine token economy, modelled in Dafny

family-vine is a family learning app. Children complete lessons and earn
tokens, ask to spend them, and parents approve or deny those requests.
Every change to a child's balance is written to a per-child ledger, and the
ledger is mirrored on chain as mint and burn calls of a token contract.
This project models that core and proves properties of it:

- the reward calculation with its daily cap of 100 tokens;
- lesson completion and opening;
- the spend mediator: request and review;
- the chain reconciler's per-entry sync state machine and its batch job;
- the custodial wallet directory;
- the request validators;
- family progress aggregation;
- family challenges;
- the route guard;
- the one-off script that tops up on-chain balances.

The store is one `Store.Database` object whose fields are the tables. Its
invariant `Valid()` states the key ledger property for every child: the
balance equals the last entry's `balanceAfter`, equals the sum of all the
child's amounts, and is never negative. It also states the other table
invariants: at most 5 pending requests per child, non-negative lesson
rewards, one wallet per owner, unique challenge ids, and progress rows
that name existing children. Every service method that writes the store
requires and ensures `Valid()`.

Time is an input. A calendar day is a `nat` (day n + 1 follows day n), and
an instant is a `nat`. The external parts are parameters:

- the chain client is a function from the call made to its outcome, mined
  or thrown; in the batch job it also takes the batch step the call is made
  at, `(nat, ChainCall) -> ChainOutcome`;
- key generation is the already encrypted key pair the caller passes in;
- token verification is a function from token to optional claims;
- the script's balance reads and mints succeed or throw as two functions
  of the candidate's position in the list (`readOk`, `mintOk`).

Modules: `Wrappers`, `Schema` (rows), `Ledger` (the ledger invariant),
`Store`, `LessonService`, `TokenService`, `BlockchainService`,
`WalletService`, `Json` (the parsed-body checks), `TokenValidators`,
`LessonValidators`, `ProgressService`, `ChallengeService`, `Middleware`,
`SyncBalances`.

## Model

| member | source | states |
|---|---|---|
| Ledger.ChainedSum | src/server/services/token.service.ts:199-214 | when each entry's balanceAfter is the previous balance plus its amount, the last balanceAfter is the sum of all the child's amounts |
| Ledger.PrefixSum | src/server/services/token.service.ts:199-214 | every entry's balanceAfter is the sum of the child's amounts up to and including it |
| Ledger.BalanceFacts | src/server/services/token.service.ts:191-214 | in a valid ledger a child's balance equals its last balanceAfter and the sum of its amounts, and is never negative |
| Ledger.AppendPreservesValid | src/server/services/lesson.service.ts:237-260 | appending an entry with balanceAfter = old balance + amount >= 0, with the account taking that balance and the counter within the cap, keeps the ledger valid |
| Ledger.UpdateAccountPreservesValid | src/server/services/lesson.service.ts:253-260 | an account update that keeps the balance (zero award) keeps the ledger valid |
| Ledger.SameLedgerPreservesValid | src/server/services/blockchain.service.ts:75-103 | rewriting only blockchain columns keeps the ledger valid |
| Ledger.NewChildPreservesValid | src/server/services/family.service.ts:82-92 | a new child with balance 0 and no entries keeps the ledger valid |
| Store.PendingCountAppend | src/server/services/token.service.ts:63-78 | adding one request raises only its own child's pending count, and by one exactly when it is PENDING |
| Store.PendingCountUpdate | src/server/services/token.service.ts:194-197 | replacing a request of the same child that becomes decided never raises any child's pending count |
| Store.FindWallet | src/server/services/wallet.service.ts:13-15 | the found row belongs to the owner; none is found exactly when no row does |
| Store.RemoveChallengeKeepsTables | src/server/services/challenge.service.ts:130 | deleting a challenge row keeps the table invariant |
| Store.Database.AddChild | src/server/services/family.service.ts:79-92 | a new child profile is appended with balance 0, nothing earned and the counter reset today, and the store stays valid |
| Store.NoPendingForNewChild | src/server/services/family.service.ts:82-92 | a child no request names has no pending requests |
| LessonService.EffectiveDailyEarned | src/server/services/lesson.service.ts:193-202 | what counts as earned today is 0 or the stored counter, and stays within the cap when the counter is |
| LessonService.Award | src/server/services/lesson.service.ts:204-206 | the award is the smaller of the reward and what is left under the cap; it never exceeds either |
| LessonService.AwardNonNegative | src/server/services/lesson.service.ts:205-206 | with a non-negative reward and a counter at most the cap, 0 <= award <= reward and counter + award <= cap |
| LessonService.AwardBelowZeroOverCap | src/server/services/lesson.service.ts:205-206 | with no lower clamp, a counter above the cap gives a negative award |
| LessonService.Settle | src/server/services/lesson.service.ts:193-207 | balance + award, new counter = effective counter + award, reset day moves to today only on a new day, name and family kept |
| LessonService.SettleKeepsCap | src/server/services/lesson.service.ts:199-207 | settling a non-negative reward keeps the counter within 0..cap and never lowers the balance |
| LessonService.NewDayResetsCounter | src/server/services/lesson.service.ts:199-206 | on a later day the counter restarts: the award is the reward capped at 100, it becomes the whole counter, and the reset day moves to today |
| LessonService.SameDayHitsCap | src/server/services/lesson.service.ts:199-206 | on the same day a reward at least what is left under the cap pays exactly what is left, filling the counter to 100, and the reset day is kept |
| LessonService.CompletedProgress | src/server/services/lesson.service.ts:212-233 | the row ends completed with the given score and time and completion instant; a new row is also started now, an existing one keeps its start |
| LessonService.CompleteLesson | src/server/services/lesson.service.ts:162-270 | the three error cases in order, each changing nothing, and success exactly when none applies; on success the progress, account and ledger (an entry exactly when the award is positive, sync PENDING when enabled) are updated together, and a sync is requested only for a new entry |
| LessonService.OpenLesson | src/server/services/lesson.service.ts:122-154 | an unknown or unpublished lesson fails; a missing row is created started, an unstarted row is marked started, a started row is left alone |
| TokenService.GetBalance | src/server/services/token.service.ts:7-27 | unknown child fails; otherwise the stored balance, 0 earned on a new day else the counter, and the cap 100 |
| TokenService.BalanceAgreesWithLedger | src/server/services/token.service.ts:22-26 | in a valid store the reported balance is the sum of the child's ledger amounts and its last balanceAfter, non-negative, and the daily figure is within the cap |
| TokenService.EntryPositions | src/server/services/token.service.ts:30-31 | the positions of exactly the child's entries, each once, in increasing order |
| TokenService.EntriesOf | src/server/services/token.service.ts:30-31 | only the child's entries, none of another child's, and never more than the ledger holds |
| TokenService.EntriesInOrder | src/server/services/token.service.ts:30-32 | the k-th of the child's entries is the ledger entry at the k-th of its positions, so every entry of the child appears once, in ledger order |
| TokenService.Reversed | src/server/services/token.service.ts:32 | position k holds the k-th entry from the end |
| TokenService.GetHistory | src/server/services/token.service.ts:29-37 | min(entries, limit) of the child's entries, the limit defaulting to 50, position k holding the k-th newest |
| TokenService.CreateSpendRequest | src/server/services/token.service.ts:48-81 | unknown child, insufficient balance (checked first) and 5 pending requests fail and change nothing, and success comes exactly when none applies; success appends one PENDING request, so no child ever exceeds 5 |
| TokenService.ReviewSpendRequest | src/server/services/token.service.ts:163-237 | unknown or foreign request, an already decided one and an approval over the balance fail and change nothing, and success comes exactly when none applies; approval marks APPROVED, appends one SPEND_UNLOCK_CONTENT entry of -amount with balanceAfter = balance - amount >= 0 and sets the balance to it; denial only marks DENIED |
| BlockchainService.InitialSyncStatus | src/server/services/blockchain.service.ts:26-32 | new entries are PENDING exactly when all three settings are non-empty, else have no status |
| BlockchainService.IsEnabled | src/server/services/blockchain.service.ts:26-32 | minting is on exactly when the contract address, the server key and the RPC URL are all set and non-empty |
| BlockchainService.CallFor | src/server/services/blockchain.service.ts:69-82 | a positive amount mints, any other amount burns, always |amount| to the child's wallet |
| BlockchainService.SyncResult | src/server/services/blockchain.service.ts:84-104 | success: CONFIRMED, hash stored, error cleared, retries unchanged; failure: FAILED, message (or "Unknown error") stored, retries + 1; ledger columns untouched |
| BlockchainService.ConfirmedIsNotSkipped | src/server/services/blockchain.service.ts:51-104 | a CONFIRMED entry that is synced again and fails becomes FAILED with one more retry |
| BlockchainService.SyncTransaction | src/server/services/blockchain.service.ts:51-105 | a no-op when disabled, for a missing entry or for a child without a wallet; otherwise exactly the entry is replaced by its sync result for the chain's answer to the right call, and the ledger stays valid |
| BlockchainService.EligibleIndices | src/server/services/blockchain.service.ts:110-115 | the positions of exactly the PENDING/FAILED entries with fewer than 5 retries, oldest first |
| BlockchainService.SelectBatch | src/server/services/blockchain.service.ts:110-117 | at most 50 eligible entries, oldest first |
| BlockchainService.BatchIsOldestFirst | src/server/services/blockchain.service.ts:115-116 | an eligible entry left out means the batch is full of older entries |
| BlockchainService.ExhaustedNeverSelected | src/server/services/blockchain.service.ts:113 | an entry with 5 retries is never selected |
| BlockchainService.CountConfirmed | src/server/services/blockchain.service.ts:126-132 | the number of synced entries never exceeds the number tried |
| BlockchainService.BatchStepResult | src/server/services/blockchain.service.ts:51-104 | an entry after its batch step keeps its ledger columns, and is unchanged when its child has no wallet |
| BlockchainService.BatchStepConfirmed | src/server/services/blockchain.service.ts:69-104 | an eligible entry ends CONFIRMED exactly when its child has a wallet and the chain mined the call for it; without a wallet it stays eligible |
| BlockchainService.SyncStepEntries | src/server/services/blockchain.service.ts:122-134 | after step k every entry of steps 0..k holds its own step's result |
| BlockchainService.SyncStep | src/server/services/blockchain.service.ts:122-134 | one batch step replaces only its own entry, by the sync result of the chain's answer for the child's wallet, reports whether it ended CONFIRMED and keeps the count of confirmed entries |
| BlockchainService.ProcessPendingSync | src/server/services/blockchain.service.ts:107-141 | disabled: 0/0 and nothing changes; else the batch is SelectBatch of the old table, the j-th batch entry becomes the sync result of the chain's j-th answer, synced + failed is the batch size, synced counts the entries that end CONFIRMED, and entries outside the batch are untouched |
| WalletService.EnsureWallet | src/server/services/wallet.service.ts:12-29 | an owner with a wallet gets its address and nothing is created; otherwise exactly one row bound to the owner is added and its address returned |
| WalletService.RowsOf | src/server/services/wallet.service.ts:13-15 | an owner has no rows exactly when no wallet is found for it |
| WalletService.RowsOfUnique | src/server/services/wallet.service.ts:13-15 | with unique owners no owner has two rows |
| WalletService.EnsurePreservesUnique | src/server/services/wallet.service.ts:18-27 | check-then-create keeps one wallet per owner |
| WalletService.EnsureTwice | src/server/services/wallet.service.ts:12-48 | two requests for one owner return the same address, the second changes nothing, and the owner has exactly one row |
| WalletService.CreateWallet | src/server/services/wallet.service.ts:12-48 | the new table and the address are those of EnsureWallet |
| WalletService.CreateFamilyWallet | src/server/services/wallet.service.ts:12-29 | EnsureWallet for the family's wallet |
| WalletService.CreateChildWallet | src/server/services/wallet.service.ts:31-48 | EnsureWallet for the child's wallet |
| WalletService.FamilyLabel | src/server/services/wallet.service.ts:61 | the family name when there is one, else "Family" |
| WalletService.ChildEntries | src/server/services/wallet.service.ts:68-81 | at most one entry per child, each naming an existing child, in child order |
| WalletService.ChildEntriesExact | src/server/services/wallet.service.ts:68-81 | an entry is listed exactly when it is a child of the family that has a wallet, with that wallet's address and the child's name |
| WalletService.FamilyWalletsShape | src/server/services/wallet.service.ts:50-84 | the family entry comes first exactly when the family has a wallet, with its label; every later entry is a child's |
| WalletService.GetFamilyWallets | src/server/services/wallet.service.ts:50-84 | the loop builds exactly the FamilyWallets listing, made of WalletInfo values that hold no key material |
| WalletService.GetChildWalletAddress | src/server/services/wallet.service.ts:86-91 | None exactly when the child has no wallet row, else that row's address |
| Json.Field | src/server/validators/token.validators.ts:6 | a field is present exactly when its key is |
| Json.SafeIntegerIssues | src/server/validators/token.validators.ts:4 | no issue exactly for an integral number within the safe range |
| Json.IntegerIssues | src/server/validators/token.validators.ts:4 | no issue exactly for a safe integer within the bounds; a number below the minimum carries the minimum's message, above the maximum the maximum's |
| Json.StringIssues | src/server/validators/token.validators.ts:5 | no issue exactly for a string of length within the bounds; a short one carries the minimum's message |
| Json.OptionalStringIssues | src/server/validators/token.validators.ts:6 | no issue exactly when absent or a string |
| Json.OptionalEnumIssues | src/server/validators/lesson.validators.ts:10 | no issue exactly when absent or one of the options |
| Json.OptionalStringOf | src/server/validators/token.validators.ts:6 | the text when present, None when absent |
| TokenValidators.ParseSpendRequest | src/server/validators/token.validators.ts:3-7 | valid exactly for an integer amount >= 1, a reason of 1..200 characters and an optional string reference, and then carries those values; the custom messages for a small amount and an empty reason |
| TokenValidators.SpendRequestRoundTrip | src/server/validators/token.validators.ts:3-7 | every request the schema allows is parsed back to itself |
| TokenValidators.ParseReview | src/server/validators/token.validators.ts:9-11 | valid exactly for status APPROVED or DENIED, giving approval or denial accordingly |
| TokenValidators.ReviewRoundTrip | src/server/validators/token.validators.ts:9-11 | both decisions are parsed back to themselves |
| LessonValidators.ParseCompleteLesson | src/server/validators/lesson.validators.ts:3-6 | valid exactly for an optional integer score in 0..100 and an integer time >= 0, and then carries those values |
| LessonValidators.CompleteLessonRoundTrip | src/server/validators/lesson.validators.ts:3-6 | every allowed completion is parsed back to itself |
| LessonValidators.DifficultyOf | src/server/validators/lesson.validators.ts:10 | inverse of the difficulty's name |
| LessonValidators.DifficultyName | src/server/validators/lesson.validators.ts:10 | one of BEGINNER, INTERMEDIATE, ADVANCED |
| LessonValidators.StatusOf | src/server/validators/lesson.validators.ts:12 | inverse of the status's name |
| LessonValidators.StatusName | src/server/validators/lesson.validators.ts:12 | one of DRAFT, PUBLISHED, ARCHIVED |
| LessonValidators.ParseLessonQuery | src/server/validators/lesson.validators.ts:8-13 | valid exactly when every present filter is a string and the enums are among their names; each filter is set exactly when present, and the text filters carry the given text |
| LessonValidators.EncodeLessonQueryFields | src/server/validators/lesson.validators.ts:8-13 | each filter appears in the query exactly when set |
| LessonValidators.LessonQueryRoundTrip | src/server/validators/lesson.validators.ts:8-13 | every filter combination is parsed back to itself |
| ProgressService.Completed | src/server/services/progress.service.ts:30 | exactly the completed rows |
| ProgressService.InProgress | src/server/services/progress.service.ts:31-33 | exactly the started, not completed rows: all of them and nothing else |
| ProgressService.CompletedAndStartedDisjoint | src/server/services/progress.service.ts:30-33 | lessonsCompleted + lessonsStarted never exceeds the rows |
| ProgressService.TotalTime | src/server/services/progress.service.ts:39-42 | the empty sum is 0, and with no negative time the total is at least each row's time |
| ProgressService.TotalTimeAppend | src/server/services/progress.service.ts:39-42 | total time is additive over a split of the rows |
| ProgressService.TotalTimeBounds | src/server/services/progress.service.ts:39-42 | with no negative time, the total is at least each row's time, completed or not |
| ProgressService.SumBounds | src/server/services/progress.service.ts:84 | values in lo..hi sum to between n lo and n hi |
| ProgressService.RoundedMean | src/server/services/progress.service.ts:84 | the result r satisfies r - 1/2 <= sum/n < r + 1/2, so halves round up |
| ProgressService.RoundedMeanUnique | src/server/services/progress.service.ts:84 | that integer is unique, so RoundedMean is the rounding of the mean |
| ProgressService.RoundedMeanBetween | src/server/services/progress.service.ts:84 | a sum between n lo and n hi has a rounded mean in lo..hi |
| ProgressService.RoundedMeanWithin | src/server/services/progress.service.ts:82-85 | the rounded mean of scores in lo..hi lies in lo..hi |
| ProgressService.Scores | src/server/services/progress.service.ts:35-37 | empty exactly when no row has a score |
| ProgressService.ScoredPositions | src/server/services/progress.service.ts:35-37 | the positions of exactly the rows with a score, increasing |
| ProgressService.ScoresInOrder | src/server/services/progress.service.ts:35-37 | the k-th score is the score of the k-th scored row, so the scores are the present ones, each once, in row order |
| ProgressService.ScoresWithin | src/server/services/progress.service.ts:35-37 | scores drawn from rows with scores in lo..hi lie in lo..hi |
| ProgressService.AverageScore | src/server/services/progress.service.ts:35-37 | None exactly when no completed row has a score, else the rounded mean of the present scores |
| ProgressService.AverageScoreWithin | src/server/services/progress.service.ts:82-85 | with every present score in 0..100, the average is in 0..100 |
| ProgressService.CategoryCount | src/server/services/progress.service.ts:45-52 | positive exactly when some row has the category |
| ProgressService.CountByCategory | src/server/services/progress.service.ts:45-52 | the map holds exactly the categories that occur, each with its number of completed rows |
| ProgressService.Breakdown | src/server/services/progress.service.ts:54-59 | one row per listed category, in order, with its name, color, completed count (0 when absent) and published total |
| ProgressService.InsertNewest | src/server/services/progress.service.ts:62-66 | an insertion step extends the newest-first prefix and keeps the array a permutation |
| ProgressService.SortNewestFirst | src/server/services/progress.service.ts:62-66 | the array ends newest first (a missing date counting as 0) and is a permutation of what it held |
| ProgressService.RecentOf | src/server/services/progress.service.ts:68-73 | one summary per row, in order |
| ProgressService.PrefixOfSortedIsLatest | src/server/services/progress.service.ts:62-67 | the first 5 of a sorted permutation are newest first, drawn from the completed rows, and nothing left out is newer |
| ProgressService.LatestCompleted | src/server/services/progress.service.ts:62-67 | the result is the 5 latest completions |
| ProgressService.SummarizeChild | src/server/services/progress.service.ts:29-88 | the summary meets Summarizes: counts, total time, average, breakdown and the latest 5; completed + started <= rows; at most 5 recent |
| ProgressService.GetFamilyProgress | src/server/services/progress.service.ts:4-89 | one summary per child, in order, each meeting Summarizes |
| ChallengeService.FamilyMembers | src/server/services/challenge.service.ts:87-90 | exactly the family's children, in table order, without repeats |
| ChallengeService.Enrollment | src/server/services/challenge.service.ts:92-97 | one fresh row (0 lessons, not completed) per family member |
| ChallengeService.EnrollmentExact | src/server/services/challenge.service.ts:87-97 | a child has a row exactly when it is in the family, and no child has two |
| ChallengeService.CategoryName | src/server/services/challenge.service.ts:41 | none without a category; the looked-up name, or none when the category is gone |
| ChallengeService.ProgressViews | src/server/services/challenge.service.ts:47-53 | one view per progress row with the child's name |
| ChallengeService.FindChallenge | src/server/services/challenge.service.ts:124-128 | finds a challenge with that id of that family; none exactly when there is no such challenge |
| ChallengeService.CreateChallenge | src/server/services/challenge.service.ts:57-121 | an end date in the past fails first, then an unknown category, then an end date that is no date (which the future check lets through), each changing nothing; success exactly when the end parses to a future instant and the category, if given, exists; success appends an ACTIVE challenge with reward defaulting to 50 and enrolls every child of the family; the result has no category name and one fresh progress view per child |
| ChallengeService.DeleteChallenge | src/server/services/challenge.service.ts:123-132 | fails with "Challenge not found" exactly when the family has no such challenge; else removes that row and its progress |
| ChallengeService.InsertBy | src/server/services/challenge.service.ts:8 | inserting keeps the multiset plus the new row |
| ChallengeService.InsertBySorted | src/server/services/challenge.service.ts:8 | inserting into a sorted sequence keeps it sorted |
| ChallengeService.SortBy | src/server/services/challenge.service.ts:8 | sorting is a permutation |
| ChallengeService.SortBySorted | src/server/services/challenge.service.ts:8 | sorting yields a sorted sequence |
| ChallengeService.ParentKeyOrder | src/server/services/challenge.service.ts:8 | the parent order is status first (ACTIVE before the rest), then creation instant, newest first |
| ChallengeService.ChildKeyOrder | src/server/services/challenge.service.ts:141 | the child order is end instant alone, earliest first |
| ChallengeService.OfFamily | src/server/services/challenge.service.ts:6-7 | only the family's challenges, and every one of them, drawn from the table |
| ChallengeService.OfFamilyCount | src/server/services/challenge.service.ts:6-7 | each challenge of the family appears as often as it is stored, any other not at all |
| ChallengeService.ActiveOfFamily | src/server/services/challenge.service.ts:136-140 | exactly the family's ACTIVE challenges |
| ChallengeService.ParentView | src/server/services/challenge.service.ts:33-54 | the view carries the category name and every enrolled child's progress |
| ChallengeService.GetChallenges | src/server/services/challenge.service.ts:5-55 | one view per family challenge in status-then-newest order |
| ChallengeService.GetChallengesComplete | src/server/services/challenge.service.ts:6-8 | the listing holds every family challenge, each exactly as often as it is stored, and nothing else, sorted by status then newest first |
| ChallengeService.OwnProgress | src/server/services/challenge.service.ts:143-145 | the child's first row if it has one, none exactly when it has none |
| ChallengeService.ChildView | src/server/services/challenge.service.ts:164-177 | the child's own progress, or 0 lessons, not completed, no date |
| ChallengeService.GetChildChallenges | src/server/services/challenge.service.ts:135-178 | one child view per ACTIVE family challenge, by end |
| ChallengeService.GetChildChallengesExact | src/server/services/challenge.service.ts:136-141 | exactly the family's ACTIVE challenges, ordered by end ascending |
| Middleware.AuthPathDecision | src/middleware.ts:41-50 | a sign-in page redirects to the dashboard exactly when the parent cookie verifies (any role), else passes |
| Middleware.ParentPathGuarded | src/middleware.ts:53-68 | a parent page passes exactly when the parent cookie verifies as PARENT; no cookie goes to sign-in with `from`, a bad one to sign-in |
| Middleware.ChildPathGuarded | src/middleware.ts:71-87 | a child page passes exactly when the child cookie verifies as CHILD; without it: sign-in if no parent cookie, else child selection; a bad one: child selection |
| Middleware.UnguardedPathPasses | src/middleware.ts:89 | a path in no group passes |
| Middleware.NextMeansAuthorised | src/middleware.ts:41-89 | whatever passes a guarded group holds the session that group demands |
| Middleware.Decide | src/middleware.ts:35-90 | only a sign-in page goes to the dashboard; only guarded pages redirect; sign-in with `from` returns to the page asked for and only for a parent page; child selection only for a child page |
| Middleware.RedirectPagesClassified | src/middleware.ts:8-21 | the redirect targets are classified by prefix: /login is a sign-in page, /dashboard and /select-child are parent pages |
| Middleware.RedirectsSettle | src/middleware.ts:35-89 | when every verifiable parent cookie is a parent's, redirects reach a passing page within two hops |
| Middleware.ChildTokenInParentCookieLoops | src/middleware.ts:41-68 | a verifiable CHILD token in the parent cookie sends /login to /dashboard and /dashboard back to /login |
| Middleware.HandleRequest | src/middleware.ts:92-96 | paths the matcher excludes pass untouched; the others get the guard's decision |
| Middleware.DistinguishedEscapes | src/middleware.ts:92-96 | a path under a guarded prefix that differs from an excluded prefix right after the slash does not continue with that excluded prefix |
| Middleware.GuardedPrefixesDistinguished | src/middleware.ts:8-21 | every guarded prefix starts with a slash and differs from every excluded prefix right after it |
| Middleware.ProtectedPagesGuarded | src/middleware.ts:8-21 | the matcher never exempts a sign-in, parent or child page: the guard runs for it and decides it |
| SyncBalances.Candidates | scripts/sync-balances-to-chain.ts:40-46 | only children with a positive balance and a wallet, with their balance and wallet address, in table order |
| SyncBalances.CandidatesComplete | scripts/sync-balances-to-chain.ts:40-46 | every child with a positive balance and a wallet is a candidate |
| SyncBalances.TopUp | scripts/sync-balances-to-chain.ts:56-61 | nothing when the chain holds enough, else exactly the shortfall |
| SyncBalances.Step | scripts/sync-balances-to-chain.ts:53-70 | enough on chain: skipped, chain unchanged; else the shortfall is minted, raising the address to the ledger balance, or on a failed mint leaving the chain as it was |
| SyncBalances.Run | scripts/sync-balances-to-chain.ts:50-71 | one outcome per candidate reached; the run ends early exactly when a balance read throws, at the first such candidate, and otherwise reaches every candidate |
| SyncBalances.RunAbortedStays | scripts/sync-balances-to-chain.ts:53 | once a read has thrown nothing further happens |
| SyncBalances.RunNeverBurns | scripts/sync-balances-to-chain.ts:16-19 | no on-chain balance ever drops |
| SyncBalances.RunTouchesOnlyCandidates | scripts/sync-balances-to-chain.ts:50-71 | addresses of no candidate keep their balance |
| SyncBalances.StepFrame | scripts/sync-balances-to-chain.ts:53-70 | handling one candidate touches no other address |
| SyncBalances.LastStepOutcome | scripts/sync-balances-to-chain.ts:53-70 | the candidate handled last was handled against the starting chain, as specified |
| SyncBalances.RunOutcomes | scripts/sync-balances-to-chain.ts:53-70 | per candidate reached: enough on chain is skipped unchanged; otherwise the shortfall is minted, reaching the ledger balance on success and leaving the chain as it was on failure, and a failed mint does not stop the run |
| SyncBalances.RunCatchesUp | scripts/sync-balances-to-chain.ts:56-66 | a candidate reached whose mint did not fail ends with at least its ledger balance on chain |
| SyncBalances.TopUpAll | scripts/sync-balances-to-chain.ts:50-71 | the loop computes Run over all candidates, stopping where a read throws |
| SyncBalances.SyncBalancesToChain | scripts/sync-balances-to-chain.ts:21-81 | a missing setting stops before touching the chain with the error message; otherwise every candidate reached is handled as Run says, and a read that throws ends the script with an error while keeping what was done |

## Left out

- Input/output, asynchrony and concurrency. Each awaited Prisma call and each `$transaction` is one atomic step. No claim is made about overlapping batch runs or interleaved approvals. Approval reads the balance outside the transaction, and that race is not modelled.
- The fire-and-forget sync after completing a lesson or approving a spend is not performed. The result reports the id of the entry whose sync is requested (`syncRequested`), and `BlockchainService.SyncTransaction` models the sync itself.
- The chain client, the ethers provider, the token contract and receipts are the oracle parameter. Exceptions thrown by the database updates inside `syncTransaction` are not modelled.
- The wallet key generation and AES-GCM encryption of `crypto.service.ts` are not part of this model. Their outcome is the `GeneratedWallet` parameter.
- JWT verification and the JWT secret are the `verify` parameter of the middleware.
- The middleware's URL building, the `from` query parameter escaping, and the full regular-expression semantics of the matcher are left out. The matcher is modelled as "a rooted path whose remainder does not start with an excluded word".
- Clocks and local-time midnight rounding: days are numbers and the caller supplies today and now.
- Ordering by `createdAt` is table order. Entries, requests and challenges are appended, so creation order is position. Where the source leaves the order unspecified, table order is used.
- ChallengeService.SortBy: the order of challenges with equal keys is not proved. The database's tie order is unspecified.
- ChallengeService.CreateChallenge: date parsing is not modelled; the input carries the parsed instant, or None for text that is no date. The database's rejection of such a date at the insert is the fixed message `INVALID_END_DATE`.
- Identifiers are natural numbers. The source's empty-string id truthiness (`if (input.categoryId)`) is modelled as Option.
- Foreign-key failures and other database errors are not modelled. Progress rows of a deleted challenge are embedded in the challenge row, which models the cascade.
- The progress query and its joins (lesson title, category name, published-lesson counts) are inputs to `ProgressService.GetFamilyProgress`, not computed from the store.
- Scores and sums are integers. The floating-point division inside `Math.round` is replaced by its exact integer equivalent.
- Default issue messages of the validation library are approximations. Only the two custom messages are exact. String length counts characters, not UTF-16 code units.
- The response mapping (`mapLesson`, `mapProgress`, ISO date strings) and console output are left out. The script's exit with status 1 is its `Err` result.
- SyncBalances.SyncBalancesToChain: the text of the error a failed balance read throws is not modelled; the result carries the fixed message `READ_FAILED`.
- SyncBalances.RunOutcomes / RunCatchesUp: that no two candidates share a wallet address is a hypothesis (`DistinctAddresses`). Addresses are unique in the database schema, which is not part of this model.
- `getSpendRequests`, `getFamilyTokenSummary` and `getPendingRequests` of `token.service.ts` are plain read queries and are not part of this model.
- `syncTransaction` does not skip an already CONFIRMED entry. Running it again makes a second chain call, so no idempotence of a single sync is claimed. The model follows the code: `BlockchainService.ConfirmedIsNotSkipped` shows the behaviour, and only the batch filter protects confirmed entries.
