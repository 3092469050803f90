# Argumentor learning platform: a verified model of its game and progress logic

Argumentor is a debate-training web application. Almost all of it is
presentation; this project models the parts that compute something, one
Dafny module per source file:

- `StoneBreaker`: the falling-stones quiz game. Words of the answer options become stones; the player hits the correct words; streak bonuses apply; a round ends when every correct stone is destroyed or a stone falls past the bottom; accuracy and rank come at the end.
- `Quiz`: the fifteen-question knowledge check, with its score and percentage tiers.
- `ChallengeBank` and `DailyChallenge`: the daily fallacy challenge, chosen by a polynomial hash of the date. Covers picking options, grading and per-option marks.
- `ArgumentBuilder`: the drag-and-drop argument structure, with insert, renumber, remove and reset.
- `QuestInterface`: the quest stepper, with countdown, answer checking, score and XP.
- `ChatApi`: the assistant's chat client. The history is shaped into an alternating conversation, and a request is retried with exponential backoff.
- `SectionProgress` and `BpPage`: the section progress shared by the learning-module pages. The British Parliamentary page adds section XP, an eight-question quiz, keyword replies and video toggles.
- `PeerMatch` and `Tournament`: the timed debate phase machines.
- `LearningJourney`, `QuestCompletion`, `ProgressPage` and `Dashboard`: level unlocking, score bands, progress aggregates and the dashboard's view machine.
- `Common`: shared pieces. These are decimal rendering, the `m:ss` clock (defined identically on five pages, four of them modelled here; the debate-arena page is presentation only), splitting on a separator, filtering and subsequences, and half-up rounding.

Components that update their state in place are classes whose methods
state the complete new state. Timers are methods called once per firing of
the effect. Random choices are parameters, and the network exchange is a
sequence of per-attempt outcomes.

Observed behaviour of the code that the model reproduces and pins with lemmas:

- In the stone game, a wrong hit still raises the best streak.
- "Perfect!" on the daily challenge ignores extra wrong picks.
- Removing a block from the argument structure does not renumber the remaining blocks.
- A quest's synthesis step can never be answered correctly.
- Neither quest can be finished through its own screen.
- On the BP page, the quiz matches answers to questions by position.
- On the BP page, "point of information" never decides a reply, because "poi" is checked first.
- The section XP on the BP page adds up to 270 against an advertised 250.
- A peer-match rematch from the feedback screen jumps straight into the opening.
- The tournament's completion screen can never be reached.

## Model

| member | source | states |
|---|---|---|
| StoneBreaker.LongWordsMembers | src/components/StoneBreakerGame.tsx:129-131 | a word becomes a stone iff it is one of the space-split words and longer than two characters |
| StoneBreaker.DecoyCount | src/components/StoneBreakerGame.tsx:133-137 | the number of decoys is min(max(8 - correct, 4), pool); the decoys are a prefix of the other options' long words in option order; at most max(8, correct + 4) stones in all |
| StoneBreaker.InitialStonesShape | src/components/StoneBreakerGame.tsx:139-160 | every new stone is neither destroyed nor hit, has opacity 0, no speed boosts and id = its position, and is correct iff its word is a correct word |
| StoneBreaker.InitialStonesWellFormed | src/components/StoneBreakerGame.tsx:139-160 | a freshly laid round satisfies the stone invariant (ids are positions, never both destroyed and hit) |
| StoneBreaker.StoneIdInjective | src/components/StoneBreakerGame.tsx:148 | the ids `stone-i` are distinct for distinct positions, so positions can stand for ids |
| StoneBreaker.WordsExceptSeparatorFree | src/components/StoneBreakerGame.tsx:133-137 | decoy words never contain a space |
| StoneBreaker.ClickAllTouchesOnlyTarget | src/components/StoneBreakerGame.tsx:211-232 | a click changes only the targeted stone and keeps destroyed/hit exclusive |
| StoneBreaker.ClickUnknownId | src/components/StoneBreakerGame.tsx:214-215 | a click on an id no stone carries changes no stone |
| StoneBreaker.AdvanceWellFormed | src/components/StoneBreakerGame.tsx:243-286 | a frame keeps the stone invariant |
| StoneBreaker.MissedCountBound | src/components/StoneBreakerGame.tsx:265-271 | the per-frame missed count is at most the number of stones |
| StoneBreaker.AdvanceMissed | src/components/StoneBreakerGame.tsx:265-271 | after a frame the stones past the bottom that were never hit or destroyed are the old ones plus those newly crossing |
| StoneBreaker.MissedCorrectedCountsOnce | src/components/StoneBreakerGame.tsx:265-271 | counting only stones that newly cross adds up to the missed stones of the final state, at most one per stone |
| StoneBreaker.MissedCountedTwice | src/components/StoneBreakerGame.tsx:265-271 | two frames after one decoy crosses, the counter as written says 2 where one stone was missed |
| StoneBreaker.NoCorrectWordsEndsAtOnce | src/components/StoneBreakerGame.tsx:289-296 | a round without correct stones is over as soon as it is checked |
| StoneBreaker.FreshRoundRunning | src/components/StoneBreakerGame.tsx:289-296 | a round with a correct stone is not over when laid |
| StoneBreaker.AccuracyAtLeast | src/components/StoneBreakerGame.tsx:331-335 | accuracy reaches a threshold iff score reaches threshold x total (capped at 100) |
| StoneBreaker.RankByScore | src/components/StoneBreakerGame.tsx:337-344 | each rank band, decided by cross-multiplied score thresholds 90/80/70/60, and Apprentice when no round counts |
| StoneBreaker.AccuracyBounded | src/components/StoneBreakerGame.tsx:331-335 | accuracy lies in [0, 100] |
| StoneBreaker.StonesArray | src/components/StoneBreakerGame.tsx:126-166 | builds the stone array for a question, equal to the round's initial stones |
| StoneBreaker.AdvanceStones | src/components/StoneBreakerGame.tsx:244-273 | rewrites the array in place to the frame's successor state |
| StoneBreaker.Game.constructor | src/components/StoneBreakerGame.tsx:58-70 | the initial game state |
| StoneBreaker.Game.InitializeStones | src/components/StoneBreakerGame.tsx:126-167 | lays the current question's stones, enters the falling phase and zeroes both round counters |
| StoneBreaker.Game.FindStone | src/components/StoneBreakerGame.tsx:214 | finds the stone with the clicked id, or reports that none has it |
| StoneBreaker.Game.HandleStoneClick | src/components/StoneBreakerGame.tsx:211-237 | a live correct stone: +100 + 50 x old streak, streak and hits +1, destroyed; a live wrong stone: hit, speed boost, opacity 0.8, streak 0; otherwise no stone changes; in falling the best streak becomes max(best, old streak + 1) even for wrong or void clicks; score never decreases |
| StoneBreaker.Game.Frame | src/components/StoneBreakerGame.tsx:243-298 | advances the stones, adds the as-written missed count, and completes the round when the pre-frame stones satisfy the round-over test |
| StoneBreaker.Game.NextQuestion | src/components/StoneBreakerGame.tsx:310-319 | before the last question: next index, question phase, no stones; at the last: final phase, index unchanged |
| StoneBreaker.Game.ResetGame | src/components/StoneBreakerGame.tsx:321-329 | index, score, streak and best streak zero, question phase |
| StoneBreaker.Game.FinalDivisor | src/components/StoneBreakerGame.tsx:331-335 | at the final screen the accuracy divides by the number of questions minus one |
| StoneBreaker.RoundsPlayedAtFinal | src/components/StoneBreakerGame.tsx:331-344 | with the corrected divisor, the rank at the end is LogicMaster iff score >= 90n and Apprentice iff score < 60n |
| StoneBreaker.FinalDivisorOverstates | src/components/StoneBreakerGame.tsx:331-344 | 1260 points over fifteen questions rank LogicMaster as written but TruthSeeker with the corrected divisor |
| Quiz.BankWellFormed | src/components/QuizComponent.tsx:17-123 | fifteen questions, each with a key that indexes its options, ids 1..15 |
| Quiz.CorrectAmongIsCard | src/components/QuizComponent.tsx:153-161 | the running count is the size of the set of questions answered with their key, at most the number counted |
| Quiz.CalculateScore | src/components/QuizComponent.tsx:153-161 | the score is the number of questions whose recorded answer equals the key; unanswered counts as wrong |
| Quiz.AllCorrectScoresAll | src/components/QuizComponent.tsx:153-161 | answering every question with its key scores full marks |
| Quiz.TierByCount | src/components/QuizComponent.tsx:201-202 | out of fifteen: Excellent iff score >= 12, Good Job iff 9..11, Keep Practicing iff < 9 (ties go up) |
| Quiz.TierMonotone | src/components/QuizComponent.tsx:201-202 | tiers respect the order of percentages |
| Quiz.Session.constructor | src/components/QuizComponent.tsx:126-130 | the initial quiz state |
| Quiz.Session.SelectAnswer | src/components/QuizComponent.tsx:132-137 | overwrites only the current question's answer |
| Quiz.Session.NextQuestion | src/components/QuizComponent.tsx:139-145 | advances until the last question, then marks the quiz completed instead; keeps every question before the cursor answered, and all fifteen once completed |
| Quiz.Session.PrevQuestion | src/components/QuizComponent.tsx:147-151 | steps back, never below 0 |
| Quiz.Session.ViewResults | src/components/QuizComponent.tsx:265 | shows the results and changes nothing else |
| Quiz.Session.SetMode | src/components/QuizComponent.tsx:286 | switches the mode only |
| Quiz.Session.ResetQuiz | src/components/QuizComponent.tsx:163-169 | index 0, no answers, both flags false, normal mode |
| Quiz.Session.Results | src/components/QuizComponent.tsx:153-161 | the score out of fifteen and its tier |
| ChallengeBank.BankWellFormed | src/data/challengeBank.ts:13-154 | ten challenges, each with non-empty correct ids drawn from its distinct option ids, and distinct challenge ids |
| ChallengeBank.ChallengeDifficulties | src/data/challengeBank.ts:171-173 | three distinct difficulties |
| ChallengeBank.DifficultiesCoverUnion | src/data/challengeBank.ts:171-173 | every difficulty of the union is listed |
| ChallengeBank.IsoDatePartOfInstant | src/data/challengeBank.ts:163 | the date part of an ISO instant is its YYYY-MM-DD prefix |
| ChallengeBank.PolyHashIsSum | src/data/challengeBank.ts:164-167 | the Horner fold equals the sum of code_i x 31^(k-1-i) |
| ChallengeBank.HornerMod | src/data/challengeBank.ts:166 | reducing the seed at every step leaves the residue unchanged |
| ChallengeBank.DailyIndex | src/data/challengeBank.ts:161-169 | the daily index is in [0, n) and equals the polynomial sum of the date string mod n |
| ChallengeBank.Abs | src/data/challengeBank.ts:168 | `Math.abs` leaves the non-negative seed unchanged |
| ChallengeBank.DailyChallengeByDate | src/data/challengeBank.ts:161-169 | returns the bank entry at the hash index |
| ChallengeBank.SameDateSameIndex | src/data/challengeBank.ts:163 | two instants of one UTC date pick the same challenge |
| DailyChallenge.WithoutKeepsDistinct | src/pages/DailyChallenge.tsx:67-69 | removing an id keeps the selection duplicate-free |
| DailyChallenge.CountInIsCommonElements | src/pages/DailyChallenge.tsx:80-82 | the hit count is the number of selected ids that are correct |
| DailyChallenge.CountInAll | src/pages/DailyChallenge.tsx:80-82 | the count reaches the selection's length iff every pick is correct |
| DailyChallenge.ConfettiIffExact | src/pages/DailyChallenge.tsx:86 | confetti fires iff the selection equals the set of correct ids |
| DailyChallenge.PerfectWithExtraPick | src/pages/DailyChallenge.tsx:298 | both answers of the first challenge plus a wrong pick read "Perfect!" without confetti |
| DailyChallenge.CorrectMarksMatchScore | src/pages/DailyChallenge.tsx:92-124 | the options marked correct number exactly the displayed score |
| DailyChallenge.Page.constructor | src/pages/DailyChallenge.tsx:21-26 | nothing loaded, nothing picked |
| DailyChallenge.Page.ChallengeArrived | src/pages/DailyChallenge.tsx:28-48 | the loaded challenge is shown |
| DailyChallenge.Page.LoadNewChallenge | src/pages/DailyChallenge.tsx:50-63 | picks, submission and confetti cleared while loading |
| DailyChallenge.Page.Toggle | src/pages/DailyChallenge.tsx:65-73 | after submitting, nothing changes; otherwise exactly that id's membership flips and the selection stays duplicate-free |
| DailyChallenge.Page.Submit | src/pages/DailyChallenge.tsx:75-90 | without a challenge nothing changes; otherwise submitted, with confetti iff the picks equal the correct set |
| DailyChallenge.Page.ConfettiDone | src/pages/DailyChallenge.tsx:88 | the confetti ends |
| DailyChallenge.Page.OptionStatus | src/pages/DailyChallenge.tsx:92-102 | default before submitting; then correct/incorrect/missed/default by (picked, correct), each both ways |
| DailyChallenge.Page.DisplayedCorrectCount | src/pages/DailyChallenge.tsx:122-124 | 0 unless submitted; never more than the picks |
| ArgumentBuilder.RenumberFacts | src/components/ArgumentBuilder.tsx:174-179 | renumbering keeps the blocks and sets each position to its index |
| ArgumentBuilder.InsertAtFacts | src/components/ArgumentBuilder.tsx:171-172 | the block lands at the index, or last when the index is past the end; the others keep their order |
| ArgumentBuilder.RemoveInserted | src/components/ArgumentBuilder.tsx:201-204 | removing a just-inserted block restores the structure |
| ArgumentBuilder.RemoveId | src/components/ArgumentBuilder.tsx:202 | removal keeps exactly the blocks whose id differs, positions included, and never lengthens the structure |
| ArgumentBuilder.RemoveKeepsStalePositions | src/components/ArgumentBuilder.tsx:201-204 | after a removal the remaining blocks keep their old positions |
| ArgumentBuilder.DistinctAvailableBound | src/components/ArgumentBuilder.tsx:38-124 | the structure never holds more than the eleven palette blocks |
| ArgumentBuilder.Builder.constructor | src/components/ArgumentBuilder.tsx:133-134 | empty structure, incomplete |
| ArgumentBuilder.Builder.OnDragEnd | src/components/ArgumentBuilder.tsx:158-199 | no destination, a duplicate or an unknown id changes nothing; a new palette block is inserted at the index (or appended), everything renumbered, completeness = at least 4 blocks including a core block |
| ArgumentBuilder.Builder.Remove | src/components/ArgumentBuilder.tsx:201-204 | deletes that block and reports incomplete |
| ArgumentBuilder.Builder.Reset | src/components/ArgumentBuilder.tsx:206-209 | empty and incomplete |
| QuestInterface.QuestDataWellFormed | src/components/QuestInterface.tsx:58-220 | each known quest lists as many steps as it declares; any other id is "not found" |
| QuestInterface.QuestsBlockedOnScreen | src/components/QuestInterface.tsx:319-370 | a step kind without answer controls blocks each quest on screen |
| QuestInterface.OrderMatters | src/components/QuestInterface.tsx:251-257 | the right boxes in another order are wrong |
| QuestInterface.SynthesisNeverCorrect | src/components/QuestInterface.tsx:251-257 | a synthesis step is never answered correctly |
| QuestInterface.XpOverReward | src/components/QuestInterface.tsx:245-246 | as written, a perfect fallacy-hunter run earns 300 XP against a 250 reward, and a run with nothing right earns 50 |
| QuestInterface.XpWithinReward | src/components/QuestInterface.tsx:245-246 | with the score counted once, XP never exceeds the reward |
| QuestInterface.QuestRun.constructor | src/components/QuestInterface.tsx:29-34 | step 0, no answers, score 0, five minutes, running |
| QuestInterface.QuestRun.Tick | src/components/QuestInterface.tsx:37-49 | counts down while running and above 0, stops at 0, never negative |
| QuestInterface.QuestRun.HandleAnswer | src/components/QuestInterface.tsx:222-237 | records the answer, shows feedback, +20 iff correct |
| QuestInterface.QuestRun.NextStep | src/components/QuestInterface.tsx:239-249 | before the last step: next step, feedback hidden; at the last: reports the XP |
| QuestInterface.QuestRun.FinalXpBounded | src/components/QuestInterface.tsx:234-246 | a run of at most five steps scores at most 100 and, with the score counted once, earns at most the reward; the XP paid as written can exceed it (see Findings) |
| ChatApi.BuildMessages | src/lib/sarvam-api.ts:166-194 | the request equals the shaped conversation: system message, filtered history, a trailing assistant reply dropped |
| ChatApi.KeepFromAlternates | src/lib/sarvam-api.ts:173-185 | the kept history has only user/assistant messages, no two neighbours share a role, and the first differs from the system role |
| ChatApi.KeepFromSubsequence | src/lib/sarvam-api.ts:173-188 | the kept history is an order-preserving subsequence of the input |
| ChatApi.KeepFromAlternatingIdentity | src/lib/sarvam-api.ts:173-185 | an already alternating user/assistant history is kept whole |
| ChatApi.ShapeFacts | src/lib/sarvam-api.ts:166-194 | exactly one system message, first, with the prompt; an alternating subsequence of the history after it; last is the user's unless only the system message is left |
| ChatApi.TrailingReplyDropped | src/lib/sarvam-api.ts:176-194 | a trailing assistant reply is dropped, and a repeated user message is kept once |
| ChatApi.WithDefaults | src/lib/sarvam-api.ts:87-93 | missing options default to 500 tokens, temperature 0.7, top-p 1.0, no penalties |
| ChatApi.SendWithRetry | src/lib/sarvam-api.ts:98-149 | no key: fails before any attempt; otherwise at most three attempts, the first success's content (or "No response content"), or the last failure after waits of 1000 and 2000 ms with no wait after the third |
| ChatApi.BackoffSchedule | src/lib/sarvam-api.ts:143-145 | the waits are exactly 1000 and 2000 ms |
| SectionProgress.DeclaredTotalsMatch | src/pages/LearningModule.tsx:31-93 | each page's declared total equals its listed sections (8, 8, 6, 7, 7) |
| SectionProgress.WithSectionDistinct | src/pages/LearningModule.tsx:108-110 | completing keeps the list duplicate-free and is idempotent |
| SectionProgress.CompletedBound | src/pages/LearningModule.tsx:116 | at most n completed, and n exactly when all are |
| SectionProgress.ProgressOf | src/pages/LearningModule.tsx:116 | progress in [0, 100]; 100 iff every section is completed; 0 iff none |
| SectionProgress.TotalXpIsSetSum | src/pages/BritishParliamentary.tsx:318-320 | the XP sum over the completed list depends only on the set of sections |
| SectionProgress.TotalXpBounds | src/pages/BritishParliamentary.tsx:318-320 | earned XP is at most the sum over all sections, reached when all are completed |
| SectionProgress.Tracker.constructor | src/pages/LearningModule.tsx:28-29 | first section, nothing completed |
| SectionProgress.Tracker.CompleteSection | src/pages/LearningModule.tsx:107-114 | appends the index if absent; the cursor moves to i+1 unless i is last; the module pages FallacyDetection, BritishParliamentary and AdvancedRebuttals repeat this handler |
| SectionProgress.Tracker.Previous | src/pages/LearningModule.tsx:350 | one back, clamped at 0 |
| SectionProgress.Tracker.Select | src/pages/LearningModule.tsx:168 | the cursor is the clicked index |
| SectionProgress.Tracker.Progress | src/pages/LearningModule.tsx:116 | in [0, 100]; 100 iff all sections completed |
| BpPage.SectionXpExceedsReward | src/pages/BritishParliamentary.tsx:70-120 | seven sections whose XP adds to 270, above the advertised 250 |
| BpPage.AllAnsweredScore | src/pages/BritishParliamentary.tsx:294-298 | with all eight answered, the positional count is the number of questions answered with their key |
| BpPage.AnswerValuesAligned | src/pages/BritishParliamentary.tsx:296 | with every question answered, `Object.values` lists answer i at position i |
| BpPage.SkippedQuestionShiftsScore | src/pages/BritishParliamentary.tsx:296-298 | with question 0 skipped, a correct answer to question 1 scores nothing |
| BpPage.QuizKeysInRange | src/pages/BritishParliamentary.tsx:137-210 | every key indexes one of four options |
| BpPage.PointOfInformationRedundant | src/pages/BritishParliamentary.tsx:247-249 | the reply is the POI one iff no PM keyword and "poi" occurs |
| BpPage.ReplyIgnoresCase | src/pages/BritishParliamentary.tsx:245-255 | matching is case-insensitive |
| BpPage.Page.constructor | src/pages/BritishParliamentary.tsx:47-62 | the initial page state |
| BpPage.Page.CompleteSection | src/pages/BritishParliamentary.tsx:268-292 | the shared completion handler on seven sections |
| BpPage.Page.TotalXpEarned | src/pages/BritishParliamentary.tsx:318-320 | at most 270, and 270 once all sections are completed |
| BpPage.Page.SelectQuizAnswer | src/pages/BritishParliamentary.tsx:945-946 | records the answer unless the results are shown |
| BpPage.Page.SubmitEnabledAllAnswered | src/pages/BritishParliamentary.tsx:974 | an enabled Submit means all eight questions are answered |
| BpPage.Page.SubmitQuiz | src/pages/BritishParliamentary.tsx:294-306 | shows the results; the score is the number of questions answered with their key |
| BpPage.Page.ToggleVideo | src/pages/BritishParliamentary.tsx:222-224 | flips playing only |
| BpPage.Page.ToggleMute | src/pages/BritishParliamentary.tsx:226-228 | flips muted only |
| BpPage.Page.ToggleCaptions | src/pages/BritishParliamentary.tsx:230-232 | flips captions only |
| BpPage.Page.AiMessage | src/pages/BritishParliamentary.tsx:240-261 | appends the message and the keyword reply, clears the input |
| PeerMatch.DebateStepProgress | src/pages/PeerMatch.tsx:72-88 | from the opening on, the timer only ticks down or moves one stage forward; feedback at 0 is terminal |
| PeerMatch.ClockRunsDown | src/pages/PeerMatch.tsx:74-76 | k firings in a debate phase take k seconds off its clock and keep the phase |
| PeerMatch.RematchSkipsMatching | src/pages/PeerMatch.tsx:126-134 | in matching with the clock at 0 the timer effect jumps to the opening with 420 s |
| PeerMatch.Match.constructor | src/pages/PeerMatch.tsx:32-42 | matching, clock 300, countdown 5, empty chat |
| PeerMatch.Match.MatchFound | src/pages/PeerMatch.tsx:45-59 | in matching: opponent set, matching off, countdown phase; otherwise nothing changes; clock, countdown, chat, input, rating and feedback always kept |
| PeerMatch.Match.CountdownTick | src/pages/PeerMatch.tsx:62-71 | counts 5 down to 0, then the opening with 420 s; outside the countdown nothing changes; chat, opponent, matching flag, input, rating and feedback kept |
| PeerMatch.Match.DebateTimerTick | src/pages/PeerMatch.tsx:72-88 | agrees with the phase-by-phase step: tick, or advance with 300 s, feedback keeps 0, outside the order jump to opening; every other field kept |
| PeerMatch.Match.SendMessage | src/pages/PeerMatch.tsx:106-116 | appends and clears only a message holding a character outside JavaScript's `trim()` white-space set; phase, clocks, matching flag, opponent, rating and feedback kept |
| PeerMatch.Match.SendReaction | src/pages/PeerMatch.tsx:96-104 | always appends the reaction; every other field kept |
| PeerMatch.Match.QuickRematch | src/pages/PeerMatch.tsx:126-134 | matching, countdown 5, empty chat, rating 0, no feedback or opponent; the clock untouched |
| Common.FormatTimeRoundTrip | src/pages/PeerMatch.tsx:90-94 | m:ss with two-digit seconds, reading it back gives the seconds; the same formatter is repeated in TournamentMode.tsx:81-85, QuestInterface.tsx:51-55 and BritishParliamentary.tsx:234-238 |
| Tournament.NextRoundProgress | src/pages/TournamentMode.tsx:105-112 | quarter-finals, semi-finals, finals, and the finals stay |
| Tournament.Session.constructor | src/pages/TournamentMode.tsx:32-39 | bracket, quarter-finals, 600 s, rank 8, 1250 points |
| Tournament.Session.TimerTick | src/pages/TournamentMode.tsx:72-79 | the debate clock ticks down, and at 0 the results show |
| Tournament.Session.StartMatch | src/pages/TournamentMode.tsx:87-90 | a debate with 600 s |
| Tournament.Session.CompleteMatch | src/pages/TournamentMode.tsx:92-99 | results, +150 iff won |
| Tournament.Session.AdvanceToNextRound | src/pages/TournamentMode.tsx:105-114 | the next round and always the bracket, so the completion phase never stays |
| Tournament.Session.BackToBracket | src/pages/TournamentMode.tsx:238 | the bracket again, with round, clock and points unchanged, so leaving a debate records no result |
| Tournament.Session.Wins | src/pages/TournamentMode.tsx:92-99 | points are 1250 plus 150 per win |
| Tournament.InitialsOfWords | src/pages/TournamentMode.tsx:420 | for space-joined words the initials are their first letters |
| Tournament.InitialsHaveNoSpace | src/pages/TournamentMode.tsx:420 | no initial is a space |
| LearningJourney.UnlockMatchesRequirement | src/components/LearningJourney.tsx:42-68 | level i is unlocked iff XP reaches its displayed requirement; monotone in XP |
| LearningJourney.DataWellFormed | src/components/LearningJourney.tsx:32-146 | every quest's level is one of the three, and the ids are distinct |
| LearningJourney.QuestUnlockedIff | src/components/LearningJourney.tsx:172-175 | unlocked iff a level with the quest's level id exists and is unlocked; unknown levels never |
| LearningJourney.InitialUnlocks | src/components/LearningJourney.tsx:172-175 | at 1250 XP exactly the beginner quests can start |
| LearningJourney.QuestsByLevelFacts | src/components/LearningJourney.tsx:156-158 | exactly the quests of that level, in original order |
| LearningJourney.LevelsPartition | src/components/LearningJourney.tsx:74-158 | the three level lists together hold every quest once |
| LearningJourney.EarnedShown | src/components/LearningJourney.tsx:148-154 | the badge shows the 2 earned achievements |
| QuestCompletion.PerformanceBands | src/components/QuestCompletion.tsx:29-34 | Excellent iff >= 90, Great iff 75..89, Good iff 60..74, else Keep Practicing |
| QuestCompletion.DisplayAgrees | src/components/QuestCompletion.tsx:83-97 | border and sentence always agree with the level |
| QuestCompletion.PerformanceMonotone | src/components/QuestCompletion.tsx:29-34 | a higher score never shows a lower level |
| QuestCompletion.Badges | src/components/QuestCompletion.tsx:77 | the count is the number of new achievements; the list shows iff non-empty |
| ProgressPage.AverageCompletion | src/pages/Progress.tsx:70 | the rounded average of percentages is a percentage |
| ProgressPage.CountsPartition | src/pages/Progress.tsx:71-72 | completed + in progress + not started = all modules |
| ProgressPage.PageFigures | src/pages/Progress.tsx:11-72 | 99 minutes, 41% average, 0 completed, 3 in progress |
| ProgressPage.DisplayedCountMatches | src/pages/Progress.tsx:11-52 | the literal "/4" equals the number of modules |
| ProgressPage.BarWidth | src/pages/Progress.tsx:264 | width in [0, 100]; full iff 15 hours or more |
| ProgressPage.LevelColour | src/pages/Progress.tsx:74-81 | gray iff the level is not one of the three |
| ProgressPage.StatusColour | src/pages/Progress.tsx:83-90 | green (the completed style) iff the status is not one of the three |
| Dashboard.QuestTitle | src/pages/Dashboard.tsx:102-109 | a mapped id's title, else "Unknown Quest" |
| Dashboard.Board.constructor | src/pages/Dashboard.tsx:30-37 | dashboard view, no quest, no results |
| Dashboard.Board.StartQuest | src/pages/Dashboard.tsx:96-99 | the quest is active and shown |
| Dashboard.Board.QuestComplete | src/pages/Dashboard.tsx:101-115 | completion view; the title from the map; score in [60, 99]; the badge as rolled |
| Dashboard.Board.BackToDashboard | src/pages/Dashboard.tsx:117-121 | dashboard view, no quest, no results |
| Dashboard.Board.BackToJourney | src/pages/Dashboard.tsx:123-125 | only the view changes |
| Dashboard.Board.Render | src/pages/Dashboard.tsx:128-165 | the quest screen (with that id) iff quest view with a non-empty quest id; the completion screen with the held results iff completion view with results; the journey screen in the journey view; the home screen for the dashboard view and for a quest view without an id or a completion view without results |
| Dashboard.MockScoreNeverKeepPracticing | src/pages/Dashboard.tsx:111 | a mock score always reads at least Good |

## Left out

- Stone positions, speeds, drift, rotation, fade-in, particles, crosshair hit-testing and sizing are floating-point geometry. A stone passing the bottom is an abstract per-frame set of stone indices; the speed boost is a counter and opacity is in tenths.
- Sound (`AudioContext`) in the stone game: a browser API with no stated behaviour.
- Randomness is a parameter or left out: the random challenge, the BP motion generator, the dashboard's mock score and badge, the assistant's canned replies.
- BpPage.ReplyIgnoresCase: lower-casing is modelled for the ASCII letters only. JavaScript's `toLowerCase()` also maps other scripts and can lengthen a string ("İ" becomes "i" plus a combining dot), so a message such as "POİ" gets the point-of-information reply in the page but the general reply in the model.
- BpPage.Page.AiMessage: the reply is chosen with the same ASCII-only lower-casing, so it differs from the page's for keywords written with non-ASCII capitals.
- JavaScript numbers are IEEE doubles; the model computes with exact integers and reals, and `Math.round` is exact half-up rounding. This covers the stone game's accuracy, the quiz percentage, section progress, the progress bar width, quest XP and the average completion. Rounding error in intermediate quotients is not modelled, so a value lying within a double's rounding error of a half-way point or a threshold may be classified differently.
- Timers and React batching are explicit per-firing methods; handlers run sequentially.
- ChatApi: `fetch`, JSON decoding, environment keys and the client singleton are an abstract outcome per attempt. The system prompt's wording and context interpolation are a `prompt` parameter.
- `Date.toISOString()` is not modelled: the model starts from the ISO string.
- The drag-and-drop library is not modelled: only `onDragEnd`'s effect on the list is. The reorder branch is unreachable, because every drop on the structure takes the insert branch first.
- Presentation-only pages (index, login, navbar, app routing, profile, leaderboard, debate arena, assistant widget), section icons, prose and styling.
- The BP page's `handleAiMessage` is not wired to any control on that page; it is modelled as written, with the delayed reply delivered at once.
- QuestInterface.QuestRun.HandleAnswer: requires feedback hidden, because the answer controls are disabled while feedback shows.
- QuestInterface.QuestRun.NextStep: requires feedback showing, because the button is only offered then.
- Quiz.Session.NextQuestion: requires the current question to be answered, because the Next button is disabled until it is (QuizComponent.tsx:355).
- Dashboard.QuestTitle: the title lookup is modelled over the table's own three keys. An id naming an inherited object property such as "toString" would yield a function in the page, not "Unknown Quest"; no quest id offered by the learning journey is such a name.
- BpPage.Page.SubmitQuiz: requires the Submit guard (all eight answered), which is the only way the handler is reached.
- ProgressPage.AverageCompletion: requires a non-empty module list; the page only applies it to its fixed list of four.

## Findings

| source | as written | input that shows it | evidently intended | confidence | as-written member | corrected member |
|---|---|---|---|---|---|---|
| src/components/QuestInterface.tsx:245 | `score + (isCorrect ? 20 : 0)` tests the function `isCorrect`, which is always truthy, so 20 is always added | a perfect fallacy-hunter run (score 100, reward 250) earns 300 XP; a run with nothing right earns 50 | the score already counts the last step, so XP = round(score / 100 x reward) <= reward | not executed | QuestInterface.XpOverReward | QuestInterface.XpWithinReward |
| src/components/StoneBreakerGame.tsx:331-335 | at the final screen the divisor is `currentQuestionIndex + 0`, one less than the rounds played | 1260 points over 15 questions: 90.0 accuracy (LogicMaster) instead of 84.0 (TruthSeeker) | divide by the number of rounds played, `currentQuestionIndex + 1` | not executed | StoneBreaker.FinalDivisorOverstates | StoneBreaker.RoundsPlayedAtFinal |
| src/components/StoneBreakerGame.tsx:265-271 | every frame adds all stones past the bottom that were never hit, including those counted in earlier frames | a decoy crossing in one frame and one more frame: the counter says 2 for one missed stone | count each stone once, when it first crosses | not executed | StoneBreaker.MissedCountedTwice | StoneBreaker.MissedCorrectedCountsOnce |
