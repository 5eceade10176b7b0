# debug-me: progression and career recommendations, in Dafny

debug-me is a gamified coding-education web app. A learner has a level, XP
towards the next level, lists of completed lessons and challenges, and
badges. Lessons end with a quiz and challenges with a (simulated) test run;
passing awards XP once per lesson or challenge, and some completion counts
award badges. A separate career module scores how well a self-rated
competency profile fits each of six careers, ranks the careers, and suggests
learning paths for weak competencies.

This project models that core as pure Dafny functions over immutable
datatypes, one module per source file:

- `Progression` (`src/App.tsx`): the `UserProgress` record, `addXP` with its
  multi-level-up loop (as a recursive function and as the literal `while`
  loop, proved equal), `completeLesson`, `completeChallenge`, `earnBadge`.
- `ProfileStore` (`src/App.tsx`): the list of career profiles and the
  selected index.
- `CareerData` (`src/services/career-data.ts`): competencies, careers,
  learning paths, the automation-risk table, and the weighted compatibility
  score.
- `CareerView` (`src/components/career-view.tsx`): the profile draft and its
  save rule, the ranking of careers (a stable descending sort cut to a
  limit), and the skill-gap suggestions.
- `LessonsView` and `ChallengesView`: the two catalogs, the unlock and
  completion predicates, and the completion callbacks that request the
  `first-five` and `challenge-master` badges.
- `LessonDialog` and `ChallengeDialog`: the quiz state machine and the test
  runner, each composed with the progress into event-driven sessions.
- `ProgressDashboard`, `CharacterCard` and `ProfileView`: the figures these
  pages derive from the progress.

Three helper modules stand for JavaScript behaviour the source relies on, and a fourth, `Sequences`, holds the one predicate `NoDuplicates` shared by the progress record and the catalogs:

- `Wrappers` holds `Option`.
- `Records` models a plain object `Record<string, V>` as a list of
  (key, value) pairs in insertion order. This is the order `Object.entries`
  reports for non-index string keys, per section 10.1.11.1 of ECMA-262
  (OrdinaryOwnPropertyKeys). Lookup of a missing key gives `None`, which
  models `undefined`. Spreading in `[k]: v` replaces the value in place or
  appends it.
- `Text` models `String.prototype.trim` over the ECMA-262 WhiteSpace and
  LineTerminator characters.

Modelling choices:

- Scores and percentages are `real`.
- `Math.floor(t * 1.5)` on a natural threshold is `t + t / 2`.
- The 1500 ms quiz timer is one atomic `ResultTimeout` transition.
- Each React state update is applied atomically to the current state.
- The simulated challenge test runner is a parameter `passes: string -> bool`.
- In two edge cases the model follows the code:
  - A selected profile index outside the list reads as "no profile". The
    code yields `undefined`, which every consumer treats like `null`.
  - A challenge with no test cases would award its XP on any run, because
    `every` holds of an empty list. Yet the "Challenge Complete" banner
    would not show. Every catalog challenge has three test cases.

## Model

| member | source | states |
|---|---|---|
| Progression.Grow | src/App.tsx:61 | the threshold growth never lowers the threshold and strictly raises any threshold above 1 |
| Progression.GrowIsFloorOfOneAndAHalf | src/App.tsx:61 | `t + t/2` is exactly `floor(1.5 * t)` for every natural `t` |
| Progression.ThresholdMonotone | src/App.tsx:57-62 | after any number of level-ups the threshold is at least the starting one, so it stays at least 1 |
| Progression.ThresholdCompose | src/App.tsx:57-62 | level-ups compose: n then k level-ups give the threshold and the XP consumed of n + k |
| Progression.ConsumedStrictlyIncreasing | src/App.tsx:57-62 | with a positive threshold each extra level-up consumes at least the current threshold more XP |
| Progression.LevelUp | src/App.tsx:57-62 | the loop ends below the final threshold; the level rose by k, the threshold is the k-th grown one, and the XP spent plus the XP kept equals the XP held |
| Progression.AddXP | src/App.tsx:51-71 | gaining XP follows `Gained` (level rises by the thresholds crossed, XP is conserved, new XP below new threshold); threshold never drops; only xp, level and threshold change |
| Progression.GainedIsUnique | src/App.tsx:51-71 | the outcome `Gained` describes is unique, so it fully specifies `addXP` |
| Progression.AddXPLoop | src/App.tsx:51-71 | the literal `while` loop terminates and returns the same state as `AddXP`, changing only xp, level and threshold |
| Progression.AddZeroXP | src/App.tsx:51-71 | from a valid state, `addXP(0)` changes nothing |
| Progression.AddXPFromInitial | src/App.tsx:24-33 | from the initial state, `addXP(250)` gives level 3, xp 0, threshold 225 |
| Progression.CompleteLesson | src/App.tsx:73-81 | a new lesson id is appended once and its reward gained; a known id leaves the whole state unchanged |
| Progression.CompleteChallenge | src/App.tsx:83-91 | the same rule for challenge ids |
| Progression.EarnBadge | src/App.tsx:93-100 | the badge is held afterwards; appended only if new, otherwise nothing changes |
| Progression.CompletionIsIdempotent | src/App.tsx:73-100 | repeating a completion (whatever reward it names) or a badge award returns the same state |
| Progression.OperationsPreserveValid | src/App.tsx:51-100 | every operation keeps level at least 1, XP below a positive threshold, and each id listed at most once |
| Progression.AddAll | src/App.tsx:51-71 | any run of `addXP` calls keeps the state valid and never lowers level or threshold |
| Progression.AddXPAccumulates | src/App.tsx:51-71 | on the level curve, gaining XP raises the total XP earned by exactly the amount |
| Progression.AddAllAccumulates | src/App.tsx:51-71 | along any run of `addXP` calls the total XP earned grows by the sum of the amounts |
| Progression.TotalFromInitial | src/App.tsx:24-33 | from the initial state the total XP earned equals the XP ever awarded |
| ProfileStore.AddCareerProfile | src/App.tsx:39-41 | appends at the end; earlier profiles and the selection are untouched |
| ProfileStore.SelectCareerProfile | src/App.tsx:43-45 | records the given index or no selection; profiles unchanged |
| ProfileStore.SelectedCareerProfile | src/App.tsx:47-49 | a profile exactly when an in-range index is selected, and then the profile at that index |
| ProfileStore.AddThenSelect | src/App.tsx:39-49 | adding keeps an existing selection; selecting the old length after an add selects the new profile |
| Records.Get | src/components/career-view.tsx:82 | lookup yields a value exactly when the key is present, and then a value stored under it |
| Records.Set | src/components/career-view.tsx:174-177 | the spread update keeps keys unique, keeps the key order (appending a new key), and stores the value |
| Records.SetThenGet | src/components/career-view.tsx:174-177 | reading the key just set gives the value set |
| Records.SetOthersUnchanged | src/components/career-view.tsx:174-177 | setting one key leaves every other key's lookup unchanged |
| Text.Trim | src/components/career-view.tsx:54-59 | `trim` is empty exactly for blank input; otherwise it is a slice of the input with no white space at either end and only white space cut |
| CareerData.CreateCareer | src/services/career-data.ts:131-139 | a career carries name, weights and learning path exactly as given |
| CareerData.LevelOf | src/services/career-data.ts:148 | a competency the profile does not rate counts as level 0; otherwise the rating stored for it |
| CareerData.CompatibilityScore | src/services/career-data.ts:140-152 | zero when the weights sum to zero; within [0, 100] for non-negative weights and ratings in [0, 5] |
| CareerData.SumWeightsNonNegative | src/services/career-data.ts:141-145 | non-negative weights have a non-negative sum |
| CareerData.TotalBounded | src/services/career-data.ts:146-151 | the weighted total lies between 0 and the weight sum for ratings in [0, 5] |
| CareerData.ScoreIgnoresOtherRatings | src/services/career-data.ts:147-149 | ratings of competencies the career does not require do not change its score |
| CareerData.MissingRatingCountsAsZero | src/services/career-data.ts:148 | leaving a competency unrated scores the same as rating it 0 |
| CareerData.ScoreMonotone | src/services/career-data.ts:146-151 | with non-negative weights, raising ratings never lowers the score |
| CareerData.ScoreAllFive | src/services/career-data.ts:146-151 | every required competency rated 5 scores exactly 100 |
| CareerData.ScoreEmptyProfile | src/services/career-data.ts:146-151 | an empty profile scores exactly 0 |
| CareerData.AutomationRiskFor | src/services/career-data.ts:248-453 | a risk entry exactly for the careers the table lists, and then the listed entry |
| CareerData.CompetencyNamesListed | src/services/career-data.ts:33-84 | the ten competency names, in catalog order |
| CareerData.CompetencyCatalogWellFormed | src/services/career-data.ts:33-128 | ten distinct competencies; the learning-path table has exactly their names, in order, each with a non-empty path list |
| CareerData.EveryCompetencyHasPath | src/services/career-data.ts:87-128 | every catalog competency has a non-empty learning-path entry |
| CareerData.CareerNamesListed | src/services/career-data.ts:157-245 | the six career names, in catalog order |
| CareerData.DataScientistWeightsWellFormed | src/services/career-data.ts:158-172 | distinct catalog competencies, each weight in (0, 1], summing to 1 |
| CareerData.SoftwareEngineerWeightsWellFormed | src/services/career-data.ts:173-187 | the same for Software Engineer |
| CareerData.UxDesignerWeightsWellFormed | src/services/career-data.ts:188-202 | the same for UX Designer |
| CareerData.CybersecuritySpecialistWeightsWellFormed | src/services/career-data.ts:203-216 | the same for Cybersecurity Specialist |
| CareerData.MachineLearningEngineerWeightsWellFormed | src/services/career-data.ts:217-230 | the same for Machine Learning Engineer |
| CareerData.TechEntrepreneurWeightsWellFormed | src/services/career-data.ts:231-244 | the same for Tech Entrepreneur |
| CareerData.DefaultCareersWellFormed | src/services/career-data.ts:157-245 | six careers with distinct names, each with well-formed weights |
| CareerData.AutomationRiskWellFormed | src/services/career-data.ts:248-453 | one risk entry per career in catalog order, percentages in [0, 100], complementary skills drawn from the competency names |
| CareerData.EveryCareerHasRisk | src/services/career-data.ts:248-453 | every default career has an automation-risk entry |
| CareerView.StartCreatingProfile | src/components/career-view.tsx:36-46 | an open, unnamed draft whose keys are exactly the catalog competencies in order, each rated 1 |
| CareerView.FreshDraftWellFormed | src/components/career-view.tsx:41-45 | the fresh draft has unique keys and only slider values |
| CareerView.CancelCreatingProfile | src/components/career-view.tsx:48-52 | the draft is closed and emptied |
| CareerView.UpdateRating | src/components/career-view.tsx:172-181 | a slider move keeps keys unique and in order, and keeps all ratings within 1..5 |
| CareerView.UpdateRatingChangesOnlyOne | src/components/career-view.tsx:172-181 | the moved competency reads the new value; every other competency reads as before |
| CareerView.SaveProfile | src/components/career-view.tsx:54-67 | a blank name changes nothing; otherwise the trimmed name and ratings are appended, the selection becomes the new last index, which reads that profile, and the draft closed |
| CareerView.ScoreAll | src/components/career-view.tsx:70-73 | one result per career, in catalog order, each with that career's own score |
| CareerView.Insert | src/components/career-view.tsx:74 | inserting into a descending list keeps it descending and adds exactly the element |
| CareerView.InsertIsStable | src/components/career-view.tsx:74 | an inserted element goes before the existing elements with its score |
| CareerView.SortByScore | src/components/career-view.tsx:74 | the result is descending by score and a permutation of the input |
| CareerView.SortIsStable | src/components/career-view.tsx:74 | for every score, the elements with that score keep their input order |
| CareerView.RankCareers | src/components/career-view.tsx:69-76 | min(limit, number of careers) results in non-increasing score order |
| CareerView.RankedAreScoredCareers | src/components/career-view.tsx:70-74 | each result is a catalog career paired with its own score |
| CareerView.RankedBeatTheRest | src/components/career-view.tsx:74-75 | the results are drawn from the scored catalog and outscore or tie every career left out |
| CareerView.RankedTiesInCatalogOrder | src/components/career-view.tsx:74-75 | among results with equal score, the careers are the first ones of the catalog with that score, in catalog order |
| CareerView.GetCareerRecommendations | src/components/career-view.tsx:69-76 | over the default catalog: min(limit, 6) results, in non-increasing order |
| CareerView.DefaultRecommendationsAreThree | src/components/career-view.tsx:69 | the default limit returns three careers |
| CareerView.LearningPathSuggestions | src/components/career-view.tsx:78-89 | a suggestion exactly for each rating below 3 with a non-empty catalog path list, carrying that list; never more suggestions than ratings |
| CareerView.SuggestionsOfOneRating | src/components/career-view.tsx:78-89 | one rating yields one suggestion if it is a gap and none otherwise, so with the order lemma each gap is suggested exactly once |
| CareerView.SuggestionsFollowRatingOrder | src/components/career-view.tsx:80 | suggestions come in the profile's entry order |
| CareerView.NoSuggestionsIffNoGap | src/components/career-view.tsx:78-89 | no suggestions exactly when no rating is a gap, e.g. a profile rated 3 or more everywhere |
| CareerView.GetLearningPathRecommendations | src/components/career-view.tsx:78-89 | every suggestion names a rated competency and has paths |
| CareerView.GapExample | src/components/career-view.tsx:78-89 | Creativity at 2 with a path is suggested and Leadership at 4 is not |
| LessonsView.LessonCatalogWellFormed | src/components/lessons-view.tsx:30-158 | five lessons, distinct ids, positive rewards, level at least 1, at least one question, answer indices within the options; 300 XP in all |
| LessonsView.UnlockedAtStart | src/components/lessons-view.tsx:169-171 | at level 1 exactly variables-1 and functions-1 are open |
| LessonsView.UnlockedStaysUnlocked | src/components/lessons-view.tsx:169-171 | no progress operation closes an open lesson |
| LessonsView.OnLessonComplete | src/components/lessons-view.tsx:256-262 | the lesson is completed and, if it was new, exactly its XP reward is gained (level, XP and threshold as addXP gives them); a known lesson changes no XP; first-five is requested exactly when four lessons were done before |
| LessonsView.OnLessonCompleteKeepsFirstFive | src/components/lessons-view.tsx:256-262 | completing a new lesson keeps first-five held exactly when at least five lessons are done, and keeps the state valid |
| LessonsView.InitialMatchesFirstFive | src/App.tsx:24-33 | the initial state satisfies the first-five rule |
| ChallengesView.ChallengeCatalogWellFormed | src/components/challenges-view.tsx:27-191 | five challenges, distinct ids, positive rewards, level at least 2, at least one test and one hint each; 480 XP in all |
| ChallengesView.LockedAtStart | src/components/challenges-view.tsx:202-204 | no challenge is open at level 1; at level 2 only challenge-1 is |
| ChallengesView.UnlockedStaysUnlocked | src/components/challenges-view.tsx:202-204 | no progress operation closes an open challenge |
| ChallengesView.OnChallengeComplete | src/components/challenges-view.tsx:299-304 | the challenge is completed and, if it was new, exactly its XP reward is gained; a known challenge changes no XP; challenge-master is requested exactly when two were done before |
| ChallengesView.OnChallengeCompleteKeepsBadges | src/components/challenges-view.tsx:299-304 | completing a new challenge keeps challenge-master in step with the count and leaves first-five in step |
| ChallengesView.OnLessonCompleteKeepsChallengeMaster | src/components/lessons-view.tsx:256-262 | completing a lesson never disturbs the challenge-master rule |
| LessonDialog.StartQuiz | src/components/lesson-dialog.tsx:106 | from learn, enters the quiz at question 0 with nothing counted; elsewhere nothing changes |
| LessonDialog.SelectAnswer | src/components/lesson-dialog.tsx:124-125 | an option can be chosen only on the quiz step while no result shows |
| LessonDialog.SubmitAnswer | src/components/lesson-dialog.tsx:36-47 | with a choice and no result shown: result shown, right answers counted once; otherwise nothing changes |
| LessonDialog.ResultTimeout | src/components/lesson-dialog.tsx:49-64 | advance to the next question with choice and result reset, or finish; XP is awarded exactly when the lesson was not completed and every answer was right |
| LessonDialog.RetakeQuiz | src/components/lesson-dialog.tsx:67-73 | back to question 0 of the quiz with nothing counted, awarding nothing |
| LessonDialog.LearnOnlyToQuiz | src/components/lesson-dialog.tsx:30-34 | the learn step is left only for the quiz, only by starting it, and changes no progress |
| LessonDialog.Step1 | src/components/lessons-view.tsx:252-262 | one dialog event keeps the dialog invariant and the progress valid; an award happens exactly when it newly completes the lesson |
| LessonDialog.AwardedAtMostOnce | src/components/lessons-view.tsx:252-262 | across any session, retakes included, a lesson's XP is awarded at most once, never if already completed |
| LessonDialog.AfterAwardNoMore | src/components/lesson-dialog.tsx:56 | once the lesson is completed no event awards or changes progress |
| LessonDialog.RightAnswerAwards | src/components/lesson-dialog.tsx:36-64 | start, right option, submit, timer: one award |
| LessonDialog.XpBadgeNeverShows | src/components/lesson-dialog.tsx:178 | as written, over any session from the start the "+XP Earned" badge never shows, because every all-right run has completed the lesson whose prop the badge reads |
| LessonDialog.IntendedBadgeFollowsAward | src/components/lesson-dialog.tsx:55-62 | the intended badge appears on an event exactly when that event awards the XP |
| LessonDialog.IntendedBadgeMeansAward | src/components/lesson-dialog.tsx:55-62 | over any session, the intended badge shows at the end only if XP was awarded in it |
| LessonDialog.RightAnswerBadges | src/components/lesson-dialog.tsx:176-181 | on the one-question happy path XP is awarded, the badge as written is hidden, the intended one shows |
| LessonDialog.WrongAnswerDoesNotAward | src/components/lesson-dialog.tsx:36-64 | start, wrong option, submit, timer: no award |
| ChallengeDialog.Decimal | src/components/challenge-dialog.tsx:51-52 | the test number is printed as decimal digits without a leading zero |
| ChallengeDialog.DecimalRoundTrip | src/components/challenge-dialog.tsx:51-52 | reading the printed digits back gives the number |
| ChallengeDialog.MessagesDistinguishTests | src/components/challenge-dialog.tsx:49-53 | different tests get different messages |
| ChallengeDialog.Open | src/components/challenge-dialog.tsx:31-34 | the dialog opens on the starter code with no results |
| ChallengeDialog.Edit | src/components/challenge-dialog.tsx:137 | typing replaces the code and keeps the results |
| ChallengeDialog.Reset | src/components/challenge-dialog.tsx:130 | reset restores the starter code and keeps the results |
| ChallengeDialog.RunTests | src/components/challenge-dialog.tsx:36-72 | one result per test case sharing the test runner's verdict, with its message; XP awarded exactly when all passed and the challenge was not completed |
| ChallengeDialog.BannerMatchesVerdict | src/components/challenge-dialog.tsx:237 | with test cases, the "Challenge Complete" banner shows exactly when the code passed, and whenever XP is awarded |
| ChallengeDialog.Step1 | src/components/challenges-view.tsx:292-305 | one event keeps the progress valid; an award happens exactly when it newly completes the challenge |
| ChallengeDialog.AwardedAtMostOnce | src/components/challenges-view.tsx:292-305 | across any session, retries included, a challenge's XP is awarded at most once, never if already completed |
| ChallengeDialog.AfterAwardNoMore | src/components/challenge-dialog.tsx:65-68 | once the challenge is completed no run awards or changes progress |
| ProgressDashboard.CompletionPercentage | src/components/progress-dashboard.tsx:13 | the level bar lies in [0, 100) while XP is below the threshold |
| ProgressDashboard.XpUntilNextLevel | src/components/progress-dashboard.tsx:38 | the XP still needed is at least 1 while XP is below the threshold |
| ProgressDashboard.BarAddsUp | src/components/progress-dashboard.tsx:13-38 | the filled and missing parts of the bar add up to 100% |
| ProgressDashboard.XpUntilNextLevelIsExact | src/components/progress-dashboard.tsx:38 | gaining exactly that much XP levels up once with nothing left over; less does not level up |
| ProgressDashboard.RankMonotone | src/components/progress-dashboard.tsx:98 | Novice below 5, Expert from 10, Apprentice between; a higher level never shows a lower rank |
| ProgressDashboard.TotalXpShown | src/components/progress-dashboard.tsx:104 | the shown total is at least the XP held from level 1 on |
| ProgressDashboard.ConsumedAtLeast | src/App.tsx:57-62 | k level-ups consume at least k times the first threshold t, strictly more for t ≥ 2 and k ≥ 2 |
| ProgressDashboard.TotalXpShownUndercounts | src/components/progress-dashboard.tsx:104 | on the level curve the shown total never exceeds the XP gained and equals it only up to level 2 |
| ProgressDashboard.TotalXpShownCounterexample | src/components/progress-dashboard.tsx:104 | 250 XP gained from the start shows as 200 |
| CharacterCard.CharacterEmoji | src/components/character-card.tsx:11-18 | non-wizards always get the same emoji; a wizard's varies with level |
| CharacterCard.WizardEmojiBands | src/components/character-card.tsx:12-16 | two levels give the same wizard emoji exactly when they lie in the same band: below 5, 5 to 9, 10 and up |
| CharacterCard.CharacterTitle | src/components/character-card.tsx:20-25 | the title is one of the four titles |
| CharacterCard.TitleMonotone | src/components/character-card.tsx:20-25 | the title never goes back with level and changes exactly at 5, 10 and 15 |
| CharacterCard.StatsOf | src/components/character-card.tsx:56-67 | Power, Wisdom and Focus are non-negative multiples of 10, 5 and 3 |
| CharacterCard.StatsMonotone | src/components/character-card.tsx:56-67 | Power, Wisdom and Focus are ordered exactly as level, lessons completed and streak are, each unit adding 10, 5 and 3 |
| CharacterCard.StatsFollowProgress | src/components/character-card.tsx:56-67 | a new lesson raises Wisdom by exactly 5 and never lowers Power; XP leaves Wisdom and Focus alone |
| ProfileView.FilterBadges | src/components/profile-view.tsx:61-62 | a badge is listed exactly when it is in the catalog and held (earned) or not held (locked) |
| ProfileView.EarnedAndLockedPartition | src/components/profile-view.tsx:61-62 | earned and locked split the catalog: sizes add up and each badge is in exactly one |
| ProfileView.FilterKeepsOrder | src/components/profile-view.tsx:61-62 | both lists keep catalog order |
| ProfileView.BadgeCatalogWellFormed | src/components/profile-view.tsx:11-54 | six badges with distinct ids, including first-five and challenge-master |
| ProfileView.ProgressPercentage | src/components/profile-view.tsx:57-59 | overall progress is non-negative and zero exactly when nothing is completed |
| ProfileView.NoLongerThanCatalog | src/components/profile-view.tsx:57-59 | a list without repeats drawn from a catalog is no longer than the catalog |
| ProfileView.ProgressAtMostHundred | src/components/profile-view.tsx:57-59 | with distinct catalog ids, progress is at most 100%, and exactly 100% when all ten are done |
| ProfileView.OtherBadgesStayLocked | src/components/profile-view.tsx:11-54 | the completion callbacks award only first-five and challenge-master, so the other four badges stay locked |

## Left out

- `src/services/chatbot.ts`, a network client for a language-model service, is not part of this model. Its career sort and below-3 filter repeat logic modelled from the career view.
- `src/components/chatbot-widget.tsx` is DOM and async UI and is not part of this model. `src/vite-env.d.ts` holds type declarations only.
- JSX, styling, toasts, and the open and close state of the dialogs are not modelled. The hint and solution toggles are not modelled either.
- The 1500 ms quiz timer is one atomic transition, `LessonDialog.ResultTimeout`.
- LessonDialog.Inv: the dialog invariant asks for at least one quiz question. The source would fail rendering the current question of an empty quiz (lesson-dialog.tsx:117), and every catalog lesson has a question (`LessonsView.LessonCatalogWellFormed`).
- React batching and stale closures are not modelled. Every callback acts atomically on the current state, and the dialogs read `isCompleted` from the current progress.
- ChallengeDialog.RunTests: the pass heuristic is a parameter `passes` on the code text. The source's own check passes code that contains `return` and whose lowercased, white-space-free form is longer than the raw starter code; the normalised solution it also computes is never used. It is a simulation, not grading.
- Free-text catalog content is dropped: descriptions, lesson explanations and examples, challenge problems and solutions, and automation-risk likelihood and strategies. Titles, ids, rewards, levels, quiz options and answers, test cases, hints, starter code and learning paths are kept.
- Display formatting is not modelled: `toFixed`, `Math.round` of the progress percentage, and progress-bar widths. Scores and percentages are `real`, not IEEE doubles.
- CareerView.RankedTiesInCatalogOrder: scores that tie in exact arithmetic can differ in the last bit as double-precision sums, for example for a profile rating every competency alike. The program then orders those careers by rounding error, not in catalog order; the model states the exact-arithmetic order only.
- CareerData.CompatibilityScore: the [0, 100] bound is stated for non-negative weights and ratings in [0, 5]. Outside that range the source promises nothing.
- Progression.Grow: `Math.floor(t * 1.5)` equals `t + t / 2` on doubles while 3t < 2^53 (t below about 3·10^15); above that the product can round up by one. The model uses unbounded naturals.
- CareerView.UpdateRating: the slider's range 1..5 is a precondition, because the slider component enforces it.
- The name input's change handler is not a separate operation. `CareerView.SaveProfile` reads the typed name from the draft.
- Badges no code awards (`first-lesson`, `level-five`, `perfect-score`, `week-streak`) get no unlock rule. `ProfileView.OtherBadgesStayLocked` shows they stay locked.
- Negative XP rewards are excluded: rewards and amounts are `nat`. The source does not check them.
- `streak` and `characterType` are carried but never changed, because no code changes them.
- Emoji and the check mark are Unicode code points, not UTF-16 code units.

## Findings

| source | as written | input that shows it | evidently intended | confidence | as-written member | corrected member |
|---|---|---|---|---|---|---|
| src/components/progress-dashboard.tsx:104 | "Total XP Earned" is `xp + (level - 1) * 100`; profile-view.tsx:67 uses the same formula. This prices every completed level at the first threshold, 100, while thresholds grow by half each level. | `addXP(250)` from the initial state: level 3, xp 0, shown total 200 | the XP actually gained, 250: the XP held plus every threshold consumed | medium; not executed | ProgressDashboard.TotalXpShownCounterexample | Progression.AddAllAccumulates |
| src/components/lesson-dialog.tsx:178 | The "+XP Earned" badge shows only when `!isCompleted`. The award at lines 56-57 calls `onComplete`, which completes the lesson (lessons-view.tsx:254-257), so the prop is already true when the complete step renders. | the first lesson answered all right: XP is awarded, the complete step shows no badge | the badge shows on the complete step of the run that earned the XP | medium; not executed | LessonDialog.XpBadgeNeverShows | LessonDialog.IntendedBadgeFollowsAward |
