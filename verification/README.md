# Space STEM learning app — quiz engine, course map and roles

A Dafny model of the core of a gamified space-themed learning app, written in
TypeScript/React. The model covers three parts of the app.

- **Quiz engine.** The three question variants: multiple choice, short answer
  and drag-and-drop. It covers the answer checker and the question component's
  view state, including input events, drops, the auto-submit effect and the
  submit button. It also covers the quiz screen's state machine: intro, start,
  answer, complete and restart. Finally it covers the performance message and
  the quiz selection page with its three shipped quiz sets.
- **Course map.** The shipped planets, lessons, achievements and progress
  record. It covers the lesson preview's aggregates, selection and button
  labels, and the planet card's completion share, locked state and click gate.
  It also covers the space-map dashboard's selection, star totals, recent
  achievements and journey percentage, and the rocket-fuel gauge's level
  arithmetic.
- **Roles.** The mock authentication service: login against three demo users,
  the stored session, logout, role-based access and the display name. It also
  covers the navigation bar's role-dependent items and its highlighting.

There is one module per source file:

| module | models |
|---|---|
| `Wrappers` | `Option`/`Result`, and the `NoDup` predicate on sequences |
| `Text` | `toLowerCase().trim()` |
| `Percent` | `Math.round(p / t * 100)` |
| `QuestionTypes` | `utils/questionTypes.ts` |
| `QuestionCheck` | `components/ui/Question.tsx` |
| `QuizSession` | `components/ui/Quiz.tsx` |
| `QuizPage` | `app/quiz/page.tsx` |
| `MockData` | `utils/mockData.ts` |
| `LessonPreview` | `components/ui/LessonPreview.tsx` |
| `PlanetCard` | `components/ui/PlanetCard.tsx` |
| `SpaceMap` | `app/space-map/page.tsx` |
| `ProgressBar` | `components/ui/ProgressBar.tsx` |
| `Navbar` | `components/ui/Navbar.tsx` |
| `Auth` | `utils/auth.ts` |

JavaScript's `null`, `undefined` and `NaN` become `Option` values. A thrown
`Error` becomes a `Result` failure. React state is an immutable record that
each handler maps to the next one. Clock readings and the time spent on a
question are parameters. Browser storage is an `Option<User>` that is passed in
and returned.

## Model

| member | source | states |
|---|---|---|
| QuestionCheck.Check | components/ui/Question.tsx:57-72 | Multiple choice is correct iff the chosen index is the correct one. Short answer is correct iff the typed text's normal form is among the accepted answers' normal forms. Drag-and-drop is correct iff every item is placed on its own target. An answer of the wrong variant is incorrect. |
| QuestionCheck.AcceptedIff | components/ui/Question.tsx:61-66 | Membership among the normalised accepted answers is equivalent to `some` accepted answer having the same normal form. |
| QuestionCheck.ShortAnswerAccepts | components/ui/Question.tsx:61-66 | A typed answer whose normal form equals the normal form of any accepted answer is accepted. |
| QuestionCheck.ShortAnswerRejects | components/ui/Question.tsx:61-66 | A typed answer whose normal form differs from every accepted answer's normal form is rejected. |
| QuestionCheck.EveryPlacedCorrectly | components/ui/Question.tsx:68-72 | `every` item's id is a key of the placement map and maps to its correct target. A missing key never matches. |
| QuestionCheck.CheckIgnoresExtraKeys | components/ui/Question.tsx:68-72 | Two placement maps that agree on the item ids give the same verdict, whatever else they hold. |
| QuestionCheck.CheckNeedsEveryPlacement | components/ui/Question.tsx:68-72 | Removing one item's placement, or moving it to a wrong target, makes the answer incorrect. |
| QuestionCheck.Submit | components/ui/Question.tsx:50-93 | A submit does nothing unless an answer is recorded and the question is still unanswered. Otherwise the result carries the question id, the checked verdict, the placement map for drag-and-drop (else the recorded answer), the full reward iff correct and 0 otherwise, and the supplied time. The view switches to answered/feedback. |
| QuestionCheck.SubmitAtMostOnce | components/ui/Question.tsx:51 | A second submit after a submission changes nothing and yields no result. |
| QuestionCheck.ChooseOption | components/ui/Question.tsx:220-223 | Clicking an option records it while unanswered, changes nothing once answered, and touches no other field. |
| QuestionCheck.TypeText | components/ui/Question.tsx:245-249 | Typing records the text while the field is enabled, changes nothing once answered, and touches no other field. Any text is recorded, whatever the field's kind. |
| QuestionCheck.DragStart | components/ui/Question.tsx:108-111 | The dragged item is recorded and nothing else changes. |
| QuestionCheck.Drop | components/ui/Question.tsx:117-128 | A non-empty item id is placed on the target while unanswered, other placements are kept, and the dragged item is cleared in every case. |
| QuestionCheck.AllPlaced | components/ui/Question.tsx:99 | True iff every item has a non-empty placement. |
| QuestionCheck.AutoSubmitTrigger | components/ui/Question.tsx:96-100 | The effect's condition: a drag-and-drop question, every item mapped to a non-empty target, not yet answered. `AutoSubmitTriggerExact` is its characterisation. |
| QuestionCheck.AutoSubmitTriggerExact | components/ui/Question.tsx:96-100 | The effect's condition holds iff the question is unanswered and every item is placed. One unplaced item keeps it off. |
| QuestionCheck.AutoSubmitEffect | components/ui/Question.tsx:96-105 | When the condition holds, the placement map becomes the recorded answer. Otherwise nothing changes. |
| QuestionCheck.SubmitEnabled | components/ui/Question.tsx:342-345 | The button is shown while unanswered and enabled unless the answer is null or empty text, or no drag-and-drop item is placed. `SubmitEnabledSubmits` is its partner. |
| QuestionCheck.SubmitEnabledSubmits | components/ui/Question.tsx:342-345 | Pressing the enabled submit button always produces a result. |
| QuestionCheck.DropAllKeepsAnswered | components/ui/Question.tsx:117-128 | A run of drops never changes whether the question is answered, nor the recorded answer. |
| QuestionCheck.DropAllPlacesEveryItem | components/ui/Question.tsx:117-128 | Dropping each item (with distinct, non-empty ids) on its declared target leaves every item mapped to that target. |
| QuestionCheck.CorrectPlacementAutoSubmitsCorrectly | components/ui/Question.tsx:96-105 | Correct placement of every item fires the effect. The Submit press that follows is marked correct and earns the full reward. |
| QuestionCheck.AutoSubmitTimerAsWritten | components/ui/Question.tsx:102 | The 500 ms callback runs the `handleSubmit` captured before the effect recorded the answer. It submits only if an answer was already recorded then. |
| QuestionCheck.AutoSubmitTimerSubmitsNothing | components/ui/Question.tsx:96-105 | On a fresh drag-and-drop question with every item placed, the effect fires and the stale timer submits nothing, while the submit button is enabled. |
| Text.LowerChar | components/ui/Question.tsx:63 | An ASCII capital moves 32 code points up to its small letter. Any other character is unchanged. Nothing upper-case remains and white space is preserved. |
| Text.Lower | components/ui/Question.tsx:63 | Same length, with each character lower-cased in place. |
| Text.TrimStart | components/ui/Question.tsx:63 | The result is the longest suffix not starting with white space, and everything dropped is white space. |
| Text.TrimEnd | components/ui/Question.tsx:63 | The result is the longest prefix not ending with white space, and everything dropped is white space. |
| Text.Trim | components/ui/Question.tsx:63 | `trim()` as `TrimEnd` after `TrimStart`. `TrimCleanEnds` and `TrimFixedPoint` state what it yields and when it changes nothing. |
| Text.TrimFixedPoint | components/ui/Question.tsx:63 | A string trims to itself iff neither end is white space. |
| Text.TrimCleanEnds | components/ui/Question.tsx:63 | A trimmed string has no white space at either end. |
| Text.Normalize | components/ui/Question.tsx:63-65 | The normal form has no upper-case letter and no white space at either end. |
| Text.NormalizeIdempotent | components/ui/Question.tsx:63-65 | Normalising an already normalised answer changes nothing. |
| Text.NormalizeClean | components/ui/Question.tsx:63-65 | A string without capitals or outer white space is its own normal form. |
| QuestionTypes.MaxXP | components/ui/Quiz.tsx:172-174 | `reduce((sum, q) => sum + q.xpReward, 0)` as a left fold. `MaxXPPrefix` bounds it and the shipped sets are summed against it. |
| QuestionTypes.MaxXPPrefix | components/ui/Quiz.tsx:172-174 | With non-negative rewards, the XP advertised by a prefix of a quiz lies between 0 and the whole quiz's maximum. |
| QuestionTypes.MockQuestionsWellFormed | utils/questionTypes.ts:65-119 | The shipped bank is well formed. Each question has a positive reward, an in-range correct option, distinct item and target ids, item targets that exist, and at least one accepted answer. Question ids are distinct. |
| QuestionTypes.MockQuestionsMaxXP | utils/questionTypes.ts:65-119 | The shipped bank advertises 115 XP. |
| QuizSession.Init | components/ui/Quiz.tsx:42-50 | The quiz starts at question 0 with zero score, zero XP and no results. It is not complete, counts all questions and is stamped with the given time. |
| QuizSession.Restart | components/ui/Quiz.tsx:101-112 | Restarting yields the initial state, whatever the prior state was. |
| QuizSession.RestartForgetsPrior | components/ui/Quiz.tsx:101-112 | Two restarts of different runs are identical, show the intro and satisfy the state invariant. |
| QuizSession.IsIntro | components/ui/Quiz.tsx:115 | The intro test: index 0 and no results. `IntroIffUnplayed` characterises it on consistent states. |
| QuizSession.IntroIffUnplayed | components/ui/Quiz.tsx:115 | On a consistent state, the intro is shown iff no answer is recorded and the quiz is not complete. Then score and XP are 0. |
| QuizSession.Start | components/ui/Quiz.tsx:184 | Start sets index 0 and the given start time, and keeps results, score, XP, completion and the question count. So a state on the intro stays on the intro. |
| QuizSession.StartOnlyRestamps | components/ui/Quiz.tsx:184 | On the intro screen, Start changes only the start time, so the intro test still holds afterwards. |
| QuizSession.NewSession | components/ui/Quiz.tsx:42-50 | A fresh session shows the intro over the initial state. |
| QuizSession.SessionStart | components/ui/Quiz.tsx:184 | The corrected Start leaves the intro and changes the quiz state exactly as the source's Start does. |
| QuizSession.SessionAnswer | components/ui/Quiz.tsx:57-82 | Answering in a session never changes whether the intro is shown, and agrees with `Answer`. |
| QuizSession.SessionRestart | components/ui/Quiz.tsx:101-112 | "Take Again" returns to the intro of a fresh run. |
| QuizSession.SessionStartLeavesIntro | components/ui/Quiz.tsx:115 | On a fresh quiz the corrected Start leaves the intro, the as-written Start does not, and both leave the same quiz state. |
| QuizSession.Answer | components/ui/Quiz.tsx:57-82 | The result is appended. Score rises by 1 iff it is correct and XP rises by its XP. On the last question the quiz completes, the index stays put and the full results are reported with the score. Otherwise the index advances and nothing is reported. |
| QuizSession.AnswerPreservesConsistent | components/ui/Quiz.tsx:57-82 | Answering the displayed question preserves the invariant. Score counts correct results, XP sums the earned XP, and results line up with the questions before the index (all of them once complete). |
| QuizSession.ReplayConsistent | components/ui/Quiz.tsx:57-82 | Answering `k <= n` questions from a fresh start keeps the invariant, records exactly those results with their count and XP, and completes iff `k == n`. |
| QuizSession.EarnedAtMostAdvertised | components/ui/Quiz.tsx:172-174 | With non-negative rewards, the XP earned on the answered questions never exceeds what those questions advertise. |
| QuizSession.CompletedXpAtMostMax | components/ui/Quiz.tsx:57-82 | After all questions are answered the quiz is complete, and its XP lies between 0 and the advertised maximum. |
| QuizSession.CompletionReport | components/ui/Quiz.tsx:71-74 | Answering the last question reports every result in order with the number of correct ones. |
| QuizSession.PerformanceFor | components/ui/Quiz.tsx:93-99 | With questions, the message is Outstanding iff the unrounded accuracy `score / n * 100` is at least 90. It is Great job iff the accuracy is in [70, 90), Not bad iff in [50, 70), and Keep learning iff below 50. With no questions the accuracy is infinite or NaN, giving Outstanding iff the score is positive and Keep learning otherwise. |
| QuizSession.PerformanceMonotone | components/ui/Quiz.tsx:93-99 | A higher score never gets a worse message. All correct is Outstanding and none correct is Keep learning. |
| QuizSession.BandUsesExactRatio | components/ui/Quiz.tsx:85-99 | 179 of 200 shows a rounded accuracy of 90% yet gets "Great job", because the bands compare the unrounded ratio. |
| Percent.RoundedPercent | components/ui/Quiz.tsx:87 | There is no value iff the denominator is 0. The value is the whole number nearest `100p/t`, with halves rounded up. For `p <= t` it is at most 100, and it is 100 iff `200p >= 199t`. It is 0 when `p` is 0. |
| Percent.RoundedPercentMonotone | components/ui/Quiz.tsx:87 | Over the same denominator, a larger numerator never rounds to a smaller percentage. |
| Percent.RatioAtLeast | components/ui/Quiz.tsx:94-97 | The unrounded percentage reaches a threshold `b` iff `100p >= b*t`, so the bands can be compared in integers. |
| QuizPage.RocketScienceWellFormed | app/quiz/page.tsx:44-97 | The Rocket Science questions are well formed. |
| QuizPage.RocketScienceMaxXP | app/quiz/page.tsx:44-97 | The literal 105 XP of Rocket Science is the sum of its rewards. |
| QuizPage.SpaceMathWellFormed | app/quiz/page.tsx:98-132 | The Space Mathematics questions are well formed, and the literal 95 XP is the sum of their rewards. |
| QuizPage.QuizSetsWellFormed | app/quiz/page.tsx:32-133 | Every shipped set is well formed and advertises exactly the sum of its rewards. |
| QuizPage.QuizSetsDistinct | app/quiz/page.tsx:32-133 | Set ids are distinct, and so are set titles. |
| QuizPage.FindByTitle | app/quiz/page.tsx:142 | `find` returns a set with that title, or there is none. |
| QuizPage.FindByOwnTitle | app/quiz/page.tsx:142 | With distinct titles, looking up a set's own title finds that set. |
| QuizPage.HandleQuizStart | app/quiz/page.tsx:135-138 | The chosen set's questions become active under its title, and the completed list is untouched. |
| QuizPage.HandleQuizExit | app/quiz/page.tsx:151-154 | No quiz is active and the title is empty, and the completed list is untouched. |
| QuizPage.HandleQuizComplete | app/quiz/page.tsx:140-149 | The completed list only grows, by at most one id, and stays duplicate-free. Anything added is the id of the set carrying the active title. The logged total is the sum of the XP earned. |
| QuizPage.CompletePreservesInvariant | app/quiz/page.tsx:140-149 | Completing keeps the completed list a duplicate-free list of shipped set ids. |
| QuizPage.InvariantBoundsCompleted | app/quiz/page.tsx:140-149 | Under that invariant, no more sets are completed than are shipped. |
| QuizPage.StartThenCompleteMarksSet | app/quiz/page.tsx:135-149 | Starting a shipped set and then completing it marks that set completed. |
| QuizPage.EscapeVelocityAnswers | app/quiz/page.tsx:63-69 | The escape-velocity question has a number field. Of what that field can hand over, "11" is accepted and "11.0" is rejected, because the comparison is textual. The checker alone would also accept " Eleven ", which the number field cannot produce. |
| MockData.MockPlanetsOk | utils/mockData.ts:53-317 | In every shipped planet, the XP and star totals are the sums over its lessons. Every lesson's flags, progress and stars are consistent. A locked planet has only locked lessons. |
| MockData.MockRequirementsOk | utils/mockData.ts:53-317 | Every requirement names an existing planet with a smaller id, so the graph is acyclic. Every unlocked planet has its required planets completed. |
| MockData.MockProgressOk | utils/mockData.ts:319-367 | The progress record counts 8 planets, 2 of them completed, as the planet list does. Every earned achievement has a date, and the fuel is a percentage. |
| MockData.PlanetById | utils/mockData.ts:16 | The lookup of a required id returns a planet with that id, or there is none. |
| LessonPreview.CompletedLessons | components/ui/LessonPreview.tsx:29 | The count is at most the number of lessons. It equals it iff all are completed, and is 0 iff none is. |
| LessonPreview.TotalStarsEarned | components/ui/LessonPreview.tsx:30 | The reduce-sum of stars earned. On consistent lessons it lies between 0 and the stars on offer. |
| LessonPreview.TotalXP | components/ui/LessonPreview.tsx:31 | The reduce-sum of XP over completed lessons. It is 0 when no lesson is completed, and never negative with non-negative rewards. |
| LessonPreview.TotalXPBounds | components/ui/LessonPreview.tsx:31 | With non-negative rewards, the XP earned lies between 0 and the sum of all rewards, and equals that sum when every lesson is completed. |
| LessonPreview.StarsBounds | components/ui/LessonPreview.tsx:30 | On consistent lessons, the stars earned lie between 0 and the maximum, and reach it iff every lesson has full stars. |
| LessonPreview.StarCollector | components/ui/LessonPreview.tsx:324 | On a consistent planet, the `>=` test holds iff the stars earned equal the total exactly, since they never exceed it. |
| LessonPreview.StarCollectorIffAllStars | components/ui/LessonPreview.tsx:324 | On a consistent planet the Star Collector card is lit iff every lesson has all its stars. |
| LessonPreview.SelectLesson | components/ui/LessonPreview.tsx:174 | Only an unlocked lesson opens the modal. A locked one changes nothing. |
| LessonPreview.CloseModal | components/ui/LessonPreview.tsx:362 | The selection is cleared. |
| LessonPreview.StartFromModal | components/ui/LessonPreview.tsx:410-413 | The selection is cleared, and the lesson handed over is the one that was selected. |
| LessonPreview.StartFromCard | components/ui/LessonPreview.tsx:269-283 | A card's start button exists iff its lesson is unlocked, and hands over that lesson. |
| LessonPreview.OnlyUnlockedLessonsStart | components/ui/LessonPreview.tsx:174 | No handler selects a locked lesson, and every start hands over an unlocked one. |
| LessonPreview.ActionLabel | components/ui/LessonPreview.tsx:285 | The label is one of the four texts of lines 285 and 415. A card never says "Continue Lesson" and the modal never says "Continue". |
| LessonPreview.ActionLabelStates | components/ui/LessonPreview.tsx:285 | "Review Lesson" appears iff the lesson is completed. "Start Lesson" appears iff it is uncompleted with no progress. The card's "Continue" matches the modal's "Continue Lesson" (line 415). |
| LessonPreview.LunaStationPreview | components/ui/LessonPreview.tsx:306-334 | Luna Station has 2 of 3 lessons completed yet counts as completed. It shows 75 of 110 XP and 7 stars, Star Collector is off, and its unfinished lesson offers "Continue". |
| PlanetCard.CompletionPercent | components/ui/PlanetCard.tsx:28-29 | There is no value iff the planet has no lessons. The share lies between 0 and 100, is 100 iff all lessons are completed, and is 0 iff none is. |
| PlanetCard.View | components/ui/PlanetCard.tsx:32-34 | A card is clickable iff the planet is unlocked, and locked otherwise. The lock overlay appears iff locked. The progress ring and floating stars appear iff unlocked. The info card shows iff hovered and unlocked. The button says "Review Planet" iff the planet is completed, else "Explore Planet". |
| PlanetCard.HandleClick | components/ui/PlanetCard.tsx:36-40 | The handler receives the planet iff the card is clickable and a handler was given. |
| PlanetCard.LockedCardIsInert | components/ui/PlanetCard.tsx:159-206 | A locked card never shows its info card or ring, and never reaches the handler, whatever the hover state. |
| PlanetCard.MockCards | components/ui/PlanetCard.tsx:271 | Earth's ring is full and Luna's is two-thirds full, and both offer Review. Mars is one-third full and offers Explore. Jupiter is locked and ignores clicks. |
| SpaceMap.HandlePlanetClick | app/space-map/page.tsx:19-23 | An unlocked planet opens its preview. A locked one changes nothing. |
| SpaceMap.HandleBackToMap | app/space-map/page.tsx:25-27 | The preview is closed. |
| SpaceMap.SelectionStaysUnlocked | app/space-map/page.tsx:19-27 | Both handlers keep the open preview on an unlocked planet. The card's click gate and the map's agree. |
| SpaceMap.ClicksKeepSelectionUnlocked | app/space-map/page.tsx:19-27 | Any run of clicks and back presses keeps the open preview on an unlocked planet. |
| SpaceMap.TotalStars | app/space-map/page.tsx:136 | `reduce((sum, planet) => sum + planet.starsEarned, 0)`. `TotalStarsBounded` bounds it and `MockTotalStars` evaluates it. |
| SpaceMap.TotalStarsBounded | app/space-map/page.tsx:136 | Over consistent planets, the total stars earned lie between 0 and the stars on offer. |
| SpaceMap.MockTotalStars | app/space-map/page.tsx:136 | The shipped map shows 18 stars earned out of 73 on offer. |
| SpaceMap.Earned | app/space-map/page.tsx:155 | `filter(a => a.earned)`. It is never longer than the input. `EarnedMembers` and `EarnedAppend` characterise it. |
| SpaceMap.EarnedMembers | app/space-map/page.tsx:155 | The filter keeps exactly the earned achievements. |
| SpaceMap.EarnedAppend | app/space-map/page.tsx:155 | The filter keeps order: filtering a concatenation concatenates the filtered parts. |
| SpaceMap.LastThree | app/space-map/page.tsx:156 | `slice(-3)` keeps the last `min(3, n)` elements, and they are a suffix of the input. |
| SpaceMap.RecentAchievements | app/space-map/page.tsx:154-156 | At most three achievements are listed, all earned and from the list. They are the last ones of the earned list, and the list is as long as the earned list allows. |
| SpaceMap.NewlyEarnedIsShown | app/space-map/page.tsx:154-156 | An achievement earned last is always listed last. |
| SpaceMap.MockRecentAchievements | app/space-map/page.tsx:154-156 | The shipped sidebar lists achievements 2 to 4. "First Steps" is pushed out and the unearned "Star Collector" never appears. |
| SpaceMap.JourneyPercent | app/space-map/page.tsx:302 | There is no value iff there are no planets. It is at most 100 when the completed count does not exceed the total, 100 when all planets are done, and 0 when none is. |
| SpaceMap.JourneyMonotone | app/space-map/page.tsx:302 | With the same number of planets, completing more never lowers the journey percentage. |
| SpaceMap.MockJourney | app/space-map/page.tsx:302 | The shipped journey is 25%. |
| ProgressBar.XpRemainder | components/ui/ProgressBar.tsx:28 | The truncating remainder takes the dividend's sign, lies within one level of 0, and differs from the XP by whole levels. |
| ProgressBar.ProgressPercentage | components/ui/ProgressBar.tsx:28 | For non-negative XP the bar is in [0, 100), and it is a tenth of the remainder. |
| ProgressBar.LevelProgressShown | components/ui/ProgressBar.tsx:191 | The tile is the whole percent nearest the remainder's share, at most 100, and is 100 iff the remainder is at least 995. |
| ProgressBar.NextLevelXP | components/ui/ProgressBar.tsx:29 | A whole number of levels, and exactly where the next level starts. |
| ProgressBar.CurrentLevelXP | components/ui/ProgressBar.tsx:30 | A whole number of levels: 0 for level 1 and never negative from there. |
| ProgressBar.XpInCurrentLevel | components/ui/ProgressBar.tsx:31 | The in-level XP is in [0, 1000) iff the total lies in the level's span. |
| ProgressBar.LevelSpan | components/ui/ProgressBar.tsx:29-31 | A level spans 1000 XP. The in-level XP is in range iff the total lies within the level's span. |
| ProgressBar.LevelMatchesXp | components/ui/ProgressBar.tsx:28-31 | The in-level text agrees with the bar's remainder iff the level is the one the XP implies. |
| ProgressBar.PlanetsLeft | components/ui/ProgressBar.tsx:201 | The count is non-negative iff completed does not exceed the total, and it adds back to the total. |
| ProgressBar.CountUncompleted | components/ui/ProgressBar.tsx:201 | Uncompleted plus completed planets make up all planets. |
| ProgressBar.PlanetsLeftCountsUncompleted | components/ui/ProgressBar.tsx:201 | For a consistent progress record, "Planets Left" is the number of uncompleted planets, and it is non-negative. |
| ProgressBar.GaugeAsWritten | components/ui/ProgressBar.tsx:28-31 | The gauge as written: in-level XP is counted from the record's own level, the bar from the remainder. |
| ProgressBar.MockGaugeDisagrees | components/ui/ProgressBar.tsx:29-31 | With the shipped record the bar is 31% while the text reads -1690 XP and 6 planets are left, because level 3 is not the level 310 XP implies. |
| ProgressBar.LevelFor | components/ui/ProgressBar.tsx:28-31 | The level derived from the XP is at least 1, and its span contains the XP. |
| ProgressBar.GaugeCorrected | components/ui/ProgressBar.tsx:28-31 | With the derived level, the in-level XP lies in [0, 1000) and is ten times the bar's percentage, and the XP still to go is the rest of the level. |
| ProgressBar.MockGaugeCorrected | components/ui/ProgressBar.tsx:28-31 | The shipped record is at level 1 with 310 XP in the level. |
| Navbar.NavItems | components/ui/Navbar.tsx:24-39 | Home and Learn come first. Teacher appears iff the user is a teacher. Profile appears iff someone is signed in, and then comes last. The bar has 2, 3 or 4 items with distinct hrefs. |
| Navbar.IsActive | components/ui/Navbar.tsx:70 | `pathname === item.href`. `AtMostOneActive` and `NavHighlightsAtMostOne` state that it singles out at most one item. |
| Navbar.AtMostOneActive | components/ui/Navbar.tsx:70 | With distinct hrefs, no two items are highlighted at once. |
| Navbar.NavHighlightsAtMostOne | components/ui/Navbar.tsx:70 | For every user and path, at most one item is highlighted. |
| Navbar.NavAfterSession | components/ui/Navbar.tsx:24-39 | After logout only Home and Learn remain. The demo teacher sees four items and a demo student three. |
| Auth.FindByEmail | utils/auth.ts:56 | The lookup returns a demo user with that email, or none has it. |
| Auth.Login | utils/auth.ts:53-71 | An unknown email fails with "User not found" whatever the password. A known one with fewer than 3 characters fails with "Invalid password". Success happens iff the email is known and the password long enough. It returns that user and stores it, and failures leave the store alone. |
| Auth.GetCurrentUser | utils/auth.ts:74-81 | The slot read back: a user iff one is stored, and then exactly the stored one. Serialisation round-trips. |
| Auth.IsAuthenticated | utils/auth.ts:89-91 | Someone is signed in iff a user is stored. |
| Auth.Logout | utils/auth.ts:84-86 | Nobody is signed in afterwards. |
| Auth.RequireAuth | utils/auth.ts:100-112 | Access requires a signed-in user. With no role list that suffices. With a list, access holds iff the user's role is in it, so an empty list admits nobody. |
| Auth.RequireAuthMonotone | utils/auth.ts:100-112 | Widening the role list never revokes access. No list admits whoever any list admits. Listing both roles is the same as no list. |
| Auth.FormatUserName | utils/auth.ts:115-117 | The avatar text ("undefined" when missing), then one space, then the name. |
| Auth.MockEmailsDistinct | utils/auth.ts:21-46 | The demo emails are distinct, so each demo user is found by their own email. |
| Auth.SessionRoundTrip | utils/auth.ts:53-91 | After a successful login the session returns the same user, who passes `requireAuth` with no list and with their own role. After logout nobody passes. |
| Auth.FailedLoginKeepsSession | utils/auth.ts:56-65 | A failed login leaves an existing session as it was. |
| Auth.DemoAccounts | utils/auth.ts:21-71 | The demo teacher logs in and may open teacher pages, and a student may not. A 2-character password and an unknown email are refused. The teacher is shown with their avatar before their name. |

## Left out

- Text.Normalize: lower-casing and trimming are ASCII-only. `toLowerCase` and `trim` act on all Unicode letters and white space.
- QuestionCheck.TypeText: records any text. A number field (Question.tsx:245) hands over only a valid numeric string or "". That filtering is the browser's, and the model does not restrict the text by the field's kind.
- Auth.Login: the password length counts code points. JavaScript counts UTF-16 units, so two astral emoji make a length of 4 there and 2 here.
- Percent.RoundedPercent: this rounds the exact rational `100p/t`. The source rounds a double, which can fall just below a half. `23 / 40 * 100` is 57.49999999999999, which shows 57, where the model gives 58.
- ProgressBar.ProgressPercentage: this is the exact rational remainder/10, not the double the source computes.
- ProgressBar.LevelProgressShown: this rounds the exact rational. For remainders 145, 285, 565 and 575, the source's doubles show one less.
- PlanetCard.CompletionPercent: this is the exact rational share, not a double. The progress-ring offset drawn from it (PlanetCard.tsx:184-187) is left out.
- SpaceMap.JourneyPercent: this requires non-negative counts, which every progress record has. The source would also divide negative numbers. The fuel-bar width (space-map/page.tsx:127) is a float and is left out.
- QuizSession.Answer: the 100 ms delay before advancing is merged into one atomic step. The source also reads the `quizState` captured at the click rather than the latest one; with one answer in flight at a time the two agree.
- QuestionCheck.Submit: the 2500 ms delay before `onAnswer` and `Date.now()` are left out. The elapsed time is a parameter.
- The quiz's total and average times (Quiz.tsx:85-91) read the clock and are left out. The accuracy is `Percent.RoundedPercent`.
- `localStorage`, JSON (de)serialisation with its `catch`, and the simulated 1000 ms delay (auth.ts:48-77) are left out. The store is a value passed in and out.
- `getSampleUsers`, `AuthState` and `isLoading` only expose data or loading flags, so they are left out.
- Question explanations and placeholders, and lesson descriptions and durations, are display-only and left out. So are planet positions, icons, colours, animations and layout.
- The quiz page's emoji literals appear in the source as UTF-8 bytes read as Latin-1. The model uses the intended characters.
- `handleStartLesson` on the space map only logs, and is left out. So are the login form, the PWA helpers, the root layout and the static pages.

## Findings

| source | as written | input that shows it | evidently intended | confidence | as-written member | corrected member |
|---|---|---|---|---|---|---|
| components/ui/Quiz.tsx:184 | Start sets the index to 0 and re-stamps the time. The intro test at line 115 (index 0 and no results) still holds, so the intro screen is shown again. | any fresh quiz, pressing Start | Start leaves the intro and shows question 1 | high, not executed | QuizSession.StartOnlyRestamps | QuizSession.SessionStartLeavesIntro |
| components/ui/ProgressBar.tsx:30-31 | In-level XP is total XP minus `(level - 1) * 1000`, using the record's own level | the shipped record, 310 XP at level 3: "-1690 / 1000 XP" next to a 31% bar | the in-level XP matches the bar, with the level derived from the XP | high, not executed | ProgressBar.MockGaugeDisagrees | ProgressBar.GaugeCorrected |
| components/ui/Question.tsx:102 | The timer runs the `handleSubmit` of the render that scheduled it. There `userAnswer` is still null, so it returns at line 51, and the effect does not re-run because line 105 omits `userAnswer`. | any drag-and-drop question with every item placed | all items placed submits the placements automatically | medium, not executed | QuestionCheck.AutoSubmitTimerSubmitsNothing | QuestionCheck.CorrectPlacementAutoSubmitsCorrectly |
