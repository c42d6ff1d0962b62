# RadLadder in Dafny

A model of the game logic of RadLadder, a radiology quiz in which a player
climbs a ten-rung ladder. The player starts on rung 3. A correct answer
climbs one rung and a wrong one drops two. A player reaching rung 10 has won
and is placed on a leaderboard ranked by total time.

The model covers:

- The `GameScreen` session: its state, every handler, and the countdown.
- The database helpers in `supabaseClient.js`. These work on in-memory tables:
  - questions per rung, without repeats until the rung runs out;
  - answer statistics;
  - the audience percentages;
  - the leaderboard query.
- What the presentational components derive from their props:
  - the ladder's labels, shading, lifelines and pass icons;
  - the question panel's image carousel, submit guard and enabled buttons;
  - the feedback message;
  - the audience chart;
  - the end screen's clock, title and accuracy;
  - the leaderboard's clock, medals and placeholder;
  - the name form;
  - the screen switch of `App`.

Form:

- Components that update their own state in place are classes whose fields
  are the `useState` variables:
  - `GameScreen.GameSession`;
  - `QuestionDisplay.QuestionPanel`;
  - `NameEntry.NameForm`;
  - `App.AppState`;
  - `AnswerStats.StatsStore`, the statistics table that `updateAnswerStats` changes.
- Every `GameSession` method is proved against a transition function of
  module `Session`. It ensures `State() == Graded(old(State()), …)`, or
  `Loaded`, `Passed` and so on. It also keeps the invariant `Session.Inv`.
- The rules of the game are proved as lemmas about those functions, and about
  any sequence of events (`Session.Run`). An event runs only on the screen that
  offers it (`Session.Enabled`):
  - the start runs once, from the initial state;
  - answers, passes and lifelines run on the question screen;
  - closing the audience modal runs while the modal is open;
  - "next" runs on the feedback screen;
  - the countdown guards itself;
  - an answer event carries only the selection, and `Session.Grade` grades it
    as the screen does: a letter against `correct_answer`, a timeout as wrong;
  - nothing runs after the player has been sent home.
- Pure derivations (labels, rounding, formatting, queries) are functions, with
  lemmas that relate them to the session or to an inverse.

Inputs from outside become parameters:

- Wall-clock readings become `timeTaken` and `totalTime`, in seconds.
- `Math.random()` becomes a `pick` index, taken modulo the pool size.
- A failed query becomes a `fails` flag: the question queries, the audience query and the statistics write. `askFails` and `statsFails` are the last two as event and method parameters.
- A failed `createGameSession` becomes `created == false`.
- "One week ago" becomes `weekAgo`.
- `alert` followed by `onBackHome()` inside `GameScreen` is the flag `returnedHome`.

## Model

| member | source | states |
|---|---|---|
| Rules.NextRungOnLadder | src/components/GameScreen.jsx:137-144 | A graded answer never takes the player off rungs 1-10. |
| Rules.NextRungMovement | src/components/GameScreen.jsx:137-144 | A correct answer climbs exactly one rung, capped at 10. A wrong one never climbs and falls by the drop (2, or 1 under the safety net), stopped at rung 1. |
| Rules.SafetyNetSoftensDrop | src/components/GameScreen.jsx:142 | The safety net never makes a wrong answer cost more. It costs strictly less above rung 2. |
| Rules.TimeLimitNonIncreasing | src/components/GameScreen.jsx:84-88 | Higher rungs never allow more time. Every rung allows between 20 and 30 seconds. |
| Rules.PointsNonDecreasing | src/components/GameScreen.jsx:169-174 | Higher rungs never pay less. Every correct answer pays between 10 and 100 points. |
| Rules.StreakClimbs | src/components/GameScreen.jsx:139-140 | `n` correct answers in a row climb `n` rungs, capped at 10. |
| Rules.SevenCorrectFromStartWin | src/components/GameScreen.jsx:18 | From rung 3, seven correct answers reach rung 10 and no shorter streak does. |
| QuestionBank.Unasked | src/supabaseClient.js:12-19 | The first query returns exactly the questions of the rung whose ids have not been asked. |
| QuestionBank.Pool | src/supabaseClient.js:26-29 | The fallback query returns exactly the questions of the rung. |
| QuestionBank.PicksUnaskedWhileAvailable | src/supabaseClient.js:10-43 | While the rung has an unasked question, the pick is an unasked question of that rung from the table. |
| QuestionBank.RepeatsWhenExhausted | src/supabaseClient.js:24-35 | Once every question of the rung has been asked, an already-asked question of the rung is returned. |
| QuestionBank.ResultIsFromRung | src/supabaseClient.js:10-43 | Any question returned is of the requested rung. There is none exactly when the query failed or the rung is empty. |
| QuestionBank.EveryUnaskedQuestionReachable | src/supabaseClient.js:38 | Every unasked question of the rung can be chosen by some random pick. |
| Percent.RoundedPercent | src/supabaseClient.js:169-172 | `Math.round(count / total * 100)` on integers: within half a point of the exact percentage, and at most 100 when count ≤ total. |
| Percent.RoundedPercentUnique | src/supabaseClient.js:169-172 | The rounded percentage is the only whole number within half a point. |
| AnswerStats.Bumped | src/supabaseClient.js:127-137 | An existing row gains one attempt and one vote for the chosen option. The other options are unchanged. |
| AnswerStats.FirstRow | src/supabaseClient.js:138-148 | A first answer creates a row with one attempt and one vote, for the chosen option only. |
| AnswerStats.AfterUpdateKeepsConsistency | src/supabaseClient.js:109-153 | `updateAnswerStats` touches only the answered question's row. It ignores answers without a column, such as 'T', and keeps the option counts summing to the attempts. |
| AnswerStats.StatsStore.UpdateAnswerStats | src/supabaseClient.js:109-153 | The in-place update leaves the table equal to `AfterUpdate` of the old table, or unchanged when the write fails, and keeps it consistent. |
| AnswerStats.AudienceStatsMeaning | src/supabaseClient.js:155-179 | There are statistics exactly when the query succeeds and the question has at least ten attempts. Each figure is then that option's share, rounded to the nearest percent; the total is the attempt count; every figure is ≤ 100 for a consistent row. |
| AnswerStats.TenAnswersUnlockAudience | src/supabaseClient.js:163 | Ten recorded answers on a fresh question unlock the audience when the query succeeds. |
| AnswerStats.AttemptsAfterAll | src/supabaseClient.js:127-148 | Each answer with a column adds exactly one attempt to the question's row. |
| Session.CountsPartitionLog | src/components/GameScreen.jsx:128-135 | Every recorded answer counts as either correct or wrong. |
| Session.AppendRecord | src/components/GameScreen.jsx:118-135 | Recording an answer adds its correctness, and the points for its rung, to the log's totals. |
| Session.GradedInSteps | src/components/GameScreen.jsx:112-167 | `handleAnswer` is, in order: log the answer, count it, show feedback on the new rung, complete at rung 10. |
| Session.InitialInv | src/components/GameScreen.jsx:17-44 | The initial state satisfies the session invariant: on rung 3, two passes, nothing answered. |
| Session.LoadedKeepsInv | src/components/GameScreen.jsx:63-82 | Loading a question below rung 10 keeps the invariant. Questions are only shown below the top. |
| Session.InitializedKeepsInv | src/components/GameScreen.jsx:51-61 | Starting the game keeps the invariant. |
| Session.GradedKeepsInv | src/components/GameScreen.jsx:112-167 | Grading an answer keeps the invariant. Afterwards the counters and score are the totals of the answer log, and the rung stays on the ladder within reach of the correct count. |
| Session.TickedKeepsInv | src/components/GameScreen.jsx:91-105 | A tick of the countdown keeps the invariant. |
| Session.NextQuestionKeepsInv | src/components/GameScreen.jsx:176-182 | Moving on from feedback keeps the invariant. |
| Session.PassedKeepsInv | src/components/GameScreen.jsx:184-190 | A pass from the question screen keeps the invariant, so passes stay between 0 and 2. |
| Session.LifelinesKeepInv | src/components/GameScreen.jsx:192-212 | Ask-the-audience, closing its modal and the safety net keep the invariant. |
| Session.TotalIsCorrectPlusWrong | src/components/GameScreen.jsx:128-135 | In every reachable state, total questions = correct + wrong. |
| Session.TopNeedsSevenCorrect | src/components/GameScreen.jsx:164 | Standing on rung 10 implies at least seven correct answers. |
| Session.GradedRules | src/components/GameScreen.jsx:112-161 | The full effect of grading: rung movement, as in `NextRungMovement`; the safety net cleared and the timer stopped; total +1, plus exactly one of correct/wrong (each iff the answer's correctness); score and feedback points gain the rung's points only when correct; the answer row appended; passes, lifelines and asked ids untouched. |
| Session.GradedCompletion | src/components/GameScreen.jsx:160-166 | Rung 10 is reached exactly by a correct answer on rung 9. The completion summary then holds the counters and score after that answer, and `completed` is set. No other answer touches the summary. |
| Session.WinningAnswerFollowsCorrectOne | src/components/GameScreen.jsx:220-223 | A question on rung 9 always comes after feedback on a correct answer, and after at least six correct answers. So the `feedbackData?.isCorrect` reads in `completeGame` count the winning answer right. |
| Session.AsWrittenSummaryLags | src/components/GameScreen.jsx:214-236 | The summary as written differs from the one after the winning answer only in `final_score`. That field lacks the winning answer's 100 points. |
| Session.AsWrittenSummaryCounterexample | src/components/GameScreen.jsx:214-236 | A concrete session that satisfies the invariant: six correct answers on rungs 3-8 (185 points), then the winning answer on rung 9. The game scores 285; the summary as written says 185. |
| Session.LoadedRules | src/components/GameScreen.jsx:63-82 | On success: the question is from the table at the requested rung; it is unasked whenever the rung still has one; its id is appended; the clock is set to the rung's limit and runs. On failure the player is sent home and the asked list is unchanged. Rung, score, answers, passes and lifelines are untouched either way. |
| Session.TickedRules | src/components/GameScreen.jsx:91-110 | Nothing happens unless the timer runs in the question phase. Otherwise one second is taken off. At ≤ 1 second the clock shows 0 and the question is graded wrong and recorded 'T'. |
| Session.PassedRules | src/components/GameScreen.jsx:184-190 | A pass acts only while passes remain. It uses exactly one, loads a question at the same rung, and leaves rung, score, counters and log alone. |
| Session.ThirdPassIsNoOp | src/components/GameScreen.jsx:32 | After two passes none remain, and a third does nothing. |
| Session.LifelineRules | src/components/GameScreen.jsx:192-212 | Both lifelines are one-shot. Ask-the-audience pauses the clock and shows the statistics `getAudienceStats` returns, even when there are none or the query failed. Closing the modal restarts the clock. The safety net arms once and leaves the clock alone. |
| Session.SafetyNetSoftensNextAnswer | src/components/GameScreen.jsx:142-147 | An armed safety net limits the next wrong answer to a one-rung drop, and is gone afterwards. |
| Session.NextQuestionRules | src/components/GameScreen.jsx:176-182 | At rung 10 moving on shows the complete screen. Otherwise it loads the next question at the same rung. |
| Session.StepKeepsInv | src/components/GameScreen.jsx:46-212 | The start and every handler that can run keep the invariant. |
| Session.LoadedEvolves | src/components/GameScreen.jsx:63-82 | Loading only adds to the asked ids and changes no counter, pass or lifeline. |
| Session.GradedEvolves | src/components/GameScreen.jsx:112-167 | Grading only appends to the log and only increases counters and score. |
| Session.TickedEvolves | src/components/GameScreen.jsx:91-110 | A tick only moves the session forward. |
| Session.PassedEvolves | src/components/GameScreen.jsx:184-190 | A pass never gives passes back, and otherwise only moves forward. |
| Session.NextQuestionEvolves | src/components/GameScreen.jsx:176-182 | Moving on only moves forward. |
| Session.LifelinesEvolve | src/components/GameScreen.jsx:192-212 | Lifelines are never given back. |
| Session.StepEvolves | src/components/GameScreen.jsx:46-212 | The start and every handler only move the session forward. |
| Session.RunKeepsInvAndEvolves | src/components/GameScreen.jsx:107-212 | Over any sequence of events: the invariant holds; asked ids and answers only grow; passes only shrink; used lifelines stay used; counters and score never decrease. |
| Session.CompleteMeansVictory | src/components/GameScreen.jsx:176-178 | In any game, the complete screen appears only on rung 10, after at least seven correct answers. |
| Session.TopStepIsFinal | src/components/GameScreen.jsx:239-272 | On rung 10 an event either changes nothing or shows the complete screen. Rung, log, score and summary stay the same. |
| Session.TopIsFinal | src/components/GameScreen.jsx:239-272 | Once on rung 10, any later sequence of events keeps the player there. Log, score and summary stay as they were. |
| Session.SummaryWrittenOnce | src/components/GameScreen.jsx:162-166 | The summary is written at most once: no game starts with one; it exists exactly while the player is on rung 10; once written it never changes. |
| GameScreen.GameSession.constructor | src/components/GameScreen.jsx:17-44 | The mounted component holds the initial state, which satisfies the invariant. |
| GameScreen.GameSession.InitializeGame | src/components/GameScreen.jsx:51-61 | Moves the state as `Initialized` and keeps the invariant. |
| GameScreen.GameSession.LoadQuestion | src/components/GameScreen.jsx:63-82 | Moves the state as `Loaded` and keeps the invariant. |
| GameScreen.GameSession.ShowQuestion | src/components/GameScreen.jsx:73-81 | Shows the question, appends its id, and starts the clock at the rung's limit in the question phase. |
| GameScreen.GameSession.RecordAnswer | src/components/GameScreen.jsx:118-125 | Appends the answer row, with 'T' for a timeout. The statistics table becomes `AfterUpdate` of the old one, or stays as it was when the write fails. |
| GameScreen.GameSession.CountAnswer | src/components/GameScreen.jsx:128-135 | Counts the answer, and for a correct one adds the rung's points, which it returns. |
| GameScreen.GameSession.ShowFeedback | src/components/GameScreen.jsx:147-161 | Clears the safety net, stores the feedback, moves to its rung and shows the feedback phase. |
| GameScreen.GameSession.CompleteGame | src/components/GameScreen.jsx:214-237 | Persists the corrected summary of the Findings: counters and score after the last answer. The source's `final_score` lacks that answer's points (see Left out). |
| GameScreen.GameSession.HandleAnswer | src/components/GameScreen.jsx:112-167 | Moves the state as `Graded`, updates the statistics for the recorded answer unless the write fails, and keeps the invariant. |
| GameScreen.GameSession.OnAnswer | src/components/GameScreen.jsx:313 | Grades the chosen letter as correct exactly when it equals the question's answer. |
| GameScreen.GameSession.HandleTimeout | src/components/GameScreen.jsx:107-110 | Grades a timeout as wrong. The statistics table is unchanged, because 'T' has no column. |
| GameScreen.GameSession.Tick | src/components/GameScreen.jsx:91-105 | Moves the state as `Ticked` and keeps the invariant. |
| GameScreen.GameSession.HandleNextQuestion | src/components/GameScreen.jsx:176-182 | Moves the state as `NextQuestion` and keeps the invariant. |
| GameScreen.GameSession.HandlePass | src/components/GameScreen.jsx:184-190 | Moves the state as `Passed` and keeps the invariant. |
| GameScreen.GameSession.HandleAskAudience | src/components/GameScreen.jsx:192-200 | Moves the state as `AudienceAsked` over the current statistics and the query's outcome, and keeps the invariant. |
| GameScreen.GameSession.HandleCloseAudienceModal | src/components/GameScreen.jsx:202-205 | Hides the modal and restarts the clock, keeping the invariant. |
| GameScreen.GameSession.HandleSafetyNet | src/components/GameScreen.jsx:207-212 | Arms the unused safety net, keeping the invariant. |
| QuestionDisplay.OptionsAreTheColumns | src/components/game/QuestionDisplay.jsx:137 | The four options offered are distinct and are exactly the answers the statistics table counts. |
| QuestionDisplay.TrimEach | src/components/game/QuestionDisplay.jsx:19 | Each comma-separated piece is trimmed, in order. |
| QuestionDisplay.ImageUrlsParse | src/components/game/QuestionDisplay.jsx:19-20 | An absent or empty field gives no images. Otherwise there is one image per comma plus one, each free of commas and surrounding spaces, and there are several images exactly when the field holds a comma. |
| QuestionDisplay.CarouselWraps | src/components/game/QuestionDisplay.jsx:32-38 | Next and previous keep the index among the images, wrap at either end, and undo each other. |
| QuestionDisplay.AdvancedIs | src/components/game/QuestionDisplay.jsx:32-34 | Pressing next `k` times moves `k` places round the carousel. |
| QuestionDisplay.FullTurn | src/components/game/QuestionDisplay.jsx:32-34 | Pressing next once per image returns to the start. |
| QuestionDisplay.UrgencyWindow | src/components/game/QuestionDisplay.jsx:41 | No question starts urgent. The clock turns red exactly after the first `limit − 10` seconds. |
| QuestionDisplay.TimeoutOnlyWhenUrgent | src/components/game/QuestionDisplay.jsx:41 | A timeout only happens while the clock shows red. |
| QuestionDisplay.ControlsMatchHandlers | src/components/game/QuestionDisplay.jsx:158-185 | Submit is enabled iff an answer is selected. Each lifeline and the pass button is enabled iff pressing it changes the session. |
| QuestionDisplay.QuestionPanel.constructor | src/components/game/QuestionDisplay.jsx:15-19 | A new panel shows the parsed images from the first one, with nothing selected. |
| QuestionDisplay.QuestionPanel.HandleAnswerSelect | src/components/game/QuestionDisplay.jsx:22-24 | The clicked option becomes the selection. |
| QuestionDisplay.QuestionPanel.HandleSubmit | src/components/game/QuestionDisplay.jsx:26-30 | Submits the selected answer exactly when there is one. |
| QuestionDisplay.QuestionPanel.NextImage | src/components/game/QuestionDisplay.jsx:32-34 | Moves to the next image, wrapping, and stays among the images. |
| QuestionDisplay.QuestionPanel.PrevImage | src/components/game/QuestionDisplay.jsx:36-38 | Moves to the previous image, wrapping, and stays among the images. |
| QuestionDisplay.QuestionPanel.SelectImage | src/components/game/QuestionDisplay.jsx:110-113 | A thumbnail click shows that image. |
| Ladder.RungsTopDown | src/components/game/Ladder.jsx:4 | The ladder lists rungs 10 down to 1, each once. |
| Ladder.RungLabelsDistinct | src/components/game/Ladder.jsx:6-17 | Rungs 2-10 have pairwise distinct titles, none of them "Lay Person". Anything else is "Lay Person". |
| Ladder.OneHighlightedRow | src/components/game/Ladder.jsx:19-24 | Exactly one row, the player's, is highlighted and carries the marker (line 39). Rung 5 is picked out unless the player is on it. Other rows are shaded by whether they lie above or below the player. |
| Ladder.PassIconsShowPasses | src/components/game/Ladder.jsx:64-65 | There are two pass icons, and the first `passesRemaining` of them are lit. |
| Ladder.LifelineListShowsUse | src/components/game/Ladder.jsx:48-55 | In every state, a lifeline is struck through exactly when used, and ACTIVE shows exactly while the safety net is armed. In a reachable state ACTIVE only appears beside a struck safety net. |
| Ladder.LifelineListTracksSession | src/components/game/Ladder.jsx:48-55 | Before the safety net is used, taking it strikes it and shows ACTIVE until the next graded answer; the strike stays. |
| AnswerFeedback.ViewRules | src/components/game/AnswerFeedback.jsx:6-60 | The message says up or down exactly as the rung rose or fell, and names the new rung. The right answer shows only after a wrong answer, points only after a right one, and encouragement exactly when a wrong answer cost a rung. |
| AnswerFeedback.FeedbackAfterGrading | src/components/game/AnswerFeedback.jsx:6-14 | After grading, a right answer below 10 moves up one rung and shows its points. A wrong one above rung 1 drops, shows the answer and encourages. On rung 1 a wrong answer stays there without encouragement. |
| AskAudienceModal.MaxShare | src/components/game/AskAudienceModal.jsx:32 | The maximum is at least every share and equal to one of them. |
| AskAudienceModal.BarsFor | src/components/game/AskAudienceModal.jsx:47-62 | One bar per option, in order, highlighted when at the maximum and labelled when positive. |
| AskAudienceModal.ChartRules | src/components/game/AskAudienceModal.jsx:4-74 | Without data the not-enough-data notice shows. With data: there are four bars A-D with their shares; a bar is highlighted iff no share is larger, so ties are all highlighted and at least one bar is; a bar is labelled iff its share is positive; the respondent count is the total. |
| AskAudienceModal.ModalMatchesStats | src/components/game/AskAudienceModal.jsx:4 | The chart appears exactly when the query succeeds for a question with at least ten attempts, and reports the attempt count. |
| GameComplete.ClockRoundTrip | src/components/game/GameComplete.jsx:4-8 | The "m:ss" clock reads back as the seconds it shows. Its seconds part is two digits with value `seconds mod 60`. |
| GameComplete.AccuracyMeaning | src/components/game/GameComplete.jsx:39 | Accuracy is absent (NaN in the source) exactly when no question was answered. Otherwise it is within half a point of the exact percentage, at most 100 when correct ≤ total, and 100 when every answer was correct. |
| GameComplete.EndScreenIsVictory | src/components/game/GameComplete.jsx:10-39 | In any game, the end screen is a victory titled "YOU DID IT!", with at least seven correct answers and an accuracy figure of at most 100. |
| GameComplete.SummaryMatchesEndScreen | src/components/GameScreen.jsx:249-258 | The corrected summary of a won game carries the rung, counters and score the end screen shows after the last feedback. Its time is the clock read when the winning answer is graded, which is never later than the end screen's reading. The source's persisted `final_score` differs (see Left out). |
| LeaderboardQuery.Filtered | src/supabaseClient.js:186-194 | Keeps exactly the completed rung-10 sessions (created since a week ago for 'week'), with their multiplicities. |
| LeaderboardQuery.Insert | src/supabaseClient.js:188 | Inserting into a list sorted by time keeps it sorted and adds exactly that row. |
| LeaderboardQuery.SortByTime | src/supabaseClient.js:188 | The result is sorted by total time, ascending, and is a permutation of the input. |
| LeaderboardQuery.LeaderboardIsTopFive | src/supabaseClient.js:181-200 | The board has at most five rows, fastest first, all qualifying table rows drawn from the qualifying ones. It holds all of them when at most five qualify. Every qualifying session left out is no faster than any shown. |
| LeaderboardQuery.TopOfSorted | src/supabaseClient.js:188-189 | The first `n` rows of a sorted list are sorted, drawn from it, and no slower than the rest. |
| LeaderboardQuery.FailedQueryIsEmpty | src/supabaseClient.js:199-203 | A failed query gives an empty board. |
| LeaderboardQuery.WeekQualifiesForAllTime | src/supabaseClient.js:191-195 | A session on the weekly board also qualifies for the all-time board. |
| LeaderboardView.FormatTimeRules | src/components/Leaderboard.jsx:24-29 | A missing or zero time shows "--:--", which never reads back as a time. Any other time reads back as itself. |
| LeaderboardView.RankLabelsDistinct | src/components/Leaderboard.jsx:89-106 | Every place has its own label: medals for the first three, "n." after that. |
| LeaderboardView.EntriesFrom | src/components/Leaderboard.jsx:99-117 | One entry per leader, in order, with its rank label, name, formatted time and correct/total counts. |
| LeaderboardView.BoardLength | src/supabaseClient.js:188-189 | The board holds min(5, number qualifying) rows. |
| LeaderboardView.BoardSectionRules | src/components/Leaderboard.jsx:95-106 | For a successful query, the placeholder shows exactly when no session qualifies. Otherwise there is one row per leader (at most five), in order, medals on the first three, and "4." and "5." after. |
| NameEntry.SubmissionRules | src/components/NameEntry.jsx:6-11 | A name is submitted exactly when it holds a non-space character. The value sent is the name trimmed: non-empty, not starting or ending with a space, no longer than the name, and unchanged by trimming again. |
| NameEntry.DisabledIffNoSubmission | src/components/NameEntry.jsx:50 | The button is disabled exactly when submitting would send nothing, that is, when the name is blank. |
| NameEntry.NameForm.constructor | src/components/NameEntry.jsx:4 | The field starts empty. |
| NameEntry.NameForm.OnChange | src/components/NameEntry.jsx:40-43 | The field keeps the typed value, cut to its first 50 characters. |
| NameEntry.NameForm.HandleSubmit | src/components/NameEntry.jsx:6-11 | Submits exactly when the name is not blank. The value is the trimmed name, non-empty and at most 50 characters long. |
| App.ExactlyOneComponent | src/App.jsx:43-78 | Every screen renders exactly one child component, and different screens render different ones. |
| App.AppState.constructor | src/App.jsx:9-11 | The app starts on the landing page with no player and no session. |
| App.AppState.HandleStartGame | src/App.jsx:13-15 | Shows name entry. |
| App.AppState.HandleNameSubmit | src/App.jsx:17-20 | Stores the name and shows the game. |
| App.AppState.HandleViewLeaderboard | src/App.jsx:22-24 | Shows the leaderboard. |
| App.AppState.HandleHowToPlay | src/App.jsx:26-28 | Shows how-to-play. |
| App.AppState.HandleBackHome | src/App.jsx:30-34 | Back to the landing page, forgetting the player and the session. |
| App.AppState.HandleGameComplete | src/App.jsx:36-39 | Keeps the completed session and leaves the screen alone. |
| App.AppState.SubmitNameForm | src/App.jsx:51-55 | A non-blank name starts the game under the trimmed, non-empty name. A blank one changes nothing. |
| Text.Trim | src/components/NameEntry.jsx:8 | `trim` returns the slice left after removing leading and trailing whitespace. It neither starts nor ends with whitespace. |
| Text.TrimEmptyIffAllSpace | src/components/NameEntry.jsx:8 | The trimmed string is empty exactly when the input is all whitespace. |
| Text.TrimIdempotent | src/components/NameEntry.jsx:9 | Trimming twice is trimming once. |
| Text.Split | src/components/game/QuestionDisplay.jsx:19 | `split` gives at least one piece, none containing the separator, and joining them back gives the input. |
| Text.SplitCount | src/components/game/QuestionDisplay.jsx:19-20 | `split` gives one piece more than there are separators. |
| Text.SplitJoin | src/components/game/QuestionDisplay.jsx:19 | Splitting a join of separator-free pieces gives back the pieces. |
| Text.ParseNatToString | src/components/game/GameComplete.jsx:7 | The decimal rendering of a number reads back as that number. |
| Text.PadTwoValue | src/components/game/GameComplete.jsx:7 | Zero-padding to two digits keeps the value. |

## Left out

- Persistence failures: a failing `recordAnswer` insert, `updateGameSession` and
  the `updated_at` and `end_time` timestamps. The insert's row is kept as the
  `answers` log.
- AnswerStats.StatsStore.UpdateAnswerStats: `fails` means that no write took
  effect, so the table stays as it was. This also covers a failed
  `recordAnswer` insert, which skips the update. A failed read of an existing
  row, after which the source tries to insert a fresh one, is not told apart.
- What `createGameSession` stores. Only whether it returned a row (`created`) is modelled.
- The `gameSession` row and `startTime` / `questionStartTime` in `GameScreen`.
  The elapsed times they produce are parameters.
- Concurrency:
  - Each handler runs atomically on the current state. React's batching of
    `set…` calls and the interleaving of `await`s are not modelled.
  - Of the stale reads in `completeGame`, only the one in the Findings is modelled.
- GameScreen.GameSession.CompleteGame: persists the corrected summary. The
  source persists and passes on `final_score` without the winning answer's
  points (GameScreen.jsx:224 and 235). That lag is stated by
  `Session.AsWrittenSummaryLags` and is not carried into the session state.
- GameComplete.SummaryMatchesEndScreen: relates the corrected summary to the
  end screen. The summary the source persists shows 100 points less than the
  end screen (`Session.AsWrittenSummaryLags`).
- Session.SafetyNetSoftensNextAnswer: holds for a chosen answer, and for a
  timeout whose countdown started after the net was armed. The countdown
  effect is only re-created when `timerRunning` or `gamePhase` change
  (GameScreen.jsx:91-105). Its timeout therefore calls a `handleAnswer` that
  sees the `safetyNetActive` of the last time the countdown started: the
  question's load, or the closing of the audience modal, which restarts the
  timer. A timeout after arming the net since that moment drops two rungs in
  the source. The model's `Ticked` reads the current state and drops one.
- The audience modal is an overlay. Whether it blocks the buttons under it is
  not modelled: the question-screen events stay enabled while it is open.
- QuestionBank.GetQuestionForRung: one `fails` flag covers both queries, and the random
  index is `pick % n`. `Math.random` itself is not modelled.
- Text.IsSpace: covers ASCII whitespace and the common Unicode spaces (NBSP,
  BOM, line and paragraph separators). It does not cover the whole Unicode
  space-separator class that `trim` removes.
- Percent.RoundedPercent: computes with exact integers. Floating-point
  representation of `count / total * 100` is not modelled; it could round a
  value just below a half differently.
- GameComplete.Accuracy: the NaN the source shows for zero questions is `None`.
- QuestionDisplay.QuestionPanel.NextImage and PrevImage: require at least one
  image. The buttons only exist when there are several images, and the source
  would set the index to NaN on an empty list.
- `timePercentage`, the width of the timer bar.
- The markup and styling:
  - Ladder colour classes are the four `Shade` values.
  - Bar widths, icons and texts other than the titles, labels and clocks are not modelled.
- NameEntry.NameForm.OnChange: the input's `maxLength` is modelled as cutting
  the typed value to 50 characters.
- `alert` and `onBackHome` inside `GameScreen` are the flag `returnedHome`. The
  App-level reset of `onBackHome` is `App.AppState.HandleBackHome`.
- The leaderboard's `loading` flag and `loadLeaderboards`, which runs both queries with `Promise.all`.
- `onPlayAgain` (a page reload) and the back buttons of the leaderboard and name entry.
- LandingPage, HowToPlay, the visual effects and the utilities are not part of this model.

## Findings

| source | as written | input that shows it | evidently intended | confidence | as-written member | corrected member |
|---|---|---|---|---|---|---|
| src/components/GameScreen.jsx:224 | `completeGame` runs inside the same `handleAnswer` call, and its closure reads `score` as it was before the winning answer. So `final_score`, persisted and passed to `onGameComplete` (line 235), misses the winning answer's points. The correct/wrong split is right, because the winning answer always follows a correct one. | Six correct answers on rungs 3-8 (185 points), then a correct answer on rung 9. The game scores 285 and persists `final_score` 185. | The score after the winning answer, as the end screen shows it (GameScreen.jsx:251-258). | not executed | Session.AsWrittenSummaryCounterexample | Session.GradedCompletion |
