# Quiz widget session model

A Dafny model of the core of a single-page JavaScript trivia widget (a React
component, `snarky-js-quiz.tsx`). The widget asks seven fixed multiple-choice
questions. It records one answer per question, shows commentary, counts correct
answers, and finally classifies the rounded percentage into one of five grades.

The model has three modules:

- `QuizData` (`quiz_data.dfy`) is the constant question table `quizData`.
  A question's texts are keys of type `Text`. `Wording` maps each key to the
  words the widget shows. Only the option count and the `answer` index affect
  behaviour. The table is proved well formed: four options per question and an
  answer that indexes one of them.
- `Scoring` (`scoring.dfy`) is `getScoreData`. `Percent` is the rounded
  percentage in integer arithmetic. `Classify` is the descending if-chain over
  90/80/70/60. `MatrixLow`/`MatrixHigh` form the classification matrix printed
  on the results screen, an independent statement of the same buckets. Lemmas
  prove that the chain and the matrix agree, that the buckets partition
  [0, 100], and where pass/fail falls in terms of the raw score.
- `QuizSession` (`session.dfy`) is the component's state machine. `State` holds
  the six `useState` hooks (`currentIndex`, `score`, `selectedAnswer`,
  `showFeedback`, `quizComplete`, `started`), and `PhaseOf` reads the screen
  off those flags. Each handler gets a transition function: `Started` for the
  start button, `Answered` for `handleAnswer`, `Advanced` for `nextQuestion`
  and `Restarted` for `restart`. Each function is proved to keep the reachable-state
  invariant `Inv`. `Offered` says which enabled buttons the current screen shows.
  `Play` runs a sequence of clicks. Lemmas about `Play` cover forward-only
  progress and complete play-throughs. The score of a play-through is the
  number of correct choices. The class `Quiz` holds the six hooks as fields,
  and each of its methods is proved to perform exactly its handler's
  transition.

Guards that exist only in the markup appear as preconditions:
- the start button, the option buttons and the next button are rendered only
  on their screens;
- option indices come from mapping over the four options.

`restart` has no guard in the component, so none is modelled on `Restarted`
or `Quiz.Restart`. Its button is rendered only on the results screen, and
that rendering is part of `Offered`.

The `disabled` attribute on answered options is part of `Offered`, not a
precondition of `handleAnswer`. The handler's own early return when feedback
is showing is modelled as written, so a repeated answer is provably ignored.

Two behaviours of the code worth knowing:
- `restart` does not reset `started`, so it leads to question 0 in the
  Answering phase, not to the start screen. The restarted state is therefore
  not the freshly mounted state (`RestartIsFreshStart`).
- On the last question, `nextQuestion` sets `quizComplete` but leaves
  `selectedAnswer` and `showFeedback` set. The flags are kept separate, as in
  the component.
- With seven questions only a perfect score passes, since 6/7 rounds to 86
  percent (`SevenQuestionsPassOnlyWhenPerfect`).

## Model

| member | source | states |
|---|---|---|
| `QuizData.Questions` | snarky-js-quiz.tsx:3-88 | the table has seven questions; every one has exactly four options and an answer index in [0, 4) |
| `QuizSession.AnswerKey` | snarky-js-quiz.tsx:3-88 | helper for `PerfectPlaythroughPasses`: the table's answer column is a valid choice (an option index in [0, 4)) for every question |
| `Scoring.Percent` | snarky-js-quiz.tsx:128 | `Math.round(score / n * 100)`: the result lies within one half of 100·score/n, ties rounded up; a score of at most n gives at most 100 |
| `Scoring.NoRoundingTieForSeven` | snarky-js-quiz.tsx:128 | with seven questions 100·score/7 is never exactly a half-way value (200·score is no odd multiple of 7), so the tie rule cannot change the result; that the floating-point error of `score / 7 * 100` stays below the resulting 1/14 margin is argued, not proved |
| `Scoring.Classify` | snarky-js-quiz.tsx:129-158 | the if-chain passes exactly when pct ≥ 90, and passing is the same as getting the top grade |
| `Scoring.ClassifyMonotone` | snarky-js-quiz.tsx:129-158 | a higher percentage never gets a worse grade (the chain is ordered) |
| `Scoring.MatrixPartitions` | snarky-js-quiz.tsx:199-206 | the printed ranges 90-100, 80-89, 70-79, 60-69 and 0-59 cover every percentage in [0, 100] and do not overlap |
| `Scoring.ClassifyAgreesWithMatrix` | snarky-js-quiz.tsx:127-158 | for pct in [0, 100] the chain picks grade g exactly when pct lies in g's printed range (both directions) |
| `Scoring.GetScoreData` | snarky-js-quiz.tsx:127-158 | the result passes exactly when 200·score ≥ 179·n; for score ≤ n its grade is the printed row of the rounded percentage |
| `Scoring.PerfectScorePasses` | snarky-js-quiz.tsx:127-134 | all answers correct gives 100 percent, the top grade and a pass |
| `Scoring.ZeroScoreFails` | snarky-js-quiz.tsx:127-158 | no answer correct gives 0 percent, "EXCEPTIONAL FAILURE" and no pass |
| `Scoring.FiveOfSeven` | snarky-js-quiz.tsx:127-146 | five of seven is 71 percent, "INSUFFICIENT SUCCESS" |
| `Scoring.SevenQuestionsPassOnlyWhenPerfect` | snarky-js-quiz.tsx:127-134 | with seven questions a score passes exactly when it is 7; six of seven is 86 percent |
| `QuizSession.CurrentQuestion` | snarky-js-quiz.tsx:98 | the current question of an in-range index is well formed |
| `QuizSession.IsCorrect` | snarky-js-quiz.tsx:219 | a correct verdict means feedback shows and the selected option is the question's answer, which is a valid option index |
| `QuizSession.Started` | snarky-js-quiz.tsx:171 | from the start screen the start button leads to Answering on question 0 with score 0 and nothing selected, keeping the invariant |
| `QuizSession.Answered` | snarky-js-quiz.tsx:100-107 | with feedback showing, nothing changes; otherwise the selection is recorded, feedback shows, the score rises by 1 exactly when the answer is right and stays the same otherwise, the verdict agrees with the score change, the index and flags are kept, and the invariant holds |
| `QuizSession.AnswerTwiceIsAnswerOnce` | snarky-js-quiz.tsx:101 | a second answer to the same question leaves the state of the first |
| `QuizSession.Advanced` | snarky-js-quiz.tsx:109-117 | before the last question the index rises by exactly 1 and selection and feedback are cleared; on the last, only `quizComplete` is set, with index, selection and feedback kept; the score never changes; the invariant holds |
| `QuizSession.Restarted` | snarky-js-quiz.tsx:119-125 | index 0, score 0, nothing selected, no feedback, not complete, `started` unchanged; the phase becomes Answering (or stays NotStarted); the invariant holds |
| `QuizSession.RestartIsFreshStart` | snarky-js-quiz.tsx:119-125 | restarting a started quiz gives exactly the state after a fresh start, which differs from the mounted state |
| `QuizSession.Step` | snarky-js-quiz.tsx:161-273 | a click on an offered button keeps the invariant; outside a restart the index and score never drop and rise by at most one; only next and restart change the index |
| `QuizSession.Play` | snarky-js-quiz.tsx:161-273 | every state reachable by clicks from an invariant state satisfies the invariant (score bounds included) |
| `QuizSession.PlayAppend` | snarky-js-quiz.tsx:161-273 | playing two click sequences one after the other is playing their concatenation |
| `QuizSession.PlayMovesForward` | snarky-js-quiz.tsx:109-117 | without a restart, the index and the score never decrease, and the index grows by at most the number of clicks |
| `QuizSession.AnswerThenNext` | snarky-js-quiz.tsx:100-117 | an answer followed by next moves from an unanswered question to the next one, or to completion on the last, adding one point exactly for a correct answer |
| `QuizSession.PlayRounds` | snarky-js-quiz.tsx:100-117 | answering the remaining questions ends complete on the last question, with the score raised by the number of correct choices |
| `QuizSession.FullPlaythrough` | snarky-js-quiz.tsx:100-117 | start plus one answer and next per question ends on the results screen with score equal to the number of correct choices |
| `QuizSession.PerfectPlaythroughPasses` | snarky-js-quiz.tsx:100-158 | answering with the answer key scores 7, i.e. 100 percent and a pass |
| `QuizSession.HopelessPlaythroughFails` | snarky-js-quiz.tsx:100-158 | answering every question wrongly scores 0, "EXCEPTIONAL FAILURE" |
| `QuizSession.Quiz.constructor` | snarky-js-quiz.tsx:91-96 | mounting sets every hook to its initial value |
| `QuizSession.Quiz.Start` | snarky-js-quiz.tsx:171 | the fields afterwards are `Started` of the fields before |
| `QuizSession.Quiz.HandleAnswer` | snarky-js-quiz.tsx:100-107 | the fields afterwards are `Answered` of the fields before, so the invariant is kept |
| `QuizSession.Quiz.NextQuestion` | snarky-js-quiz.tsx:109-117 | the fields afterwards are `Advanced` of the fields before |
| `QuizSession.Quiz.Restart` | snarky-js-quiz.tsx:119-125 | the fields afterwards are `Restarted` of the fields before |

## Left out

- All JSX markup, CSS class strings, button styling and the `color` field of the score record. These are presentation only.
- The start and results screens' fixed texts and the button captions. They have no behaviour.
- The wording of questions, options, commentaries and grade messages takes part in no proof. `Wording`, `Label` and `Message` carry it as data.
- React's `useState` mechanics and update batching. Each handler is one sequential update of the whole state.
- Floating-point `Math.round(score / n * 100)`. It is replaced by integer round-half-up. For seven questions no exact value is a tie (`NoRoundingTieForSeven`), so the two agree as long as the floating-point error stays below 1/14; that bound is argued, not proved.
- Which commentary is displayed (`isCorrect ? correctSnark : wrongSnark`). It is rendering, decided by `IsCorrect`.
- Handler calls that the markup never makes, such as `handleAnswer` before start or on the results screen, or `nextQuestion` without feedback. The preconditions exclude them.
