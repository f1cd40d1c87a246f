# AI career predictor — scoring, wizard and result page, modelled in Dafny

The application asks four multiple-choice questions: interests, programming level, thinking style and curiosity. Every answer option carries a weight in 0..3 for each of four careers: AI Researcher, Data Scientist, NLP Engineer and Prompt Engineer.

When the user finishes, `calculateResult` does three things:

- It sums the weights of the chosen options.
- It picks the top-scoring career with a `reduce`.
- It hands that career, its profile and the scores to the result page.

The result page shows the profile. It also sorts the four scores in descending order and draws each one as `score/maxScore`. A top-level page switches between the landing, assessment and result views.

The model covers these three components. Each keeps the form its source has.

- `careers.dfy` (module `Careers`): the career ids and their key order, and the per-career score record `ScoreSheet`. It also holds the `careerInfo` profile table, with the texts as given.
- `questionnaire.dfy` (module `Questionnaire`): the question table, plus the `find` lookups by question id and by option value.
- `scoring.dfy` (module `Scoring`) models `calculateResult`:
  - It gives a reference definition `Score`: for each question of the table, the weights of its answered option.
  - The accumulation is imperative. `CalculateScores` loops over the answer entries and `AddWeights` loops over the careers. `AddWeights` is proved to add the weights career by career; `CalculateScores` is proved equal to `Score`.
  - It also models the argmax fold and the packaged result.
- `wizard.dfy` (module `AssessmentWizard`): the form's state as a class, with `currentQuestion` and `answers` and the handlers that change them. `PressNext` models the Next button, which is disabled while `canProceed` is false.
- `careerresult.dfy` (module `CareerResultView`): pure definitions of the result page:
  - `maxScore`;
  - the stable descending sort of the rows;
  - `careerNames`;
  - the bar value;
  - the `index + 1` numbering of the skills and next steps.
- `page.dfy` (module `IndexPage`): the top-level page as a class, with `currentView` and `careerResult`, its three handlers and the view dispatch.
- `wrappers.dfy`: the `Option` type.

Key facts about the code:

- **Tie-break.** The fold compares with a strict `>` and keeps the accumulator only when it scores strictly more. So on a tie the **last** tied career in the order researcher, data_scientist, nlp_engineer, prompt_engineer wins, and the empty answer set yields `prompt_engineer`. A first-wins tie-break would instead give `researcher` (`TopCareer`, `TiePicksPromptEngineer`, `EmptyAnswersPickPromptEngineer`).
- **Worked examples.** Computed from the question table: {research, expert, theoretical, understand} scores {12, 6, 6, 0} and is won by researcher; {applications, beginner, creative, solve} scores {0, 6, 5, 12} and is won by prompt_engineer; `interests: data` alone scores {1, 3, 1, 1} and is won by data_scientist.
- **Two leaders on a tie.** The result page sorts with a stable sort, so on a tie its first row names the **earliest** tied career. The headline names the **last** one. Both names agree exactly when a single career holds the maximum (`FirstRowMatchesWinnerIffUniqueMax`). With no answers the list starts with AI Researcher while the headline says Prompt Engineer (`EmptyAnswersLeadersDiffer`).
- **Guard on completion.** `nextQuestion` itself does not check that the current question is answered. Only the disabled button does. Pressed through the button, the wizard completes only with every question answered (`PressNext`).

## Model

| member | source | states |
|---|---|---|
| Careers.CareerOrder | src/components/AssessmentForm.tsx:155-160 | the key order of the score record, which `Object.entries` follows: researcher, data_scientist, nlp_engineer, prompt_engineer (`Careers.Rank` gives each career's position) |
| Careers.Zero | src/components/AssessmentForm.tsx:155-160 | the initial `scores`: every career at 0 |
| Careers.CareerInfo | src/components/AssessmentForm.tsx:179-204 | each career's profile, with four skills and four next steps |
| Careers.TitlesDistinct | src/components/AssessmentForm.tsx:181-199 | distinct careers have distinct profile titles |
| Questionnaire.Questions | src/components/AssessmentForm.tsx:20-125 | the `questions` table: ids, option values and weights; its shape, unique ids and values, and weight bounds are the lemmas below |
| Questionnaire.FindQuestion | src/components/AssessmentForm.tsx:164 | the result is a question of the table with the given id; None exactly when no question has that id |
| Questionnaire.FindQuestionAt | src/components/AssessmentForm.tsx:164 | with unique ids, looking up the id of the j-th question finds that question |
| Questionnaire.FindOption | src/components/AssessmentForm.tsx:165 | the result is an option with the given value; None exactly when no option has it |
| Questionnaire.Resolve | src/components/AssessmentForm.tsx:164-165 | an answer resolves to an option of a question with that id and value; with unique ids, None means no such option exists |
| Questionnaire.QuestionsShape | src/components/AssessmentForm.tsx:20-125 | the table has four questions with four options each |
| Questionnaire.QuestionsDistinctIds | src/components/AssessmentForm.tsx:22-100 | the question ids are unique |
| Questionnaire.QuestionsDistinctValues | src/components/AssessmentForm.tsx:26-119 | within each question the option values are unique |
| Questionnaire.QuestionsValuesNonEmpty | src/components/AssessmentForm.tsx:26-119 | no option value in the table is the empty string, so a chosen option always makes `canProceed` truthy |
| Questionnaire.QuestionsWeightsBounded | src/components/AssessmentForm.tsx:28-121 | every weight of the table lies in [0, 3] |
| Scoring.Score | src/components/AssessmentForm.tsx:155-172 | the reference weighted sum: for each question of the table, the weights of the option its answer names, or nothing; the lemmas below and `CalculateScores` are stated against it |
| Scoring.SumOverEmpty | src/components/AssessmentForm.tsx:155-160 | with no answers every question contributes nothing, so the sum is all zero |
| Scoring.SumOverUnknownId | src/components/AssessmentForm.tsx:164-167 | an entry whose key is no question id leaves the sum unchanged |
| Scoring.SumOverInsert | src/components/AssessmentForm.tsx:163-172 | adding an entry for a new key adds exactly the weights that entry resolves to, or nothing |
| Scoring.SumOverBound | src/components/AssessmentForm.tsx:167-170 | with weights at most 3, each career's sum is at most 3 per resolved answer |
| Scoring.ScoreEmpty | src/components/AssessmentForm.tsx:155-160 | scores start at 0 for every career |
| Scoring.ScoreInsert | src/components/AssessmentForm.tsx:163-172 | a new answer adds exactly its option's weights to every career's score |
| Scoring.ScoreIgnoresUnknownId | src/components/AssessmentForm.tsx:164-167 | an answer with an unknown question id changes no score, whatever else was answered |
| Scoring.ScoreIgnoresUnknownValue | src/components/AssessmentForm.tsx:165-167 | a new answer whose value is not an option of its question changes no score |
| Scoring.ScoreMonotone | src/components/AssessmentForm.tsx:167-170 | answering one more question never lowers any score |
| Scoring.ScoreBound | src/components/AssessmentForm.tsx:28-121 | every score is at most 3 times the number of resolved answers, which is at most 4, so at most 12 |
| Scoring.AddWeights | src/components/AssessmentForm.tsx:168-170 | the loop over the weight entries adds each career's weight to that career's score |
| Scoring.AddEntry | src/components/AssessmentForm.tsx:164-171 | one answer entry adds the weights of the option it resolves to, or nothing if the id or the value is unknown |
| Scoring.CalculateScores | src/components/AssessmentForm.tsx:155-172 | the loop over the answer entries yields exactly the reference score of the answer set |
| Scoring.Pick | src/components/AssessmentForm.tsx:175-177 | the fold returns one of its careers. No career scores more than it. Every later-ranked career scores strictly less. |
| Scoring.TopCareer | src/components/AssessmentForm.tsx:175-177 | the winner scores at least as much as every career, and strictly more than every career after it in key order |
| Scoring.TiePicksPromptEngineer | src/components/AssessmentForm.tsx:175-177 | when all four careers tie, prompt_engineer wins |
| Scoring.CalculateResult | src/components/AssessmentForm.tsx:154-210 | the result carries the accumulated scores, the winner of those scores and exactly that winner's profile |
| Scoring.EmptyAnswersPickPromptEngineer | src/components/AssessmentForm.tsx:155-177 | with no answers all scores are 0 and the winner is prompt_engineer |
| Scoring.ScenarioTheoryScores | src/components/AssessmentForm.tsx:20-125 | any answer set holding research, expert, theoretical and understand scores 12, 6, 6, 0 |
| Scoring.ScenarioApplicationsScores | src/components/AssessmentForm.tsx:20-125 | any answer set holding applications, beginner, creative and solve scores 0, 6, 5, 12 |
| Scoring.ScenarioDataOnlyScores | src/components/AssessmentForm.tsx:33 | interests = data with the other three questions unanswered scores 1, 3, 1, 1 |
| Scoring.ScenarioWinners | src/components/AssessmentForm.tsx:175-177 | the three example score records are won by researcher, prompt_engineer and data_scientist |
| AssessmentWizard.Wizard.constructor | src/components/AssessmentForm.tsx:128-129 | the form starts on question 0 with no answers |
| AssessmentWizard.Wizard.CurrentId | src/components/AssessmentForm.tsx:213 | `currentQ.id`, the id of the question on screen; no other question of the table has it |
| AssessmentWizard.Wizard.CurrentIdFindsQuestion | src/components/AssessmentForm.tsx:135-213 | looking the current id up in the table finds the question on screen, so the entry `handleAnswer` writes is the one `canProceed` reads |
| AssessmentWizard.Wizard.CanProceed | src/components/AssessmentForm.tsx:214 | `canProceed` (an entry for the question on screen that is not the empty string): without an entry Next stays disabled |
| AssessmentWizard.Wizard.ChoosingEnablesNext | src/components/AssessmentForm.tsx:214-273 | once the answer for the question on screen names one of its options, `canProceed` holds, so the Next button is enabled |
| AssessmentWizard.Wizard.HandleAnswer | src/components/AssessmentForm.tsx:133-138 | records the value under the current question's id; every other entry and the index are unchanged |
| AssessmentWizard.Wizard.NextQuestion | src/components/AssessmentForm.tsx:140-146 | below the last question the index goes up by one; on the last one it stays and the computed result is returned |
| AssessmentWizard.Wizard.PrevQuestion | src/components/AssessmentForm.tsx:148-152 | the index goes down by one, except on question 0; answers are unchanged |
| AssessmentWizard.Wizard.PressNext | src/components/AssessmentForm.tsx:213-273 | nothing happens while the current answer is missing or empty. Otherwise it acts as `nextQuestion`. A completion reached this way has every question answered. |
| IndexPage.Index.constructor | src/pages/Index.tsx:9-10 | the page starts on the landing view with no result |
| IndexPage.Index.StartAssessment | src/pages/Index.tsx:12-14 | switches to the assessment view; the stored result is unchanged |
| IndexPage.Index.ShowResult | src/pages/Index.tsx:16-19 | stores the result and switches to the result view |
| IndexPage.Index.ResetToLanding | src/pages/Index.tsx:21-24 | switches to the landing view and clears the stored result |
| IndexPage.Index.Render | src/pages/Index.tsx:26-34 | the assessment view gets the form, wired to `showResult` and `resetToLanding`; the result view gets the stored result and `resetToLanding`; anything else gets the landing page |
| IndexPage.RenderedResultIsLatest | src/pages/Index.tsx:16-31 | whenever the result view renders, it is handed the last result passed to `showResult`, never null |
| CareerResultView.Entries | src/components/CareerResult.tsx:119 | `Object.entries(scores)`: four rows in key order, the i-th pairing the i-th career with its score |
| CareerResultView.EntriesCoverCareers | src/components/CareerResult.tsx:119 | the entries of the score record list each career once, with its score, in key order |
| CareerResultView.MaxOf | src/components/CareerResult.tsx:25 | `Math.max` of a non-empty list is one of its elements and at least every element |
| CareerResultView.MaxScore | src/components/CareerResult.tsx:25 | `maxScore` is at least every career's score and equals one of them |
| CareerResultView.MaxScoreIsWinnerScore | src/components/CareerResult.tsx:25 | `maxScore` is the headline winner's score |
| CareerResultView.Insert | src/components/CareerResult.tsx:120 | an insertion step adds exactly the given row |
| CareerResultView.SortByScore | src/components/CareerResult.tsx:119-121 | the sorted rows are a permutation of the input rows |
| CareerResultView.SortNonIncreasing | src/components/CareerResult.tsx:120 | the sorted rows are in non-increasing score order |
| CareerResultView.SortScoreThenRank | src/components/CareerResult.tsx:120 | the sort is stable: equal scores keep their input order |
| CareerResultView.ScoreRows | src/components/CareerResult.tsx:119-121 | the rows shown: the entries sorted by descending score; `ScoreRowsOrdered` states their properties |
| CareerResultView.ScoreRowsOrdered | src/components/CareerResult.tsx:119-121 | the four rows show each career once with its own score, ordered by descending score and then key order |
| CareerResultView.FirstRowIsEarliestMax | src/components/CareerResult.tsx:119-121 | the first row carries `maxScore` and names the earliest career, in key order, that reaches it |
| CareerResultView.FirstRowMatchesWinnerIffUniqueMax | src/components/CareerResult.tsx:120 | the first row names the headline winner if and only if no other career ties with it |
| CareerResultView.EmptyAnswersLeadersDiffer | src/components/CareerResult.tsx:120 | with no answers the first row is AI Researcher while the headline winner is prompt_engineer |
| CareerResultView.CareerName | src/components/CareerResult.tsx:35-40 | `careerNames`: a display name for every career; `CareerNameIsTitle` ties it to the profile title |
| CareerResultView.CareerNameIsTitle | src/components/CareerResult.tsx:35-40 | every career's display name equals its profile title |
| CareerResultView.FirstRowNameMatchesHeadline | src/components/CareerResult.tsx:35-125 | the name on the first score row equals the headline title if and only if no other career ties with the winner |
| CareerResultView.BarValue | src/components/CareerResult.tsx:132 | the bar value is finite exactly when `maxScore` is positive, and is then `100 * score / maxScore`; 0/0 is NaN |
| CareerResultView.BarWithinRange | src/components/CareerResult.tsx:128-132 | for a score at most a positive maximum, the bar lies in [0, 100] and is full exactly at the maximum |
| CareerResultView.RowBars | src/components/CareerResult.tsx:119-134 | every row's bar is in [0, 100] when some career scored, and the first bar is full; with all scores 0 every bar is NaN |
| CareerResultView.NumberFrom | src/components/CareerResult.tsx:81-104 | the i-th item is shown with the number `first + i` |
| CareerResultView.Texts | src/components/CareerResult.tsx:81-104 | the shown texts are the items in their order |
| CareerResultView.Numbered | src/components/CareerResult.tsx:81-104 | the list as shown: the i-th item with badge i + 1, every item once, in its given order |
| CareerResultView.NumberedRoundTrip | src/components/CareerResult.tsx:81-104 | numbering and then dropping the numbers gives back the list, and the i-th badge is i + 1 |
| CareerResultView.ProfileListsNumbered | src/components/CareerResult.tsx:81-104 | every profile's skills and next steps are shown numbered 1 to 4, in their given order |

## Left out

- The `question` prompt and each option's `label` are display text and are not modelled. Questions are modelled by id, options by value and weights.
- The profile `description`, `skills` and `nextSteps` texts are kept as given but nothing is proved about their wording.
- `CalculateScores` visits the answer entries in an arbitrary order, not JavaScript's insertion order. Any order gives the same sums, and the contract is order-independent.
- Weights and scores are unbounded naturals. JavaScript numbers are doubles, but every score stays at most 12 (`Scoring.ScoreBound`), so no rounding can occur.
- The progress percentage `(currentQuestion + 1) / length * 100` and its `Math.round` are floating-point display values and are not modelled.
- `CareerResultView.BarValue`: the bar value is the exact rational quotient. The floating-point rounding of the division is not modelled. A positive score over 0 is modelled as `Infinity`, although no row can produce it.
- React semantics are left out. `useState` setters are plain field assignments. The functional updater in `handleAnswer`, re-render timing, and the remount that resets the form on each entry to the assessment view are not modelled.
- `onComplete`, `onBack` and `onRestart` are callbacks into the parent. `NextQuestion` returns the result it would pass to `onComplete`, and `IndexPage.Index.Render` names the handler wired to each callback.
- `IndexPage.Index.ShowResult` takes a result, never null: the form always passes one.
- `AssessmentWizard.Wizard.HandleAnswer` accepts any value. The radio group only ever emits option values, but that is a property of the UI library.
- JSX markup, styling, icons, the hero image, the colour map `careerColors` and the UI library components are presentation or foreign code.
- The "Download Results" button has no handler and does nothing.
