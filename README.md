# Learning-platform dashboards: a Dafny model

This project models the logic inside the React front end of an e-learning platform. Students take
timed multiple-choice tests and upload answer sheets for "physical" tests. Teachers grade those
sheets and watch dashboards. Parents link to a child with a code.

The logic lives in event handlers and derived values inside the components. The model lifts it
out into one Dafny module per component file. Network replies, clock ticks and user input become
parameters.

- `TestSession` (`EnhancedTestComponent.js`) is the timed test. The class `Session` holds:
  - the answer buffer;
  - the countdown and its `Tick`;
  - the question cursor;
  - the submission payload.
- `GradingRubric` (`EnhancedTestCheck.js`) is the teacher's grading sheet. The class `GradingSheet` holds:
  - the clamped per-question scores;
  - at most one recommendation per question that lost marks;
  - the `forEach` total and the seven-band grade.
- `GradingAnalytics` (`TestGradingInterface.js`) holds the result helpers, the `Xh Ym Zs`
  duration and the per-grade analytics. `TestResultView.js` (lines 82-108) repeats the same
  `formatTime`, `getPercentage` and `getGrade`. Its `getGradeColor` has the same five bands at
  90/80/70/60, but it returns only the text class (`'text-green-600'` where
  `TestGradingInterface.js` returns `'text-green-600 bg-green-100'`). The model covers them once,
  here and in `Percent`, as the band (`ScoreColor`) rather than the class string.
- `ResultView` (`TestResultView.js`) holds the pie split, the difficulty tally and the chapter-test
  fallback.
- `TeacherDashboard`, `StudentDashboard`, `StudentTestDashboard`, `TestManagement`, `TCHome`,
  `TestBrowse`, `PhysicalResult`, `LearningPlans`, `ParentDashboard`, `AITestGenerator` and
  `Avatar` each model the file of the same name: `PhysicalTestResult.js`, `LearningPlanList.js`,
  `avatar.js`.
  - Where the source loops and pushes into arrays, the model is a `method` with a loop proved
    against a specification function. This covers `extractStudents`, `generateRecentActivity`,
    `calculateAnalytics` and `calculatePerformance`.
  - Where the source replaces component state, the model is a class. This covers
    `TestManagement.TestList`, `ParentDashboard.LinkForm` and `AITestGenerator.GeneratorForm`.
- Shared modules:
  - `Common`: `Option`, `Result`, and `x ?? d`.
  - `Lists`: `filter`, sums, `sort` (an insertion sort) and `sort` + `slice(0, k)`.
  - `Text`: JavaScript `trim`, case mapping, `includes`, `split`/`join`, decimal digits and
    `localeCompare` as an order.
  - `Tally`: a `reduce` into an object of counters.
  - `Percent`: `Math.round((c / t) * 100)` and the `Infinity`/`NaN` outcomes of an unguarded
    `x / 0`.

Percentages are exact. For a positive total, `Math.round((c / t) * 100)` is `(200c + t) / (2t)`.
Thresholds on an unrounded percentage are cross-multiplied: `percentage >= 90` becomes
`100 * c >= 90 * t`. Dates are integer timestamps.

## Model

| member | source | states |
|---|---|---|
| TestSession.InitialTime | src/Components/Dashboard/students/test/EnhancedTestComponent.js:38 | `timeLimit * 60 \|\| 3600` is never 0, is `timeLimit * 60` for any non-zero limit, and is positive exactly when the limit is not negative |
| TestSession.TimerEffect | src/Components/Dashboard/students/test/EnhancedTestComponent.js:20-28 | the effect schedules a tick exactly when `timeLeft > 0`, and auto-submits exactly when `timeLeft` is 0 and the test is loaded |
| TestSession.NeedsConfirmation | src/Components/Dashboard/students/test/EnhancedTestComponent.js:52-57 | an auto-submit never asks; a manual submit asks exactly when fewer answers than questions are buffered |
| TestSession.PayloadAnswers | src/Components/Dashboard/students/test/EnhancedTestComponent.js:61-64 | one entry per question in question order, carrying the buffered option, or `''` when there is none |
| TestSession.PayloadCarriesEveryAnswer | src/Components/Dashboard/students/test/EnhancedTestComponent.js:61-64 | every buffered answer appears in the payload under its question id |
| TestSession.CountAnsweredIsCardinality | src/Components/Dashboard/students/test/EnhancedTestComponent.js:91-93 | with distinct question ids, the number of answered questions is the number of buffer keys that are question ids |
| TestSession.ConfirmationIffUnanswered | src/Components/Dashboard/students/test/EnhancedTestComponent.js:52-57 | `Object.keys(answers).length` counts the answered questions, so a manual submit asks exactly when some question has no answer |
| TestSession.AllAnsweredIffFull | src/Components/Dashboard/students/test/EnhancedTestComponent.js:52 | the answered count equals the number of questions exactly when every question has an answer |
| TestSession.TimeSpentAsWrittenNegative | src/Components/Dashboard/students/test/EnhancedTestComponent.js:38-68 | as written, a test with no time limit starts at 3600 seconds but reports `-3600` when submitted at once |
| TestSession.TimeSpent | src/Components/Dashboard/students/test/EnhancedTestComponent.js:66-69 | the time spent, measured from the countdown's real start, lies in `[0, start]` while the countdown does; it equals `timeLimit * 60 - timeLeft` for any non-zero limit |
| TestSession.ClockRoundTrip | src/Components/Dashboard/students/test/EnhancedTestComponent.js:84-89 | `formatTime` gives three colon-separated digit fields; minutes and seconds have two digits and are below 60; hours have two digits below 100 hours; `h*3600 + m*60 + s` gives back the seconds |
| TestSession.Session.constructor | src/Components/Dashboard/students/test/EnhancedTestComponent.js:9-13 | no test, an empty buffer, question 0, `timeLeft` 0, not submitting |
| TestSession.Session.Load | src/Components/Dashboard/students/test/EnhancedTestComponent.js:35-38 | the fetched test is stored and the countdown starts at `timeLimit * 60 \|\| 3600`; the effect then schedules or auto-submits exactly when the limit is not negative |
| TestSession.Session.Tick | src/Components/Dashboard/students/test/EnhancedTestComponent.js:20-27 | a tick at `timeLeft > 0` lowers it by exactly one and never below 0; it auto-submits exactly when it reaches 0; nothing else changes |
| TestSession.Session.SelectAnswer | src/Components/Dashboard/students/test/EnhancedTestComponent.js:47-49 | the option overwrites the question's entry; every other entry and the rest of the state stay |
| TestSession.Session.AnsweredCount | src/Components/Dashboard/students/test/EnhancedTestComponent.js:91-93 | the number of buffer keys equals the number of answered questions, at most the number of questions |
| TestSession.Session.Next | src/Components/Dashboard/students/test/EnhancedTestComponent.js:99-103 | moves one forward unless on the last question, where it does nothing; the cursor stays in range |
| TestSession.Session.Prev | src/Components/Dashboard/students/test/EnhancedTestComponent.js:105-109 | moves one back unless on the first question, where it does nothing; the cursor stays in range |
| TestSession.Session.GoTo | src/Components/Dashboard/students/test/EnhancedTestComponent.js:95-97 | the cursor becomes the chosen question's index |
| TestSession.Session.Submit | src/Components/Dashboard/students/test/EnhancedTestComponent.js:51-69 | cancelled exactly when confirmation is needed and refused; otherwise `isSubmitting` is set and the payload holds the answers array and the time spent as written, `timeLimit * 60 - timeLeft` (so `-3600` for a zero limit submitted at once); for a non-zero limit that is the time since the countdown started; no re-entry guard |
| TestSession.Session.SubmitFailed | src/Components/Dashboard/students/test/EnhancedTestComponent.js:78-81 | a failed request clears `isSubmitting` and changes nothing else |
| TestSession.SubmittedTimeInRange | src/Components/Dashboard/students/test/EnhancedTestComponent.js:66-69 | with a positive limit and the countdown in range, the time as sent lies in `[0, timeLimit * 60]` and equals the time since the countdown started |
| GradingRubric.FindQuestion | src/Components/Dashboard/teacher/TestCheck/EnhancedTestCheck.js:76 | `None` exactly when no question has the id; otherwise a question of the test with that id, and, when ids are distinct, the only one |
| GradingRubric.Clamp | src/Components/Dashboard/teacher/TestCheck/EnhancedTestCheck.js:77 | `max(0, min(value, max))` lies in `[0, max]`; it is the value itself when in range, 0 below it and `max` above it |
| GradingRubric.UpdateRecommendations | src/Components/Dashboard/teacher/TestCheck/EnhancedTestCheck.js:87-102 | the question keeps exactly one entry when its score is below full marks and none otherwise; entries for other questions are kept with unchanged counts; the only new entry is the question's own |
| GradingRubric.PrefillAsWritten | src/Components/Dashboard/teacher/TestCheck/EnhancedTestCheck.js:59-64 | as written, the re-opened scores have a key exactly for the questions named by a stored recommendation, and each key holds the score of the last recommendation about that question |
| GradingRubric.PrefillAsWrittenScores | src/Components/Dashboard/teacher/TestCheck/EnhancedTestCheck.js:59-64 | when no question has two recommendations, every recommended question re-opens with the score its recommendation carries |
| GradingRubric.PrefillAsWrittenLosesFullMarks | src/Components/Dashboard/teacher/TestCheck/EnhancedTestCheck.js:59-64 | a copy graded 10 out of 10 stores no recommendation, re-opens with no scores and re-totals to 0 |
| GradingRubric.Prefill | src/Components/Dashboard/teacher/TestCheck/EnhancedTestCheck.js:59-64 | the corrected pre-fill has a score for exactly the test's questions: a stored recommendation's score, or full marks when there is none |
| GradingRubric.PrefillRestoresScores | src/Components/Dashboard/teacher/TestCheck/EnhancedTestCheck.js:59-64 | for a sheet that scored every question, the corrected pre-fill gives back exactly the recorded scores, and so the same total |
| GradingRubric.RubricGrade | src/Components/Dashboard/teacher/TestCheck/EnhancedTestCheck.js:125-133 | A+ at 90%, A at 80%, B+ at 70%, B at 60%, C at 50%, D at 40%, else F, on the unrounded percentage by cross-multiplication; with no marks, `Infinity` gives A+ and `NaN` gives F |
| GradingRubric.RubricGradeMonotone | src/Components/Dashboard/teacher/TestCheck/EnhancedTestCheck.js:125-133 | a higher total never gets a lower grade |
| GradingRubric.ColorOf | src/Components/Dashboard/teacher/TestCheck/EnhancedTestCheck.js:174-185 | grey exactly for an ungraded copy; green exactly for A+ and A; blue exactly for B+ and B |
| GradingRubric.ScoreDistribution | src/Components/Dashboard/teacher/TestCheck/EnhancedTestCheck.js:212-220 | "Scored" plus "Lost" is the possible score, or 100 when that is 0; with distinct question ids and every score keyed by a question, "Scored" (the sum of `Object.values(responses)`) is the per-question total of `calculateGradeAndTotal` |
| GradingRubric.ValuesTotalRemove | src/Components/Dashboard/teacher/TestCheck/EnhancedTestCheck.js:214 | the sum of the recorded scores does not depend on the order the values are added in: any one can be taken out first |
| GradingRubric.ValuesTotalIsTotal | src/Components/Dashboard/teacher/TestCheck/EnhancedTestCheck.js:113-123 | with distinct question ids and every score keyed by a question, summing `Object.values(responses)` gives the same total as the `forEach` over the questions with `\|\| 0` defaults |
| GradingRubric.TotalWithinPossible | src/Components/Dashboard/teacher/TestCheck/EnhancedTestCheck.js:114-123 | when every recorded score lies within its question's marks, the total lies within the possible score |
| GradingRubric.AccumulateTotal | src/Components/Dashboard/teacher/TestCheck/EnhancedTestCheck.js:114-123 | the `forEach` loop sums the recorded score of every question, counting 0 for a missing one |
| GradingRubric.ScoreChangeKeepsScores | src/Components/Dashboard/teacher/TestCheck/EnhancedTestCheck.js:75-102 | after a score change, every recorded score is still within its marks, and a question has a recommendation exactly when its score is below full marks |
| GradingRubric.ScoreChangeKeepsRecommendations | src/Components/Dashboard/teacher/TestCheck/EnhancedTestCheck.js:87-102 | after a score change, every recommendation carries its question's recorded score, and no question has two |
| GradingRubric.ScoreChangeKeepsConsistent | src/Components/Dashboard/teacher/TestCheck/EnhancedTestCheck.js:75-102 | a score change keeps the sheet consistent |
| GradingRubric.GradingSheet.constructor | src/Components/Dashboard/teacher/TestCheck/EnhancedTestCheck.js:29-64 | an ungraded copy starts with no scores, no recommendations, total 0 and `'Not graded'`; a graded copy takes the stored recommendations, total and grade, and its scores are the written pre-fill from the recommendations alone; the sheet invariant holds either way |
| GradingRubric.GradingSheet.ScoreChange | src/Components/Dashboard/teacher/TestCheck/EnhancedTestCheck.js:75-85 | the question's score becomes the clamped value, its recommendations are updated as above, the invariant holds, and the total and grade stay |
| GradingRubric.GradingSheet.MarkAsRight | src/Components/Dashboard/teacher/TestCheck/EnhancedTestCheck.js:104-107 | full marks, no recommendation for the question, other questions' counts unchanged |
| GradingRubric.GradingSheet.MarkAsWrong | src/Components/Dashboard/teacher/TestCheck/EnhancedTestCheck.js:109-111 | score 0, with one recommendation unless the question is worth nothing; other questions' counts unchanged |
| GradingRubric.GradingSheet.CalculateGradeAndTotal | src/Components/Dashboard/teacher/TestCheck/EnhancedTestCheck.js:113-139 | the total is the sum of the recorded scores and lies within the possible score; the grade is its seven-band letter; both are stored and nothing else changes |
| GradingRubric.GradingSheet.Submit | src/Components/Dashboard/teacher/TestCheck/EnhancedTestCheck.js:141-153 | the body carries the freshly computed total and grade with the current recommendations |
| GradingRubric.GradingSheet.CurrentPercentage | src/Components/Dashboard/teacher/TestCheck/EnhancedTestCheck.js:247-248 | 0 when the test has no marks, and never above 100 |
| GradingAnalytics.DurationRoundTrip | src/Components/Dashboard/teacher/TestCheck/TestGradingInterface.js:49-54 | `formatTime` splits at spaces into three fields from one hour up and two below it; each field ends in its unit letter and reads back as the hours, minutes and seconds, which recompose to the count with minutes and seconds below 60 |
| GradingAnalytics.ShortDuration | src/Components/Dashboard/teacher/TestCheck/TestGradingInterface.js:53 | under one hour the hours part is left out: the text is exactly `Mm Ss` |
| GradingAnalytics.ColorFor | src/Components/Dashboard/teacher/TestCheck/TestGradingInterface.js:60-66 | red exactly below 60, green exactly from 90 |
| GradingAnalytics.ColorMonotone | src/Components/Dashboard/teacher/TestCheck/TestGradingInterface.js:60-66 | a higher percentage never gets a worse colour, and from 60 to 89 each colour covers one band of ten points |
| GradingAnalytics.GradeFor | src/Components/Dashboard/teacher/TestCheck/TestGradingInterface.js:79-84 | F exactly below 50, A+ exactly from 90, and from 50 to 89 one grade per band of ten points (D, C, B, A) |
| GradingAnalytics.GradeMonotone | src/Components/Dashboard/teacher/TestCheck/TestGradingInterface.js:79-84 | a higher percentage never gets a lower grade |
| GradingAnalytics.ComputeAnalytics | src/Components/Dashboard/teacher/TestCheck/TestGradingInterface.js:68-95 | no analytics exactly when there are no results; otherwise the head count is the number of results, the average score is the mean raw score to the nearest hundredth, halves up, and the average percentage is the rounded mean of the rounded percentages |
| GradingAnalytics.GradeDistributionCounts | src/Components/Dashboard/teacher/TestCheck/TestGradingInterface.js:76-88 | the distribution has one entry per grade that occurs, counting exactly the results in that grade, and its counts add up to the number of results |
| GradingAnalytics.GradesPartition | src/Components/Dashboard/teacher/TestCheck/TestGradingInterface.js:76-88 | the six grade counts add up to the number of results |
| GradingAnalytics.CompletionRate | src/Components/Dashboard/teacher/TestCheck/TestGradingInterface.js:178 | the displayed completion rate is always 100, since the head count is the number of results |
| ResultView.PieSlices | src/Components/Dashboard/students/results/TestResultView.js:113-117 | the correct slice is the correct count and the two slices add up to the number of questions |
| ResultView.DifficultyOf | src/Components/Dashboard/students/results/TestResultView.js:121-122 | an answer's difficulty is never empty: the first listed question with that id gives its level, and a missing question or an empty level gives `Medium` |
| ResultView.UnknownQuestionIsMedium | src/Components/Dashboard/students/results/TestResultView.js:121-122 | an answer to a question the test does not list is tallied as one `Medium` answer |
| ResultView.DifficultyAnalysisCounts | src/Components/Dashboard/students/results/TestResultView.js:120-131 | one bucket per difficulty that occurs; each bucket counts exactly the answers and the correct answers at that difficulty, never more correct than total; bucket totals add up to the number of answers |
| ResultView.Bar | src/Components/Dashboard/students/results/TestResultView.js:134-138 | a bar carries its bucket's difficulty and counts, and a percentage in [0, 100] that is the nearest whole number to correct/total, halves up |
| ResultView.DifficultyChart | src/Components/Dashboard/students/results/TestResultView.js:133-138 | one bar per bucket, in bucket order |
| ResultView.FromChapterResult | src/Components/Dashboard/students/results/TestResultView.js:45-59 | missing counters default to 0; each stored chapter answer becomes one detailed result, in order, with its fields carried over and a missing score as 0; no answers gives no detailed results |
| Percent.RoundedPercent | src/Components/Dashboard/students/results/TestResultView.js:135 | for a positive total, the result is the nearest whole percentage of correct/total, halves rounded up |
| Percent.RoundedPercentAtMost100 | src/Components/Dashboard/students/results/TestResultView.js:135 | a count no larger than its total rounds to at most 100 |
| Percent.RoundedPercentMonotone | src/Components/Dashboard/students/results/TestResultView.js:135 | more correct answers never round to a smaller percentage |
| Percent.GetPercentage | src/Components/Dashboard/students/results/TestResultView.js:89-91 | a zero total gives 0; otherwise the nearest whole percentage, halves up; at most 100 when correct <= total |
| Percent.WholeIsHundred | src/Components/Dashboard/students/results/TestResultView.js:89-91 | all answers correct out of a positive total is exactly 100 |
| Percent.RoundJs | src/Components/Dashboard/students/results/PhysicalTestResult.js:93-96 | the unguarded percentage is finite exactly when the total is positive, NaN exactly for 0/0 (Infinity otherwise), and in [0, 100] when the score is within the total |
| Percent.RoundingKeepsThreshold | src/Components/Dashboard/students/results/PhysicalTestResult.js:106-114 | a score whose exact percentage reaches a threshold still reaches it after rounding |
| Percent.PercentAtLeastAntitone | src/Components/Dashboard/teacher/TeacherDashboard.js:164-169 | reaching a threshold means reaching every lower one, so the cascade of checks is ordered |
| Percent.RoundedMean | src/Components/Dashboard/teacher/TestCheck/TestGradingInterface.js:93 | for a positive count, the nearest whole mean, halves rounded up |
| Percent.RoundReal | src/Components/Dashboard/teacher/TestManagement.js:65 | rounding an exact value gives the whole number within half of it, halves up |
| Percent.PercentOf | src/Components/Dashboard/teacher/TeacherDashboard.js:138 | the unguarded quotient times 100 is a number exactly when the total is positive, NaN exactly for 0/0; the number times the total is 100 times the count, and lies in [0, 100] when count <= total |
| Percent.Plus | src/Components/Dashboard/teacher/TeacherDashboard.js:138 | a sum is NaN exactly when an operand is NaN, a number exactly when both are, and then the exact sum |
| Percent.Over | src/Components/Dashboard/teacher/TeacherDashboard.js:144 | dividing by a positive count keeps NaN and Infinity and divides a number exactly |
| Percent.RoundNumber | src/Components/Dashboard/teacher/TeacherDashboard.js:144 | rounding keeps NaN and Infinity and maps a number to the whole number within half of it |
| Percent.PercentOfAtLeast | src/Components/Dashboard/teacher/TeacherDashboard.js:164-168 | comparing the unguarded percentage with a threshold is the same as the cross-multiplied comparison, both ways |
| Percent.RoundedWithinPercent | src/Components/Dashboard/students/StudentDashboard.js:111 | rounding a value in [0, 100] stays in [0, 100] |
| Percent.MeanWithinPercent | src/Components/Dashboard/students/StudentDashboard.js:105-107 | a mean of values in [0, 100] is in [0, 100] |
| TeacherDashboard.FirstIndex | src/Components/Dashboard/teacher/TeacherDashboard.js:79 | the first position naming a student id, or past the end when none does |
| TeacherDashboard.RosterFirstSightings | src/Components/Dashboard/teacher/TeacherDashboard.js:74-92 | every roster row is the row for the first result naming its student; every student named by a result has a row; no two rows share an id |
| TeacherDashboard.RosterInSightingOrder | src/Components/Dashboard/teacher/TeacherDashboard.js:91 | the rows come in the order in which their students were first seen |
| TeacherDashboard.ExtractStudents | src/Components/Dashboard/teacher/TeacherDashboard.js:74-92 | the loop over tests and results builds exactly the roster of the concatenated results |
| TeacherDashboard.TestSubmissions | src/Components/Dashboard/teacher/TeacherDashboard.js:98-112 | one submission activity per result of a test, in result order |
| TeacherDashboard.Creations | src/Components/Dashboard/teacher/TeacherDashboard.js:115-123 | one creation activity per test, in order |
| TeacherDashboard.ActivitiesCount | src/Components/Dashboard/teacher/TeacherDashboard.js:94-123 | the feed before sorting has one entry per result plus one per test of either kind |
| TeacherDashboard.RecentActivity | src/Components/Dashboard/teacher/TeacherDashboard.js:125 | the feed keeps min(8, all) activities, newest first, drawn from the activities, and none left out is newer than one kept |
| TeacherDashboard.CollectSubmissions | src/Components/Dashboard/teacher/TeacherDashboard.js:98-112 | the nested loop pushes exactly the submission activities of all tests, in order |
| TeacherDashboard.AppendCreations | src/Components/Dashboard/teacher/TeacherDashboard.js:115-123 | the loop appends one creation activity per test after the activities already there |
| TeacherDashboard.GenerateRecentActivity | src/Components/Dashboard/teacher/TeacherDashboard.js:94-126 | the method returns the recent-activity feed |
| TeacherDashboard.SubmissionTotalCountsResults | src/Components/Dashboard/teacher/TeacherDashboard.js:130 | the submission total is the number of results over all tests |
| TeacherDashboard.ActiveTests | src/Components/Dashboard/teacher/TeacherDashboard.js:183 | no more active tests than tests |
| TeacherDashboard.NoActiveTestIffNoSubmission | src/Components/Dashboard/teacher/TeacherDashboard.js:183 | there is no active test exactly when there is no submission |
| TeacherDashboard.PercentTotalBounds | src/Components/Dashboard/teacher/TeacherDashboard.js:135-142 | with positive totals and counts within them, the running sum is a number in [0, 100 x results] |
| TeacherDashboard.PercentTotalNaN | src/Components/Dashboard/teacher/TeacherDashboard.js:138 | one result with 0 of 0 questions makes the running sum NaN |
| TeacherDashboard.MeanPercent | src/Components/Dashboard/teacher/TeacherDashboard.js:144 | no results gives 0 |
| TeacherDashboard.MeanPercentBounds | src/Components/Dashboard/teacher/TeacherDashboard.js:144 | with well-formed results, the average score is a whole number in [0, 100] |
| TeacherDashboard.GradeThresholds | src/Components/Dashboard/teacher/TeacherDashboard.js:164-169 | a result is graded A, B, C, D exactly when its percentage reaches 90, 80, 70, 60 and not the next band up, and F exactly when it is below 60 |
| TeacherDashboard.CountGrade | src/Components/Dashboard/teacher/TeacherDashboard.js:160-172 | a grade's count never exceeds the number of results |
| TeacherDashboard.GradeChart | src/Components/Dashboard/teacher/TeacherDashboard.js:174-177 | five bars, in the order A, B, C, D, F |
| TeacherDashboard.GradesPartition | src/Components/Dashboard/teacher/TeacherDashboard.js:160-172 | every result is counted under exactly one grade |
| TeacherDashboard.PerformanceData | src/Components/Dashboard/teacher/TeacherDashboard.js:147-157 | at most ten points, the i-th being test i+1 with its rounded mean percentage and its result count |
| TeacherDashboard.ScoreTotals | src/Components/Dashboard/teacher/TeacherDashboard.js:132-142 | the loop's running sum and count are the percentage sum and the number of all results |
| TeacherDashboard.CountGrades | src/Components/Dashboard/teacher/TeacherDashboard.js:160-172 | the loop's counters are the per-grade counts, and they add up to the submission total |
| TeacherDashboard.CalculateAnalytics | src/Components/Dashboard/teacher/TeacherDashboard.js:128-187 | total tests, submissions, average score, active tests, performance points and grade chart as specified; no submissions gives average 0 and no active tests; the grade counts add up to the submissions |
| TeacherDashboard.AllTests | src/Components/Dashboard/teacher/TeacherDashboard.js:190 | the spread holds both lists: lengths add up and membership is the union |
| TeacherDashboard.RecentTests | src/Components/Dashboard/teacher/TeacherDashboard.js:189-193 | min(5, all) tests, newest first, drawn from both lists, and none left out is newer than one kept |
| ResultView.PageGradeThresholds | src/Components/Dashboard/students/results/TestResultView.js:101-108 | the page grades the rounded percentage: no questions gives F; otherwise A+ exactly from 89.5% and F exactly below 49.5%, by cross-multiplication |
| ResultView.RoundedAtLeast | src/Components/Dashboard/students/results/TestResultView.js:89-91 | a rounded percentage reaches a whole threshold exactly when the exact one is within half a point of it or above |
| StudentDashboard.CollectOwn | src/Components/Dashboard/students/StudentDashboard.js:88-103 | the nested loop collects, in order, one entry for every result of every test that belongs to the signed-in student |
| StudentDashboard.OwnCountSound | src/Components/Dashboard/students/StudentDashboard.js:93 | the collected entries are exactly as many as the student's results over all tests |
| StudentDashboard.OwnMembers | src/Components/Dashboard/students/StudentDashboard.js:93-99 | every collected entry is made from some test and one of its results whose student is the signed-in user |
| StudentDashboard.OwnInCount | src/Components/Dashboard/students/StudentDashboard.js:71-72 | within one test, the entries are as many as the results the user filter keeps |
| StudentDashboard.OwnInMembers | src/Components/Dashboard/students/StudentDashboard.js:71-80 | within one test, every entry comes from one of the student's own results |
| StudentDashboard.RecentActivity | src/Components/Dashboard/students/StudentDashboard.js:85 | min(5, own results) activities, newest first, drawn from the student's own, and none left out is newer than one kept |
| StudentDashboard.GenerateRecentActivity | src/Components/Dashboard/students/StudentDashboard.js:67-86 | the method returns the recent-activity feed |
| StudentDashboard.AverageScore | src/Components/Dashboard/students/StudentDashboard.js:105-111 | no results gives 0; otherwise the rounded mean of the rounded percentages, with NaN and Infinity carried through |
| StudentDashboard.PerformanceOf | src/Components/Dashboard/students/StudentDashboard.js:109-117 | the total is the number of own results, the recent tests the first five, and one performance point per result numbered from 1 |
| StudentDashboard.CalculatePerformance | src/Components/Dashboard/students/StudentDashboard.js:88-118 | the method returns the performance of the student's own results; no results gives average 0 |
| StudentDashboard.PercentSumBounds | src/Components/Dashboard/students/StudentDashboard.js:106 | percentages in [0, 100] sum to a number in [0, 100 x count] |
| StudentDashboard.AverageInRange | src/Components/Dashboard/students/StudentDashboard.js:105-111 | percentages in [0, 100] give an average score in [0, 100] |
| StudentDashboard.PerformanceInRange | src/Components/Dashboard/students/StudentDashboard.js:97-111 | when every result has questions and no more correct answers than questions, each percentage and the average are in [0, 100] |
| StudentDashboard.UpcomingTests | src/Components/Dashboard/students/StudentDashboard.js:120-132 | the first three tests of both lists, in order, that the student has not taken |
| StudentDashboard.QuickStatsAsWritten | src/Components/Dashboard/students/StudentDashboard.js:134-146 | total tests is the size of both lists, completed is the number of own results, pending is their difference |
| StudentDashboard.RetakeMakesPendingNegative | src/Components/Dashboard/students/StudentDashboard.js:137 | one test the student submitted twice gives pending tests -1 |
| StudentDashboard.QuickStatsOf | src/Components/Dashboard/students/StudentDashboard.js:134-146 | completed counts the tests the student has taken, pending the ones not taken, never negative; they add up to the total, and the upcoming list has min(3, pending) tests |
| StudentTestDashboard.FilterTests | src/Components/Dashboard/students/test/StudentTestDashboard.js:84-101 | a test is kept exactly when its name contains the search term ignoring case, it matches the subject filter and it matches the active tab |
| StudentTestDashboard.CompletedPendingTabs | src/Components/Dashboard/students/test/StudentTestDashboard.js:92-97 | the completed tab shows exactly the taken tests of the all tab, the pending tab the untaken ones, and the two together are as many as the all tab |
| StudentTestDashboard.NoCompletedPhysicalTest | src/Components/Dashboard/students/test/StudentTestDashboard.js:66-69 | the completed tab never shows a physical test, since a physical test never counts as taken |
| StudentTestDashboard.TestStats | src/Components/Dashboard/students/test/StudentTestDashboard.js:103-116 | totals per kind and together; completed is the number of taken MCQ tests; pending is total minus completed, never negative |
| StudentTestDashboard.SuccessRate | src/Components/Dashboard/students/test/StudentTestDashboard.js:169 | zero tests give 0; otherwise the nearest whole percentage of completed over total, halves up, at most 100 |
| PhysicalResult.CalculatePercentage | src/Components/Dashboard/students/results/PhysicalTestResult.js:93-96 | no result or no test gives 0; otherwise the unguarded rounded percentage, which is the nearest whole percentage for a positive maximum and in [0, 100] when the score is within it |
| PhysicalResult.PerformanceData | src/Components/Dashboard/students/results/PhysicalTestResult.js:98-104 | the scored slice is the score, the two slices add up to the maximum, and the remaining slice is negative exactly when the score exceeds the maximum |
| PhysicalResult.GradeAnalysis | src/Components/Dashboard/students/results/PhysicalTestResult.js:106-115 | A+ exactly at 90 and above, F exactly below 40, one band per ten points in between; green for the two top bands, red exactly for F |
| PhysicalResult.GradeAnalysisMonotone | src/Components/Dashboard/students/results/PhysicalTestResult.js:106-115 | a higher percentage never gets a lower band |
| PhysicalResult.UnroundedScoreBands | src/Components/Dashboard/students/results/PhysicalTestResult.js:93-114 | a score at 90% or more before rounding gets A+, and one that rounds below 40 gets F |
| PhysicalResult.StatusBadgeOf | src/Components/Dashboard/students/results/PhysicalTestResult.js:68-91 | the badge says passed exactly when the result passed, and failed exactly when it did not pass and its status is `failed` |
| PhysicalResult.RetryOnlyWhenNotPassed | src/Components/Dashboard/students/results/PhysicalTestResult.js:164 | the retry link shows exactly when the badge is not passed and a retry is allowed |
| TCHome.StatusBadge | src/Components/Dashboard/teacher/TestCheck/TCHome.js:45-70 | the badge is pending exactly for the submissions the Pending filter keeps, not pending exactly for the Graded ones, failed exactly for the Failed ones; a passed badge only on a submission the Passed filter keeps, and every graded passing one gets it |
| TCHome.OrderIsPreorder | src/Components/Dashboard/teacher/TestCheck/TCHome.js:83-93 | each sort comparator (name, score, date) is a total preorder |
| TCHome.FilteredAndSorted | src/Components/Dashboard/teacher/TestCheck/TCHome.js:72-93 | a permutation of the kept submissions; a submission is shown exactly when its student name contains the search term and it matches the status filter; sorted by name, by score high to low, or by date newest first |
| TCHome.SameMembers | src/Components/Dashboard/teacher/TestCheck/TCHome.js:83 | sorting keeps the same members |
| TCHome.SortedByOrder | src/Components/Dashboard/teacher/TestCheck/TCHome.js:84-92 | a list sorted by the chosen comparator is ordered by that comparator's key |
| TCHome.PendingGradedPartition | src/Components/Dashboard/teacher/TestCheck/TCHome.js:75-77 | the Pending and Graded views together are as many as the All view |
| TCHome.CountsMatchBadges | src/Components/Dashboard/teacher/TestCheck/TCHome.js:177-212 | the pending and failed counts are the pending and failed badges; the passed count is at least the passed badges; pending, failed and passed badges add up to the total |
| TestBrowse.Popularity | src/Components/Dashboard/students/test/TestBrowse.js:111-116 | a physical test has popularity 0; an MCQ test someone has taken has popularity at least 1 |
| TestBrowse.LevelItems | src/Components/Dashboard/students/test/TestBrowse.js:98 | one level per question, a missing or empty level read as `Medium` |
| TestBrowse.LastMaxIndex | src/Components/Dashboard/students/test/TestBrowse.js:105 | the kept key has the largest count, and every later key has a strictly smaller one |
| TestBrowse.Difficulty | src/Components/Dashboard/students/test/TestBrowse.js:93-109 | a physical test or one without questions is `Medium` |
| TestBrowse.LastMaxIsMode | src/Components/Dashboard/students/test/TestBrowse.js:99-105 | the key chosen by the final reduce occurs, no key occurs more often, and among the keys that tie with it it is the one first seen last |
| TestBrowse.DifficultyIsMostCommon | src/Components/Dashboard/students/test/TestBrowse.js:93-106 | an MCQ test with questions gets the most common question level, ties going to the level first seen last |
| TestBrowse.SubjectName | src/Components/Dashboard/students/test/TestBrowse.js:124 | a found name belongs to a subject with that id; no subject with that id gives none |
| TestBrowse.ByKeyIsPreorder | src/Components/Dashboard/students/test/TestBrowse.js:130-143 | each sort comparator is a total preorder |
| TestBrowse.ByKeyAgrees | src/Components/Dashboard/students/test/TestBrowse.js:130-143 | the key comparator used for sorting agrees with the comparator as written, given known difficulties |
| TestBrowse.FilterAndSort | src/Components/Dashboard/students/test/TestBrowse.js:118-146 | a permutation of the kept tests; a test is shown exactly when it matches search, type, difficulty and subject; ordered by the chosen comparator |
| TestBrowse.SubjectFilterSparesMcq | src/Components/Dashboard/students/test/TestBrowse.js:123-124 | the subject filter never hides an MCQ test |
| TestManagement.TestStatsOf | src/Components/Dashboard/teacher/TestManagement.js:58-66 | student count and completion rate are the result count; no results gives average 0; otherwise the average is the mean score rounded to two decimals, halves up |
| TestManagement.FilteredTests | src/Components/Dashboard/teacher/TestManagement.js:68-75 | a test is shown exactly when its name contains the search term ignoring case and it matches the status filter |
| TestManagement.ActiveDraftPartition | src/Components/Dashboard/teacher/TestManagement.js:70-72 | the active and draft views together are as many as the all view |
| TestManagement.DeleteRemovesExactly | src/Components/Dashboard/teacher/TestManagement.js:52 | deleting drops every test with that id, keeps every other test, and deleting again changes nothing |
| TestManagement.DeleteAbsentIsNoOp | src/Components/Dashboard/teacher/TestManagement.js:52 | deleting an id no test has leaves the list as it was |
| TestManagement.TestList.constructor | src/Components/Dashboard/teacher/TestManagement.js:36-39 | the list starts as the teacher's tests |
| TestManagement.TestList.DeleteTest | src/Components/Dashboard/teacher/TestManagement.js:47-56 | the list loses the test only when the deletion is confirmed and the server accepted it; otherwise it is unchanged |
| TestManagement.SummaryOf | src/Components/Dashboard/teacher/TestManagement.js:267-290 | the summary counts the tests, the active ones (never more than all), the submissions and the questions |
| TestManagement.ActiveTestsBoundSubmissions | src/Components/Dashboard/teacher/TestManagement.js:277-283 | there are never more active tests than submissions, and none exactly when there are no submissions |
| ParentDashboard.LinkRequest | src/Components/Dashboard/parents/ParentDashboard.js:52-62 | a blank code is refused with the enter-a-code message; otherwise the code sent is the trimmed upper-cased code, non-empty, with no lower-case letter and no surrounding space |
| ParentDashboard.LinkRequestIdempotent | src/Components/Dashboard/parents/ParentDashboard.js:61 | normalising a code that was already sent sends the same code again |
| ParentDashboard.LinkForm.constructor | src/Components/Dashboard/parents/ParentDashboard.js:14-21 | empty code, no message, no linked student, form hidden |
| ParentDashboard.LinkForm.LinkToStudent | src/Components/Dashboard/parents/ParentDashboard.js:50-74 | nothing is sent exactly for a blank code, which shows the enter-a-code error and changes nothing else; otherwise the normalised code is sent, and the reply either links the student, clears the code and hides the form, or shows the failure message and changes nothing else |
| ParentDashboard.LinkForm.TakeReply | src/Components/Dashboard/parents/ParentDashboard.js:64-71 | a reply links the student with the success message, clears the code and hides the form; a failed request shows the failure message and changes nothing else |
| ParentDashboard.PassRate | src/Components/Dashboard/parents/ParentDashboard.js:180-182 | no tests gives 0; otherwise the nearest whole percentage of passed over total, halves up, at most 100 |
| ParentDashboard.PerformanceLabelOf | src/Components/Dashboard/parents/ParentDashboard.js:358-360 | excellent exactly from 75, needs improvement exactly below 60, on the unrounded average |
| ParentDashboard.ActivityLabelOf | src/Components/Dashboard/parents/ParentDashboard.js:371-373 | very active exactly above 10 tests, getting started exactly at 5 or fewer |
| ParentDashboard.FocusLabelOf | src/Components/Dashboard/parents/ParentDashboard.js:384-386 | following plans exactly when a plan is active, completed improvements exactly when none is active and one is completed |
| LearningPlans.StatusStyle | src/Components/Dashboard/students/learning/LearningPlanList.js:43-50 | blue exactly for `In Progress`, green exactly for `Completed`, gray for every other status |
| LearningPlans.ProgressColor | src/Components/Dashboard/students/learning/LearningPlanList.js:61-66 | green exactly at 100, blue from 50 except 100, yellow strictly between 0 and 50, gray at 0 or below |
| LearningPlans.TopicsCount | src/Components/Dashboard/students/learning/LearningPlanList.js:169 | a positive stored topic count wins; otherwise the number of recommended topics |
| LearningPlans.AverageProgress | src/Components/Dashboard/students/learning/LearningPlanList.js:123 | no plans gives 0; otherwise the nearest whole mean progress, halves up |
| LearningPlans.SummaryOf | src/Components/Dashboard/students/learning/LearningPlanList.js:88-123 | total plans, plans in progress, completed plans and the average progress |
| LearningPlans.ProgressSumInRange | src/Components/Dashboard/students/learning/LearningPlanList.js:123 | progresses in [0, 100] sum to at most 100 per plan |
| LearningPlans.StatusCountsWithinTotal | src/Components/Dashboard/students/learning/LearningPlanList.js:99-111 | in-progress and completed plans together never exceed the total |
| LearningPlans.AverageProgressInRange | src/Components/Dashboard/students/learning/LearningPlanList.js:123 | with progresses in [0, 100], the average progress is in [0, 100] |
| LearningPlans.TopicPreview | src/Components/Dashboard/students/learning/LearningPlanList.js:196-217 | no preview exactly for no topics; otherwise the first three topics are shown, a `more` count appears exactly beyond three, and shown plus more is all topics |
| Avatar.Firsts | src/Components/Navbar/avatar.js:11-12 | one upper-cased first letter per non-empty part, in order |
| Avatar.Initials | src/Components/Navbar/avatar.js:8-13 | a missing or empty name gives no initials; otherwise the call throws exactly when a space-separated part is empty, and else gives one upper-cased first letter per part |
| Avatar.InitialsOfWords | src/Components/Navbar/avatar.js:8-13 | words joined by single spaces give back the initials of those words |
| Avatar.LeadingSpaceThrows | src/Components/Navbar/avatar.js:11 | a name starting with a space throws |
| AITestGenerator.ParsedOr | src/Components/Dashboard/teacher/create/AITestGenerator.js:103 | `parseInt(v) || d`: a non-zero parse is kept, no number or zero gives the default |
| AITestGenerator.Clamp | src/Components/Dashboard/teacher/create/AITestGenerator.js:103 | the result is in [0, 100], unchanged inside it, 0 below and 100 above |
| AITestGenerator.ToggleTopic | src/Components/Dashboard/teacher/create/AITestGenerator.js:93-100 | selecting appends the topic; deselecting removes every copy of it and keeps the rest in order |
| AITestGenerator.Tagged | src/Components/Dashboard/teacher/create/AITestGenerator.js:81 | each fetched topic is tagged with its chapter, in order |
| AITestGenerator.DeselectChapter | src/Components/Dashboard/teacher/create/AITestGenerator.js:82-89 | the chapter's topics are dropped, and so are the selected ids that belong to it; no remaining selection is in that chapter |
| AITestGenerator.CheckForm | src/Components/Dashboard/teacher/create/AITestGenerator.js:113-123 | the form is accepted exactly when name, standard and subject are set, a topic is selected and the distribution totals 100; missing fields are reported first |
| AITestGenerator.GeneratorForm.constructor | src/Components/Dashboard/teacher/create/AITestGenerator.js:18-34 | the form's initial values: 2 questions per topic, 60 minutes, 40/40/20 |
| AITestGenerator.GeneratorForm.HandleDifficultyChange | src/Components/Dashboard/teacher/create/AITestGenerator.js:102-111 | the changed level becomes the clamped parsed value and nothing else changes |
| AITestGenerator.GeneratorForm.HandleTopicSelect | src/Components/Dashboard/teacher/create/AITestGenerator.js:93-100 | the selection becomes the toggled selection |
| AITestGenerator.GeneratorForm.HandleChapterSelect | src/Components/Dashboard/teacher/create/AITestGenerator.js:78-91 | selecting appends the chapter's tagged topics; deselecting drops them and their selected ids |
| AITestGenerator.GeneratorForm.ChangeStandard | src/Components/Dashboard/teacher/create/AITestGenerator.js:366-368 | a new standard clears the subject and the selected topics |
| AITestGenerator.GeneratorForm.ChangeSubject | src/Components/Dashboard/teacher/create/AITestGenerator.js:387-388 | a new subject clears the selected topics |
| AITestGenerator.GeneratorForm.ChangeTimeLimit | src/Components/Dashboard/teacher/create/AITestGenerator.js:349 | the time limit is the parsed value, or 60 |
| AITestGenerator.GeneratorForm.ChangeQuestionsPerTopic | src/Components/Dashboard/teacher/create/AITestGenerator.js:462 | questions per topic is the parsed value, or 1 |
| AITestGenerator.GeneratorForm.GenerateTest | src/Components/Dashboard/teacher/create/AITestGenerator.js:113-148 | a rejected form shows its error and sends nothing; an accepted one is sent, then shows success or the generation failure |
| AITestGenerator.AcceptedFormIsConsistent | src/Components/Dashboard/teacher/create/AITestGenerator.js:113-123 | an accepted form's distribution totals 100, and with at least one question per topic it asks for at least one question |
| Lists.Filter | src/Components/Dashboard/teacher/TestManagement.js:68-75 | `filter` keeps, in order, exactly the elements satisfying the predicate, never more than the input |
| Lists.FilterPartition | src/Components/Dashboard/teacher/TestManagement.js:70-72 | filtering by a predicate and by its complement splits the input |
| Lists.SortBy | src/Components/Dashboard/teacher/TestCheck/TCHome.js:83-93 | `sort` returns a permutation of its input ordered by the comparator |
| Lists.SortByOrders | src/Components/Dashboard/students/test/TestBrowse.js:130-143 | a list sorted by a key comparator keeps its members and is ordered by any comparator that agrees with it |
| Lists.TopK | src/Components/Dashboard/teacher/TeacherDashboard.js:125 | `sort` then `slice(0, k)` keeps min(k, n) elements of the input, ordered, none left out preceding one kept |
| Tally.Bump | src/Components/Dashboard/students/results/TestResultView.js:123-129 | one reduce step creates the key's counters on first sight and counts the item under exactly that key |
| Tally.TallyByCounts | src/Components/Dashboard/students/results/TestResultView.js:120-131 | the finished reduce has one entry per key that occurs, each counting exactly the items and hits with its key, and the totals add up to the number of items |
| Tally.TallyInFirstSeenOrder | src/Components/Dashboard/students/results/TestResultView.js:133 | `Object.entries` lists exactly the keys that occur, in the order in which they were first seen |
| Tally.FirstSeenIffOccurs | src/Components/Dashboard/students/test/TestBrowse.js:99-102 | a key has a first position exactly when it occurs |
| Text.TrimStart | src/Components/Dashboard/parents/ParentDashboard.js:52 | drops exactly the leading whitespace |
| Text.TrimEnd | src/Components/Dashboard/parents/ParentDashboard.js:52 | drops exactly the trailing whitespace |
| Text.Trim | src/Components/Dashboard/parents/ParentDashboard.js:52 | the result is a contiguous piece of the input with whitespace cut from both ends only, and has no surrounding whitespace |
| Text.TrimEmptyIffBlank | src/Components/Dashboard/parents/ParentDashboard.js:52 | `trim()` is empty exactly when the code is all whitespace |
| Text.Upper | src/Components/Dashboard/parents/ParentDashboard.js:61 | `toUpperCase` maps every character, keeping the length |
| Text.UpperIsUpper | src/Components/Dashboard/parents/ParentDashboard.js:61 | the upper-cased code has no lower-case letter, and upper-casing again changes nothing |
| Text.Lower | src/Components/Dashboard/students/test/TestBrowse.js:120 | `toLowerCase` maps every character, keeping the length |
| Text.Contains | src/Components/Dashboard/students/test/TestBrowse.js:120 | `includes` holds exactly when the needle occurs at some position |
| Text.EmptySearchMatchesAll | src/Components/Dashboard/students/test/TestBrowse.js:120 | an empty search term matches every name |
| Text.LexLeTotal | src/Components/Dashboard/teacher/TestCheck/TCHome.js:86 | any two names are comparable by `localeCompare` |
| Text.LexLeTransitive | src/Components/Dashboard/teacher/TestCheck/TCHome.js:86 | the name order is transitive |
| Text.LexLeAntisymmetric | src/Components/Dashboard/teacher/TestCheck/TCHome.js:86 | names ordered both ways are equal |
| Text.Split | src/Components/Navbar/avatar.js:10 | `split(' ')` gives at least one part and no part holds a space |
| Text.SplitCount | src/Components/Navbar/avatar.js:10 | there is one more part than there are spaces |
| Text.JoinSplit | src/Components/Navbar/avatar.js:10 | joining the parts with spaces gives back the name |
| Text.SplitJoin | src/Components/Navbar/avatar.js:10-12 | splitting space-free parts joined by spaces gives back the parts |
| Text.NatToString | src/Components/Dashboard/teacher/TestCheck/TestGradingInterface.js:50-54 | the decimal text of a number is non-empty digits that read back as the number, one digit exactly below 10 |
| Text.HoursMinutesSeconds | src/Components/Dashboard/teacher/TestCheck/TestGradingInterface.js:50-52 | hours, minutes below 60 and seconds below 60 that recompose to the count |
| Text.Pad2 | src/Components/Dashboard/students/test/EnhancedTestComponent.js:84-89 | `padStart(2, '0')` gives at least two digits that read back as the number, exactly two below 100 |

## Left out

- Network calls (every Axios `get`, `post` and `delete`) are not modelled. A reply is a parameter of the operation that uses it: `reply`, `fetched`, `generated`, `serverDeleted`. A failed request is `None` or `false`.
- The server lists are taken as given. This includes the `createdBy`/`teacherId` filters that pick the signed-in teacher's tests before any logic runs.
- `saveTest` in `AITestGenerator.js` is left out. It is a sequence of POSTs followed by a two-second `setTimeout` that resets the form, so it holds no logic beyond the network.
- The form's free-text `instructions` field is left out, since no rule reads it.
- Rendering (JSX, Tailwind classes, recharts) is left out. Only the values passed to it are modelled.
- React effect scheduling and timers are left out. The countdown's `setTimeout` is the explicit `TestSession.Session.Tick`, and the effect's decision is `TestSession.TimerEffect`.
- Navigation after a successful submission is left out, as are the loading flags (`loading`, `linking`, `isSubmitting` apart from the test session's).
- Dates are integer timestamps. `new Date(...)` parsing, invalid dates (whose `NaN` differences make `sort` inconsistent) and `toLocaleDateString` are not modelled.
- `parseInt` is not modelled as a parser. Its outcome is a parameter: `None` when no number is read, `Some(n)` otherwise.
- Percent.RoundedPercent: the model rounds on exact rationals, while the source rounds a double. The two differ at some exact halves: 23 of 40 is 57.5% exactly, but `(23 / 40) * 100` in doubles is just below 57.5 and shows 57.
- Percent.RoundReal: the two-decimal averages (`TestManagement.js:65`, `TestGradingInterface.js:92`) are rounded on exact reals, not on doubles. They can differ from the source in the last digit at exact half-hundredths.
- Percent.PercentOf: the sums of unrounded percentages in `TeacherDashboard.js` are exact reals. Double rounding error is not modelled. The 90/80/70/60 thresholds are compared exactly.
- Text.Upper: `toUpperCase` and `toLowerCase` map only the ASCII letters. Other letters are kept unchanged, and there is no Unicode case mapping.
- Text.LexLe: `localeCompare` is modelled as code-unit order. Locale collation (accents, case-insensitive tiers) is not modelled, so `TCHome.FilteredAndSorted` orders names by code units.
- Tally.TallyInFirstSeenOrder: object keys are listed in first-insertion order. JavaScript lists integer-like keys (such as a difficulty named `"1"`) first, in numeric order. That ordering is not modelled.
- Lists.SortBy: `Array.prototype.sort` is modelled as an insertion sort under a total preorder. The result is proved a sorted permutation, but no contract states stability (equal elements keeping their input order). Comparators that are not total preorders get no ordering guarantee in the model, and the engine's choice there is not modelled. One such case is `TestBrowse`'s difficulty order when a level is not Easy, Medium or Hard, which gives `NaN`.
- TestBrowse.FilterAndSort: it requires that, under the `difficulty` sort, every kept test has a known difficulty. An unknown level makes the source comparator return `NaN`, which leaves the order engine-defined.
- StudentTestDashboard.TestStats: physical tests are never counted as completed, as in the source, whose check for them is a stub that returns `false`.
- AITestGenerator.GeneratorForm.ChangeQuestionsPerTopic: the `min`/`max` attributes of the number input are browser hints, not checks. The model accepts any parsed value, negative ones included, as the handler does.
- TestSession.Session.Load: it requires the fetched questions to have distinct ids. The source never checks this; it relies on the server's `_id`s being unique. The answer count of `getAnsweredCount` equals the number of answered questions only under it.
- GradingRubric.GradingSheet.constructor: it requires distinct question ids. For a graded copy it also requires that the stored grading could have come from this sheet: at most one recommendation per question, each below full marks, and a total within the marks. The source checks neither; both are assumptions about the server's reply.
- GradingAnalytics.FormatDuration: it takes a natural number of seconds. The negative time that `EnhancedTestComponent.js` can submit (see Findings) would show as `-2m -40s` for -100 in the source; that rendering is not modelled.
- `Loading.js`, the clipboard and message timers of `ParentLinking.js`, and the display-only pages are not part of this model.

## Findings

The classes `TestSession.Session` and `GradingRubric.GradingSheet` keep the source's behaviour as written. For each row, the corrected definition sits beside the written one, with the intended property proved about it.

| source | as written | input that shows it | evidently intended | confidence | as-written member | corrected member |
|---|---|---|---|---|---|---|
| src/Components/Dashboard/students/test/EnhancedTestComponent.js:68 | the time spent is `timeLimit * 60 - timeLeft`, but the countdown starts at `timeLimit * 60 \|\| 3600` (line 38) | a test with no time limit, submitted at once: the countdown is at 3600 and the time spent is -3600 | the time spent is measured from the countdown's real start, so it lies in `[0, start]` | not executed | TestSession.TimeSpentAsWrittenNegative | TestSession.TimeSpent |
| src/Components/Dashboard/students/StudentDashboard.js:136-137 | completed tests is the number of the student's results, so pending is the test count minus the result count | one test that the student submitted twice: total 1, completed 2, pending -1 | completed counts the distinct tests taken, so pending is never negative and is the number of tests not taken | not executed | StudentDashboard.RetakeMakesPendingNegative | StudentDashboard.QuickStatsOf |
| src/Components/Dashboard/teacher/TestCheck/EnhancedTestCheck.js:59-64 | re-opening a graded copy rebuilds the scores from the stored recommendations only, and only questions that lost marks have one | a copy graded 10 out of 10 on one question: it re-opens with no score, and recalculating gives total 0 | a question without a recommendation was scored full marks and re-opens at full marks | not executed | GradingRubric.PrefillAsWrittenLosesFullMarks | GradingRubric.PrefillRestoresScores |
