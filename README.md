# YExam logic model

YExam is a mock-exam web application: students take test papers and build their own
quizzes, and administrators maintain questions, exams and test papers. Most of the
repository is page rendering and database access. This project models the parts that
compute something, and proves what they promise:

- the scoring helpers of `lib/utils.ts`:
  - `formatTime`, as `H:MM:SS` / `M:SS`;
  - `calculatePercentage`, rounded to two decimals;
  - `calculateRank`, which sorts the caller's array in place and then calls `indexOf`.
- the dashboard statistics of `GET /api/dashboard/stats`: the totals, the rounded means, the
  best score, the time spent, the accuracy, the five most recent tests, and the per-subject
  grouping in first-appearance order;
- the custom-quiz API `GET`/`POST /api/quiz/custom`: the sign-in gate, the required
  fields, the defaults, and the owner's listing newest first;
- the state updaters and button tests of the admin and student pages:
  - the question editor, with its answer options and single correct answer;
  - the question and test-paper lists, with their search and `"all"` filters and badges;
  - the new-exam form, the user export page, the student quiz builder and the question
    import page.

Database reads become input sequences, and a database write becomes a new sequence. The
session becomes an optional user id; an empty id counts as signed out, as JavaScript's
falsy test does. The server's reply to a page's `fetch`, the identifier and time the
database assigns, and dates read from the clock are parameters. JavaScript numbers that
hold percentages are `real`. `Math.round(x)` is `floor(x + 1/2)`. Strings are sequences of
characters, and `toLowerCase` is ASCII lower-casing.

Modules:

| module | file | models |
|---|---|---|
| `Numbers` | numbers.dfy | `Math.round`, `Math.min`, `Math.max` |
| `Wrappers`, `Session` | wrappers.dfy, session.dfy | optional values; the session test |
| `Lists` | lists.dfy | `filter`, the checkbox toggle, `slice(0, n)` |
| `Text` | text.dfy | `toString`, `padStart`, `toLowerCase`, `includes`, `trim`; splitting at a separator to read a clock string back |
| `Utils` | utils.dfy | `lib/utils.ts` |
| `DashboardStats` | stats.dfy | `app/api/dashboard/stats/route.ts` |
| `CustomQuizRoute` | custom_quiz.dfy | `app/api/quiz/custom/route.ts` |
| `QuestionForm` | question_form.dfy | `app/admin/questions/new/page.tsx` |
| `QuestionList` | question_list.dfy | `app/admin/questions/page.tsx` |
| `TestPapers` | test_papers.dfy | `app/admin/test-papers/page.tsx` |
| `ExamFormPage` | exam_form.dfy | `app/admin/exams/new/page.tsx` |
| `UserExport` | export_options.dfy | `app/admin/users/export/page.tsx` |
| `QuizBuilder` | quiz_builder.dfy | `app/quiz/page.tsx` |
| `QuestionImport` | import_page.dfy | `app/admin/questions/import/page.tsx` |

`calculateRank` is a method over an `array<real>`: it sorts the array in place and then
searches it with a loop. `TallyBySubject` and `SummarizeSubjects` are methods with loops,
for the `forEach` that fills the subject map (its callback is the method `Bump`) and the
`for…of` loop that finalises each entry. Each of these methods is proved equal to a specification function, and the
properties are proved about that function. Everything else in the source is built from
spreads, `map`, `filter` and conditional expressions, so it is modelled as functions.
The test-paper list's `getDifficultyColor` (app/admin/test-papers/page.tsx:85-92) is the
same switch as the question list's, so `QuestionList.DifficultyColor` models both.
The export and import pages both show `history.slice(0, 5)`
(app/admin/users/export/page.tsx:348, app/admin/questions/import/page.tsx:350), which is
`Lists.Take(history, 5)`.
An attempt's `timeSpent` is stored in whole minutes (app/api/exam/[testPaperId]/submit/route.ts:47),
so the dashboard's `totalTimeSpent`, the summed minutes over 60, is in hours; the dashboard
shows it with an `h` suffix (app/dashboard/page.tsx:176).

## Model

| member | source | states |
|---|---|---|
| Numbers.Round | app/api/dashboard/stats/route.ts:41 | `Math.round(x)` is the integer nearest to `x`, with ties rounded up |
| Numbers.RoundOfInteger | app/api/dashboard/stats/route.ts:41 | rounding a whole number returns it |
| Numbers.RoundMonotone | app/api/dashboard/stats/route.ts:41 | rounding preserves order |
| Numbers.RoundWithin | app/api/dashboard/stats/route.ts:60 | a value between two integers rounds to an integer between them, so a share in [0, 100] rounds into [0, 100] |
| Numbers.RatioWithin | app/api/dashboard/stats/route.ts:60 | a part no larger than a positive whole gives a ratio between 0 and 1 |
| Lists.Filter | app/admin/questions/page.tsx:71 | `filter` never lengthens the array and keeps only elements that pass the test |
| Lists.FilterMultiset | app/admin/questions/page.tsx:71 | `filter` keeps each passing element exactly as often as it occurs, and drops each failing one |
| Lists.FilterIsSubseq | app/admin/questions/page.tsx:71 | `filter` keeps the original order |
| Lists.FilterAllKept | app/admin/questions/page.tsx:71 | a test every element passes returns the whole array |
| Lists.FilterAppend | app/admin/questions/page.tsx:71 | filtering distributes over concatenation |
| Lists.FilterMembers | app/admin/questions/page.tsx:71 | an element is kept if and only if it occurs and passes the test |
| Lists.FilterCons | app/admin/questions/page.tsx:71 | filtering an array that starts with `x` keeps `x` exactly when it passes |
| Lists.FilterAgreeing | app/admin/questions/page.tsx:71 | two tests that agree on every element give the same result |
| Lists.FilterNoneKept | app/admin/questions/page.tsx:71 | a test no element passes gives the empty array |
| Lists.RemoveAll | app/admin/exams/new/page.tsx:81 | `filter(id => id !== x)` drops every copy of `x` and keeps the other elements with their counts |
| Lists.RemoveAllIsSubseq | app/admin/exams/new/page.tsx:81 | removing an id keeps the others in order |
| Lists.RemoveAllAbsent | app/admin/exams/new/page.tsx:81 | removing an id that is absent changes nothing |
| Lists.RemoveAllAppend | app/admin/exams/new/page.tsx:81 | removal distributes over concatenation |
| Lists.Toggle | app/admin/exams/new/page.tsx:80-82 | an absent id is appended; a present one is removed with every copy, and the rest keep their order |
| Lists.ToggleTwiceRestores | app/admin/exams/new/page.tsx:77-84 | toggling an absent id twice restores the list |
| Lists.MapSeq | app/api/dashboard/stats/route.ts:114 | `Array.map`: one result per element, each the function of the element at the same position |
| Lists.Take | app/api/dashboard/stats/route.ts:64 | `slice(0, n)` is the prefix of length `min(n, length)` |
| Text.DigitChar | lib/utils.ts:14 | the digit character of a value below ten is a decimal digit |
| Text.DigitValue | lib/utils.ts:14 | a digit character's value is below ten |
| Text.NatToString | lib/utils.ts:14 | `toString` of a whole number is a string of digits with no leading zero; it is one character long if and only if the number is below ten, and at most two below 100 |
| Text.NatToStringRoundTrip | lib/utils.ts:14 | reading back `toString(n)` gives `n` |
| Text.NatToStringInjective | lib/utils.ts:14 | different numbers have different decimal strings |
| Text.LeadingNonZeroPositive | lib/utils.ts:14 | a numeral that starts with a non-zero digit has a positive value |
| Text.CanonicalRoundTrip | lib/utils.ts:14 | a numeral without a leading zero is the `toString` of its value |
| Text.LeadingZeroValue | lib/utils.ts:14 | a leading zero does not change a numeral's value |
| Text.Repeat | lib/utils.ts:14 | a repeated character gives a string of that length holding only that character |
| Text.PadStart | lib/utils.ts:14 | `padStart(n, c)` gives length `max(n, length)`: fill characters followed by the original string |
| Text.TwoDigits | lib/utils.ts:14 | `toString().padStart(2, '0')` of a value below 100 gives exactly two digits that read back as the value |
| Text.TwoDigitsOfValue | lib/utils.ts:14 | every two-digit string is the padded form of its own value |
| Text.Split | lib/utils.ts:14 | splitting a clock string at its colons, the reading direction `formatTime` is proved against, gives at least one field |
| Text.SplitNoSeparator | lib/utils.ts:16 | a string without the separator splits into itself |
| Text.SplitAt | lib/utils.ts:14 | a separator-free field, the separator and a rest split into that field followed by the rest's fields |
| Text.JoinSplit | lib/utils.ts:14 | joining the fields of `split` with the separator gives back the string |
| Text.SplitThree | lib/utils.ts:14 | three separator-free fields joined by the separator split back into them |
| Text.SplitTwo | lib/utils.ts:16 | two separator-free fields joined by the separator split back into them |
| Text.Lower | app/admin/questions/page.tsx:72 | `toLowerCase` keeps the length and lower-cases each ASCII letter |
| Text.IncludesEmpty | app/admin/questions/page.tsx:72 | every string includes the empty string |
| Text.LowerIdempotent | app/admin/questions/page.tsx:72 | lower-casing twice equals lower-casing once |
| Text.ContainsIgnoringCaseFacts | app/admin/questions/page.tsx:72-73 | the search ignores the case of the term, and an empty term matches everything |
| Text.TrimStart | app/admin/questions/new/page.tsx:412 | drops exactly the leading white space |
| Text.TrimEnd | app/admin/questions/new/page.tsx:412 | drops exactly the trailing white space |
| Text.TrimEmptyIffBlank | app/admin/questions/new/page.tsx:412 | `trim()` is empty if and only if the string holds only white space |
| Utils.FormatTime | lib/utils.ts:8-17 | `H:MM:SS` when there is at least one hour, else `M:SS`, with unpadded leading field; `FormatTimeRoundTrip` and `ParseTimeCanonical` make it a bijection onto that shape |
| Utils.TimeComponents | lib/utils.ts:9-11 | hours·3600 + minutes·60 + secs is the input; minutes and secs are below 60; hours are positive if and only if the input is at least 3600 |
| Utils.DigitsHaveNoColon | lib/utils.ts:14 | a string of digits contains no colon |
| Utils.FormatTimeShape | lib/utils.ts:13-16 | the output has three colon-separated fields if and only if the input is at least 3600, otherwise two |
| Utils.FormatTimeFields | lib/utils.ts:14-16 | the seconds field is always two digits; minutes are two digits in the hour form and unpadded otherwise; hours are unpadded |
| Utils.ClockFields | lib/utils.ts:14-16 | both clock forms split on ':' into their fields |
| Utils.FormatTimeRoundTrip | lib/utils.ts:8-17 | reading the clock string back gives the original number of seconds |
| Utils.ParseClock | lib/utils.ts:14-16 | each clock form reads back as h·3600 + m·60 + s |
| Utils.ParseClockFields | lib/utils.ts:14-16 | the fields of each clock form read back as h·3600 + m·60 + s |
| Utils.ParseTimeCanonical | lib/utils.ts:8-17 | a clock string in `formatTime`'s shape is the `formatTime` of its value, so the format is a bijection onto its shape |
| Utils.ParseFieldsInjective | lib/utils.ts:13-16 | two field lists in the clock shape with the same value are equal |
| Utils.FieldsForm | lib/utils.ts:13-16 | a readable field list has three fields exactly when its value is at least 3600, in the layout of the matching form |
| Utils.ClockInjective | lib/utils.ts:9-11 | hours, minutes below 60 and seconds below 60 are determined by the total |
| Utils.CanonicalInjective | lib/utils.ts:14 | unpadded numerals with the same value are equal |
| Utils.TwoDigitInjective | lib/utils.ts:14 | two-digit fields with the same value are equal |
| Utils.ClockDecompose | lib/utils.ts:9-11 | splitting h·3600 + m·60 + s returns h, m and s |
| Utils.CalculatePercentage | lib/utils.ts:19-22 | 0 for a zero total, with no division; otherwise obtained/total·100 to the nearest hundredth, and a whole number of hundredths |
| Utils.PercentageOfFullMarks | lib/utils.ts:21 | full marks give exactly 100 |
| Utils.PercentageBounds | lib/utils.ts:21 | for 0 ≤ obtained ≤ total the result lies in [0, 100] |
| Utils.PercentageMonotone | lib/utils.ts:21 | more marks never give a lower percentage |
| Utils.Rank | lib/utils.ts:24-27 | the reference rank: 1 + the number of strictly higher scores when the score occurs, else `indexOf`'s -1 + 1 = 0; `CalculateRank` is proved to return it |
| Utils.CountAboveAppend | lib/utils.ts:25-26 | counting the scores above `x` distributes over concatenation |
| Utils.CountAbovePermutation | lib/utils.ts:25 | reordering the scores does not change how many lie above `x` |
| Utils.CountAboveNone | lib/utils.ts:26 | no score lies above the top score |
| Utils.CountAboveAll | lib/utils.ts:26 | scores that all lie above `x` are all counted |
| Utils.RankBounds | lib/utils.ts:26 | a present score ranks between 1 and the number of scores; an absent one gets 0 |
| Utils.CountAboveBound | lib/utils.ts:26 | at most all scores lie above `x` |
| Utils.TopScoreRanksFirst | lib/utils.ts:26 | the highest score ranks 1 |
| Utils.RankMonotone | lib/utils.ts:26 | a higher score never ranks below a lower one, and equal scores share a rank |
| Utils.CountAboveAntitone | lib/utils.ts:26 | a higher threshold leaves fewer scores above it |
| Utils.RankFromSorted | lib/utils.ts:25-26 | in a descending order of the scores, the first position of a score plus one is 1 + the number of strictly greater scores |
| Utils.SortedDescUnique | lib/utils.ts:25 | two descending orders of the same scores are equal, so the comparator fixes the sorted array |
| Utils.MaxIndexFrom | lib/utils.ts:25 | finds a position holding the largest score from `lo` on |
| Utils.Swap | lib/utils.ts:25 | exchanges two positions and changes nothing else |
| Utils.SortDescending | lib/utils.ts:25 | `sort((a, b) => b - a)` leaves the array sorted descending and a permutation of its contents |
| Utils.IndexOf | lib/utils.ts:26 | returns the first position holding `x`, or -1 exactly when `x` is absent |
| Utils.CalculateRank | lib/utils.ts:24-27 | the caller's array ends sorted descending with the same contents; the rank is 1 + the number of strictly greater scores, or 0 when the score is absent |
| DashboardStats.AverageScore | app/api/dashboard/stats/route.ts:40-42 | 0 without attempts; otherwise the integer nearest the mean percentage |
| DashboardStats.SumPercentagesBounds | app/api/dashboard/stats/route.ts:41 | percentages in [0, 100] sum to at most 100 per attempt |
| DashboardStats.AverageScoreBounds | app/api/dashboard/stats/route.ts:40-42 | with percentages in [0, 100] the average lies in [0, 100] |
| DashboardStats.MaxPercentage | app/api/dashboard/stats/route.ts:44 | `Math.max` is at least every percentage and equals one of them |
| DashboardStats.BestScore | app/api/dashboard/stats/route.ts:43-45 | 0 without attempts; otherwise at least every percentage and equal to one of them |
| DashboardStats.TotalTimeSpent | app/api/dashboard/stats/route.ts:46-48 | 0 without attempts; otherwise the integer nearest the summed minutes over 60, that is the total in whole hours |
| DashboardStats.TimeSumSkipsMissing | app/api/dashboard/stats/route.ts:47 | a missing `timeSpent` counts as 0: the total equals the total over attempts that have one |
| DashboardStats.TimeSumAppend | app/api/dashboard/stats/route.ts:47 | the time total distributes over concatenation |
| DashboardStats.CountCorrect | app/api/dashboard/stats/route.ts:60 | the correct answers are at most all answers |
| DashboardStats.Accuracy | app/api/dashboard/stats/route.ts:59-61 | 0 without answers, and always in [0, 100] |
| DashboardStats.AccuracyNearest | app/api/dashboard/stats/route.ts:60 | with answers, the integer nearest correct/total·100 |
| DashboardStats.AccuracyAllCorrect | app/api/dashboard/stats/route.ts:60 | all answers correct gives 100 |
| DashboardStats.FullShare | app/api/dashboard/stats/route.ts:60 | n/n·100 rounds to 100 |
| DashboardStats.AccuracyNoneCorrect | app/api/dashboard/stats/route.ts:59-61 | no correct answer gives 0 |
| DashboardStats.Recent | app/api/dashboard/stats/route.ts:65-69 | copies id, title, marks and percentage; `completedAt` is `submittedAt`, or `startedAt` when it is missing |
| DashboardStats.RecentTests | app/api/dashboard/stats/route.ts:64-70 | `min(5, count)` entries, each built from the attempt at the same position of the newest-first list |
| DashboardStats.Names | app/api/dashboard/stats/route.ts:75 | one subject name per attempt, in order (`MapSeq` of the subject) |
| DashboardStats.Subjects | app/api/dashboard/stats/route.ts:114-115 | one subject per map entry, in order (`MapSeq` of the key) |
| DashboardStats.DedupSound | app/api/dashboard/stats/route.ts:76-77 | first-appearance order has no repeats and holds every name that occurs |
| DashboardStats.Find | app/api/dashboard/stats/route.ts:76 | `has`/`get` find the entry for a subject, or report that none exists |
| DashboardStats.TallyBySubject | app/api/dashboard/stats/route.ts:73-88 | the `forEach` loop builds the same map as the fold over the attempts |
| DashboardStats.Bump | app/api/dashboard/stats/route.ts:75-87 | the callback (create a zeroed entry for a new subject, then add one test and the percentage) is one step of that fold |
| DashboardStats.GroupSubjects | app/api/dashboard/stats/route.ts:73-88 | the map has one entry per distinct subject, in first-appearance order |
| DashboardStats.GroupTallies | app/api/dashboard/stats/route.ts:86-87 | each entry counts exactly that subject's attempts and sums exactly their percentages |
| DashboardStats.AddAttemptCorrect | app/api/dashboard/stats/route.ts:75-87 | one `forEach` step keeps every entry's counts exact |
| DashboardStats.TallyStepOther | app/api/dashboard/stats/route.ts:85-87 | an attempt of another subject leaves an entry exact |
| DashboardStats.TallyStepSame | app/api/dashboard/stats/route.ts:86-87 | `tests += 1` and `totalScore += percentage` keep the entry of the attempt's subject exact |
| DashboardStats.TallyStepNew | app/api/dashboard/stats/route.ts:77-83 | a new subject's entry starts at 0 and after the step counts that one attempt |
| DashboardStats.OfSubjectSnoc | app/api/dashboard/stats/route.ts:75-87 | appending an attempt adds it to its own subject's attempts only |
| DashboardStats.NoneOfSubject | app/api/dashboard/stats/route.ts:76 | a subject with no attempt has no attempts to count |
| DashboardStats.TestsTotalUpdate | app/api/dashboard/stats/route.ts:86 | replacing one entry changes the test total by the difference |
| DashboardStats.GroupTestsTotal | app/api/dashboard/stats/route.ts:114-119 | the per-subject `tests` sum to `totalTests` |
| DashboardStats.SummarizeSubjects | app/api/dashboard/stats/route.ts:91-112 | the `for…of` loop gives each entry its rounded mean and its accuracy, in map order |
| DashboardStats.SummariesAt | app/api/dashboard/stats/route.ts:91-119 | one summary per entry, at the same position |
| DashboardStats.Statistics | app/api/dashboard/stats/route.ts:39-129 | the response body built from the user's attempts and answers; `GetStats` returns it and `SubjectWiseStatsCorrect` characterises its per-subject part |
| DashboardStats.GetStats | app/api/dashboard/stats/route.ts:10-12 | 401 if and only if there is no session user; otherwise the statistics of that user's attempts and answers |
| DashboardStats.SubjectWiseStatsCorrect | app/api/dashboard/stats/route.ts:73-119 | one entry per distinct subject in first-appearance order; `tests` is that subject's attempt count and at least 1; the average never divides by zero and is nearest the subject's mean; the accuracy is the accuracy of that subject's answers; the entries' `tests` sum to the response's `totalTests` |
| DashboardStats.SummariesTestsTotal | app/api/dashboard/stats/route.ts:114-119 | the projection keeps each entry's `tests`, so the entries' counts sum to the tallies' |
| CustomQuizRoute.NewQuiz | app/api/quiz/custom/route.ts:50-59 | the stored row: title, counts and subjects as given; `description` is null when absent or empty; `topicIds` is `[]` when absent; the owner is the session user |
| CustomQuizRoute.Post | app/api/quiz/custom/route.ts:37-62 | 401 without a session user and 400 without a title or subject, each leaving the table unchanged; otherwise 201 with the new row appended |
| CustomQuizRoute.InsertByDate | app/api/quiz/custom/route.ts:18-20 | inserting into a newest-first list keeps it newest first and adds exactly one copy of the quiz |
| CustomQuizRoute.SortNewestFirst | app/api/quiz/custom/route.ts:18-20 | `orderBy createdAt desc` gives a newest-first permutation |
| CustomQuizRoute.List | app/api/quiz/custom/route.ts:6-23 | 401 without a session user, else the caller's quizzes ordered newest first; `ListIsCallersQuizzes` characterises it |
| CustomQuizRoute.ListIsCallersQuizzes | app/api/quiz/custom/route.ts:10-21 | 401 if and only if there is no session user; otherwise exactly the caller's quizzes, each as often as stored, newest first |
| CustomQuizRoute.CreatedQuizIsListed | app/api/quiz/custom/route.ts:50-62 | a created quiz appears in its owner's listing, and no other user's quizzes change |
| QuestionForm.InitialForm | app/admin/questions/new/page.tsx:34-51 | four empty, incorrect options with the distinct ids "1" to "4" |
| QuestionForm.HandleInputChange | app/admin/questions/new/page.tsx:63-68 | the named field takes the value and every other field is unchanged |
| QuestionForm.FieldsDetermineForm | app/admin/questions/new/page.tsx:10-28 | a form is determined by its fields |
| QuestionForm.InputChangeUndo | app/admin/questions/new/page.tsx:63-68 | writing back a field's old value restores the form |
| QuestionForm.SetOptionField | app/admin/questions/new/page.tsx:74 | `{...option, [field]: value}` changes exactly that field of the option |
| QuestionForm.HandleOptionChange | app/admin/questions/new/page.tsx:70-77 | only the options with that id change, and only in the named field; the other form fields are unchanged |
| QuestionForm.OptionChangeAbsentId | app/admin/questions/new/page.tsx:70-77 | an id no option has changes nothing |
| QuestionForm.AddOptionAsWritten | app/admin/questions/new/page.tsx:79-85 | appends `{id: str(length + 1), text: '', isCorrect: false}` and changes nothing else |
| QuestionForm.RemoveOption | app/admin/questions/new/page.tsx:87-94 | no change with two or fewer options; otherwise every option with that id goes and every other option stays, as often as it occurs and in order |
| QuestionForm.RemoveOptionKeepsTwo | app/admin/questions/new/page.tsx:87-94 | with distinct ids at least two options remain, and the ids stay distinct |
| QuestionForm.FilterDropsAtMostOne | app/admin/questions/new/page.tsx:91 | with distinct ids the filter drops at most one option |
| QuestionForm.SubseqDistinctIds | app/admin/questions/new/page.tsx:91 | dropping options keeps the ids distinct |
| QuestionForm.SubseqMembers | app/admin/questions/new/page.tsx:91 | a kept option was there before |
| QuestionForm.MaxIdValue | app/admin/questions/new/page.tsx:80 | no option id reads as a number above it |
| QuestionForm.AddOption | app/admin/questions/new/page.tsx:79-85 | appends an empty option whose id is one more than the largest id in use, and changes nothing else |
| QuestionForm.AddOptionKeepsIdsDistinct | app/admin/questions/new/page.tsx:79-85 | adding an option keeps the ids distinct |
| QuestionForm.AddOptionAsWrittenDuplicatesId | app/admin/questions/new/page.tsx:79-94 | after removing option "1", adding an option repeats id "4"; removing "2" and then "4" leaves one option |
| QuestionForm.RemoveThenAdd | app/admin/questions/new/page.tsx:79-94 | the option list after removing "1" and adding an option |
| QuestionForm.RemoveTwice | app/admin/questions/new/page.tsx:87-94 | with two options sharing id "4", removing "2" and then "4" leaves one option |
| QuestionForm.DropFirst | app/admin/questions/new/page.tsx:91 | filtering out an id only the first option has drops the first option |
| QuestionForm.HandleCorrectAnswerChange | app/admin/questions/new/page.tsx:96-104 | an option is correct if and only if its id is the chosen one; ids, texts, order and length are unchanged |
| QuestionForm.ExactlyOneCorrect | app/admin/questions/new/page.tsx:99-102 | with distinct ids and the chosen id present, exactly one option is correct |
| QuestionForm.CorrectAnswerIdempotent | app/admin/questions/new/page.tsx:96-104 | choosing the same answer twice equals choosing it once |
| QuestionForm.SaveEnabled | app/admin/questions/new/page.tsx:412 | the negation of the button's `disabled` expression; `SaveEnabledIff` restates it without `trim` |
| QuestionForm.SaveEnabledIff | app/admin/questions/new/page.tsx:412 | saving is possible if and only if no save is running and the question holds a character that is not white space |
| QuestionList.FilteredQuestions | app/admin/questions/page.tsx:71-78 | `questions.filter` with the four tests; `FilteredQuestionsIsSubseq` and `FilteredQuestionsMembers` characterise it |
| QuestionList.FilteredQuestionsIsSubseq | app/admin/questions/page.tsx:71 | the list shown keeps the fetched order |
| QuestionList.FilteredQuestionsMembers | app/admin/questions/page.tsx:71-78 | a question is shown if and only if its text or subject name contains the term ignoring case, and each select is "all" or equals its subject id, difficulty and type |
| QuestionList.NoCriteriaShowsAll | app/admin/questions/page.tsx:72-77 | an empty search with every select on "all" shows every question |
| QuestionList.SearchIgnoresCase | app/admin/questions/page.tsx:72-73 | an upper-case and a lower-case search term show the same list |
| QuestionList.DifficultyColor | app/admin/questions/page.tsx:80-87 | the gray badge if and only if the difficulty is not easy, medium or hard |
| QuestionList.DifficultyColorsDiffer | app/admin/questions/page.tsx:81-84 | easy, medium and hard get three different badges |
| QuestionList.TypeLabel | app/admin/questions/page.tsx:89-97 | any other string is returned unchanged, and each of the four types gets a label that is not a type key |
| QuestionList.TypeLabelsDiffer | app/admin/questions/page.tsx:90-95 | the four types get four different labels |
| TestPapers.FilteredTestPapers | app/admin/test-papers/page.tsx:75-83 | `testPapers.filter` with the four tests; `FilteredTestPapersIsSubseq` and `FilteredTestPapersMembers` characterise it |
| TestPapers.FilteredTestPapersIsSubseq | app/admin/test-papers/page.tsx:75 | the papers shown keep the fetched order |
| TestPapers.FilteredTestPapersMembers | app/admin/test-papers/page.tsx:75-83 | a paper is shown if and only if its title, description or exam name contains the term ignoring case, and each select is "all" or equals its exam id, subject id and difficulty |
| TestPapers.NoCriteriaShowsAll | app/admin/test-papers/page.tsx:76-82 | an empty search with every select on "all" shows every paper |
| TestPapers.QuestionPreview | app/admin/test-papers/page.tsx:266-278 | the first `min(4, n)` questions; a "+k more" tile exactly when n > 4, with k = n − 4 |
| TestPapers.PreviewAccountsForAll | app/admin/test-papers/page.tsx:266-278 | the tiles and the "+k more" count add up to the number of questions |
| ExamFormPage.InitialForm | app/admin/exams/new/page.tsx:33-44 | the empty form cannot be submitted |
| ExamFormPage.HandleInputChange | app/admin/exams/new/page.tsx:70-75 | the named field takes the value and every other field is unchanged |
| ExamFormPage.HandleSubjectToggle | app/admin/exams/new/page.tsx:77-84 | an unchecked subject is appended; a checked one is removed with every copy, and the others keep their order; no other field changes |
| ExamFormPage.SubjectToggleTwice | app/admin/exams/new/page.tsx:77-84 | toggling a subject that is not selected twice restores the form |
| ExamFormPage.SubmitEnabled | app/admin/exams/new/page.tsx:355 | the negation of the button's `disabled` expression; `SubmitEnabledIff` restates it without `trim` |
| ExamFormPage.SubmitEnabledIff | app/admin/exams/new/page.tsx:355 | submit is disabled if and only if saving, or the name is blank, or no category is chosen, or no subject is checked |
| UserExport.InitialOptions | app/admin/users/export/page.tsx:36-48 | the default options allow an export |
| UserExport.ToggleField | app/admin/users/export/page.tsx:108-115 | an unchecked column is appended; a checked one is removed with every copy, and the rest keep their order; format, dates and filters are unchanged |
| UserExport.ToggleFieldTwice | app/admin/users/export/page.tsx:108-115 | toggling a column that is not checked twice restores the options |
| UserExport.ExportEnabled | app/admin/users/export/page.tsx:324 | the negation of the button's `disabled` expression; `InitialOptions` and `ToggleDisablesExport` say when it holds |
| UserExport.ToggleDisablesExport | app/admin/users/export/page.tsx:324 | a toggle leaves no column if and only if it unchecks the only column name in the list |
| QuizBuilder.CheckSubject | app/quiz/page.tsx:290-300 | checking appends the id even when it is already there; unchecking removes every copy and keeps the rest in order; nothing else changes |
| QuizBuilder.CheckThenUncheck | app/quiz/page.tsx:290-300 | checking and unchecking a subject that is not selected restores the form |
| QuizBuilder.Request | app/quiz/page.tsx:98-105 | the posted body carries the form's title and subject ids |
| QuizBuilder.HandleCreateQuiz | app/quiz/page.tsx:90-125 | without a subject, only an alert and no request; on success the form closes, resets to the defaults and the lists are fetched again; on failure an alert and no change |
| QuizBuilder.CreateAgainNeedsSubject | app/quiz/page.tsx:93-116 | after a successful create, pressing create again only alerts |
| QuizBuilder.SentRequestOutcome | app/api/quiz/custom/route.ts:43-57 | a request the page sends is created if and only if its title is not empty; otherwise it gets 400; the page's empty description is stored as null |
| QuestionImport.Classify | app/admin/questions/import/page.tsx:280-285 | Successful if and only if `success`; Partial if and only if not `success` and something was imported; Failed otherwise |
| QuestionImport.BoxClass | app/admin/questions/import/page.tsx:259-264 | green, yellow or red panel by `success`, then `importedQuestions > 0`; `PresentationFollowsClassification` ties it to `Classify` |
| QuestionImport.HeadingClass | app/admin/questions/import/page.tsx:273-278 | green, yellow or red heading colour in the same three cases |
| QuestionImport.HeadingText | app/admin/questions/import/page.tsx:280-285 | "Import Successful", "Partial Import Success" or "Import Failed" in the same three cases |
| QuestionImport.BodyClass | app/admin/questions/import/page.tsx:287-292 | green, yellow or red body colour in the same three cases |
| QuestionImport.ResultIcon | app/admin/questions/import/page.tsx:267-271 | the check icon when `success`, else the alert icon; `IconIsTwoWay` states it |
| QuestionImport.PresentationFollowsClassification | app/admin/questions/import/page.tsx:259-293 | panel colour, heading colour, heading text and body colour agree for two results if and only if their classes agree |
| QuestionImport.IconIsTwoWay | app/admin/questions/import/page.tsx:267-271 | the icon depends only on `success`, so a partial import shows the failure icon |
| QuestionImport.HandleFileSelect | app/admin/questions/import/page.tsx:90-96 | choosing a file selects it and clears the previous result; no file changes nothing |
| QuestionImport.HandleImport | app/admin/questions/import/page.tsx:98-130 | with no file nothing happens; otherwise the received body or the network-error result is shown and importing stops |
| QuestionImport.RefreshUnlessFailed | app/admin/questions/import/page.tsx:114-117 | the history is fetched again if and only if a file was imported and the result is not classified Failed |
| QuestionImport.NetworkErrorIsFailure | app/admin/questions/import/page.tsx:119-126 | a thrown request gives a Failed result with zero counts and exactly one error, and no refresh |
| QuestionImport.ImportEnabled | app/admin/questions/import/page.tsx:241 | the negation of the button's `disabled` expression; `SelectThenImport` says when it holds |
| QuestionImport.SelectThenImport | app/admin/questions/import/page.tsx:90-99 | choosing a file while idle enables the button, and importing then always shows a result |

## Left out

- Prisma queries and writes, the NextAuth session lookup, `fetch`, router redirects, `alert`/`confirm`, the blob download and all JSX rendering are I/O or display. Database reads are input sequences. The session is an optional user id. Server replies are parameters.
- The `500 Internal server error` paths of the routes. The `try` blocks cover the session lookup, the database calls and, in `POST /api/quiz/custom`, `await request.json()` and the destructuring of its result (app/api/quiz/custom/route.ts:41). So a failing `getServerSession`, a body that is not JSON, and a body of `null` also give 500. The model's request body is always a parsed object, and none of these failures is modelled.
- The role checks and redirects in the admin pages' `useEffect` hooks, and the fetch-on-mount handlers: they are navigation and I/O.
- `cn` in `lib/utils.ts`: it wraps `clsx` and `tailwind-merge`, whose code is not part of this model.
- The question-form save handler, the exam save handler, the export request, the template download and quiz deletion: each only sends a request.
- Utils.FormatTime: takes a whole, non-negative number of seconds. Negative and fractional inputs, which JavaScript's `%` and `Math.floor` would also accept, are not modelled.
- Utils.CalculatePercentage: exact rational arithmetic. IEEE-754 rounding of the two multiplications by 100 is not modelled. The same holds for every percentage and mean in `DashboardStats`.
- Text.Lower: lower-cases ASCII letters only. Unicode case mapping is not modelled.
- Dates are opaque integers or strings. `toISOString`, `toLocaleDateString` and the clock reads for the export date range are not modelled.
- The custom-quiz listing orders by `createdAt` newest first. The order of quizzes with equal timestamps, which the database leaves open, is not modelled. Database defaults such as `isActive` are not modelled either.
- DashboardStats.GetStats: the per-subject answers are filtered from one answer sequence by subject name. The route instead queries the database once per subject, with the same filter.
- QuestionForm.HandleInputChange: requires the value to have the field's type. The TypeScript parameter is `any`. The text inputs pass strings. The numeric inputs pass `parseInt(e.target.value)` (app/admin/questions/new/page.tsx:366,377), which is `NaN` for a cleared box. `NaN` is not an integer, so that value is not modelled. The same holds for ExamFormPage.HandleInputChange (app/admin/exams/new/page.tsx:233,251,263,274) and QuestionForm.HandleOptionChange.
- QuestionForm.RemoveOption: the length guard reads the rendered `formData`, while the filter runs on the pending state. Two updates queued within one render are not modelled, so both read the same form.
- QuestionForm.AddOptionAsWritten: `newId` reads the rendered `formData.options.length` (app/admin/questions/new/page.tsx:80), while the append runs on the pending state. The model reads both from one form. The same holds for QuestionForm.AddOption.
- The question editor's `correctAnswer`, `explanation` and the fields of the other question types are plain field writes, covered by `HandleInputChange`.
- The test-paper preview tile's label, `type.replace('_', ' ').toUpperCase()`: display only.
- The history panels' status icons on the export and import pages: display only.

## Findings

| source | as written | input that shows it | evidently intended | confidence | as-written member | corrected member |
|---|---|---|---|---|---|---|
| app/admin/questions/new/page.tsx:79-85 | `addOption` names the new option `(options.length + 1).toString()`. After a removal this can be an id already in use. `removeOption` and `handleCorrectAnswerChange` select by id, so two options with one id are removed together and marked correct together. | the initial four options: remove "1", then add. The ids are "2","3","4","4". Removing "2" and then "4" leaves a single option, below the two-option minimum. | a new option gets an id no existing option has, for example one more than the largest numeric id | high (not executed) | QuestionForm.AddOptionAsWritten, QuestionForm.AddOptionAsWrittenDuplicatesId | QuestionForm.AddOption, QuestionForm.AddOptionKeepsIdsDistinct |
