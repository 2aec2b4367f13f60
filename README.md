# SGformer: a verified model of the form, submission and reception logic

SGformer is a small web application for school briefings and trial
lessons. Administrators build forms (from templates or from scratch),
families fill them in, and on the day of the event the reception desk scans
a barcode per submission to check the family in. Statistics panels then
summarise the answers.

This project models in Dafny:

- the three in-memory server handlers: check-ins (`CheckinApi`), forms
  (`FormsApi`) and submissions (`SubmissionsApi`). Each is a class whose
  `seq` field is the handler's module-level array. Each request is a method
  that changes that array in place and returns the response as a value.
- the client's state reducer and the dashboard badge (`App`).
- the answer sheet of the filling page (`FillForm`) and the form editor
  (`FormBuilder`, a class over the questions being edited).
- the reception desk (`CheckinManager`): decode, look up, deduplicate, call
  the check-in service, and update the local list. The client object for
  the check-in service is never defined in the application. It is modelled
  by a `CheckinApi.CheckinStore`, plus a `delivered` flag that says whether
  the request reached the service.
- the two statistics panels (`AdvancedStatistics`, `Statistics`): filters,
  histograms, tallies, the interest share and the most requested dates.
- `Server`: the form and submission handlers side by side, which is where the
  first finding below shows up.

Shared pieces are `Seqs` (filter, count, sum and subsequence lemmas),
`Records` (a JavaScript object as an insertion-ordered list of entries) and
`Types` (the records of `types.ts`, and JavaScript truthiness of an answer).

Things outside the program become parameters:
- the current time and `Date.now()` id digits;
- the calendar functions: day of a time stamp, hour, weekday, and instant
  in milliseconds;
- `JSON.parse` of a barcode;
- whether a network call got through.

A string field that is missing or falsy is the empty string: the code
treats the two alike everywhere it tests them.

## Model

| member | source | states |
|---|---|---|
| CheckinApi.CheckinStore.Query | api/checkin.js:9-23 | GET returns an order-preserving subsequence of the store; every record matches the `formId` and the calendar day when given; a matching record keeps all its copies and any other record has none |
| CheckinApi.QueryKeepsCopies | api/checkin.js:10-20 | the form filter followed by the day filter keeps every copy of a record matching both and no copy of any other |
| CheckinApi.CheckinStore.Create | api/checkin.js:29-56 | a missing `submissionId` or `formId` gives 400 and no change; a submission already checked in gives 409 with the stored record and no change; otherwise exactly one record goes at the end, with id `checkin-<stamp>`, `participantName` defaulting to 'Unknown', `checkinTime` to now, `createdAt` now; no two records ever share a submission |
| CheckinApi.CheckinStore.UpdateNotes | api/checkin.js:66-80 | an unknown id gives 404 and no change; otherwise only the first record with that id changes, and only in `notes` (kept when the new notes are empty) and `updatedAt`; the response is the updated record |
| CheckinApi.CheckinStore.Delete | api/checkin.js:90-98 | an unknown id gives 404 and no change; otherwise exactly the first record with that id is removed and returned, the others keep their order |
| CheckinApi.IndexOfId | api/checkin.js:69 | `findIndex`: the first position holding the id, or none exactly when no record has it |
| CheckinApi.FindBySubmission | api/checkin.js:36 | a stored record of that submission, or none exactly when there is none |
| CheckinApi.AppendKeepsUnique | api/checkin.js:35-54 | appending a record for a submission with no record keeps submissions unique |
| CheckinApi.RemoveKeepsUnique | api/checkin.js:97 | removing one record keeps submissions unique |
| CheckinApi.CheckInTwice | api/checkin.js:35-56 | two POSTs for one submission: the first creates a record, the second is refused with exactly that record, and the store gains one record |
| FormsApi.FormStore.AllForms | api/forms.js:63-65 | `getAllForms` returns the store itself, unchanged |
| FormsApi.FormStore.FormById | api/forms.js:67-69 | the first form with that id, or `null` exactly when no form has it |
| FormsApi.FormStore.CreateForm | api/forms.js:71-79 | one form at the end, id `form-<stamp>` unless the body carries one, the body's fields, both time stamps now |
| FormsApi.FormStore.UpdateForm | api/forms.js:82-94 | an unknown id fails with 'Form not found' and no change; otherwise the patch is overlaid on exactly the first matching form, which gets a new `updatedAt`; length and other forms unchanged |
| FormsApi.FormStore.DeleteForm | api/forms.js:96-104 | an unknown id fails and changes nothing; otherwise the first matching form goes, the handler's own submissions are filtered by form, none with that form remains, and with unique ids no form with that id remains |
| FormsApi.IndexOfForm | api/forms.js:83 | `findIndex`: the first matching position, or none exactly when there is none |
| FormsApi.Overlay | api/forms.js:88-92 | every field present in the patch wins, every absent one is kept, and `updatedAt` is now |
| FormsApi.RemoveFoundForm | api/forms.js:102 | with unique ids, splicing out the found form leaves no form with that id |
| SubmissionsApi.SubmissionStore.AllSubmissions | api/submissions.js:56-58 | `getAllSubmissions` returns the store itself, unchanged |
| SubmissionsApi.SubmissionStore.ByFormId | api/submissions.js:60-62 | exactly the submissions of that form, as a subsequence in store order, each with as many copies as in the store |
| SubmissionsApi.SubmissionStore.Create | api/submissions.js:64-72 | one record at the end, id `sub-<stamp>` unless the body carries one, and the server's `submittedAt` whatever the body says |
| SubmissionsApi.SubmissionStore.Delete | api/submissions.js:74-80 | an unknown id fails with 'Submission not found' and no change; otherwise only the first matching record is removed, the rest keep their order |
| SubmissionsApi.IndexOfSubmission | api/submissions.js:75 | `findIndex`: the first matching position, or none exactly when there is none |
| Server.DeleteFormLeavesSubmissions | api/forms.js:96-104 | as written: after a form is deleted, a submission of it stored through the submission handler is still there |
| Server.DeleteFormWithSubmissions | api/forms.js:96-104 | corrected: deleting a form removes every submission of it from the submission store and keeps the others in order |
| App.Reduce | App.tsx:103-139 | each part of the state changes only under the actions that name it; SET_LOADING, SET_FORMS, SET_SUBMISSIONS and SET_STATE install the values they carry; SET_ERROR sets the error and clears `loading`; an unknown action returns the state unchanged |
| App.LoginAndLogout | App.tsx:105-108 | LOGIN sets only the user; LOGOUT clears only the user and keeps forms and submissions |
| App.AddsAppendOne | App.tsx:109-125 | ADD_FORM and ADD_SUBMISSION put exactly one element at the end, keep the earlier ones and leave the other list alone |
| App.UpdateFormReplacesMatching | App.tsx:111-117 | UPDATE_FORM keeps the length and each position's id; matching forms become the payload, the others stay |
| App.DeleteFormCascades | App.tsx:118-123 | DELETE_FORM leaves no form with the id and no submission of that form, and keeps every other form and submission, in order |
| App.StatusOf | App.tsx:214-219 | the badge is 未回答 exactly for 0, 少数回答 for 1-4, 中程度 for 5-19 and 多数回答 for 20 or more |
| FillForm.InitialAnswers | App.tsx:390-399 | every question id gets an empty list (CHECKBOX) or an empty string, taken from the last question with that id; no other key exists |
| FillForm.LastWithId | App.tsx:393-395 | the question whose blank survives for an id is one with that id, and there is none exactly when no question has it |
| FillForm.DistinctIdsOwnBlank | App.tsx:393-395 | with distinct ids each question's key holds its own blank |
| FillForm.ToggleCheckbox | App.tsx:406-415 | checking appends the option to the current list; unchecking removes every copy of the option, keeps every copy of each other option and keeps their order; no other key changes |
| FillForm.CheckThenUncheck | App.tsx:406-415 | checking an option that was not listed and unchecking it gives the original answers back |
| FillForm.UncheckAppended | App.tsx:410-412 | unchecking an option just appended to a list that lacked it gives that list back |
| FillForm.BlankIsNotFilled | App.tsx:424-425 | the blank answer never passes the required check, and a freshly checked box always does |
| FillForm.FirstMissingRequired | App.tsx:422-431 | the first required question whose answer is falsy or an empty list, and none exactly when every required question is answered |
| FillForm.PrepareSubmission | App.tsx:417-440 | the submission goes ahead exactly when no required question is unanswered, with the form id, the user's email and the answers; otherwise the message names the first unanswered required question |
| FormBuilder.Edited | App.tsx:579-586 | the named field takes the value; setting a type other than RADIO or CHECKBOX also empties the options; nothing else changes |
| FormBuilder.Builder.Load | App.tsx:559-573 | loading a form or a template copies its title, description and questions |
| FormBuilder.Builder.AddQuestion | App.tsx:575-577 | one optional TEXT question with an empty text and id `q-<stamp>` at the end |
| FormBuilder.Builder.UpdateQuestion | App.tsx:579-586 | only the question at the index changes, as `Edited` says |
| FormBuilder.Builder.UpdateQuestionOption | App.tsx:588-592 | only that option of that question changes |
| FormBuilder.Builder.AddQuestionOption | App.tsx:594-601 | an empty option goes at the end of that question's options, which are created when missing; other questions unchanged |
| FormBuilder.Builder.RemoveQuestionOption | App.tsx:603-607 | `splice` removes that option and closes up the rest; an index past the end removes nothing |
| FormBuilder.Builder.RemoveQuestion | App.tsx:609-611 | exactly that position goes and the rest keep their order; an index outside the list removes nothing |
| FormBuilder.Builder.Save | App.tsx:613-637 | refused with the title message exactly when the title is empty; otherwise a create request for a new form or an update request for the edited one, carrying the editor's contents and the user's email |
| FormBuilder.RemoveAddedQuestion | App.tsx:609-611 | removing the question just added gives the earlier list back |
| FormBuilder.SavedUpdateCarriesEditor | App.tsx:626-628 | an update built by Save and applied by the form handler keeps the form's id and creation time and takes everything else from the editor |
| CheckinManager.FirstTruthy | components/CheckinManager.tsx:112-113 | the `a \|\| b \|\| c` chain: the answer of the first key whose answer is truthy, and none exactly when all are falsy |
| CheckinManager.ParticipantName | components/CheckinManager.tsx:110-124 | `parent（child）` when both names are present, the one present otherwise, '名前不明' when neither is |
| CheckinManager.ParentNameTakesFirstKey | components/CheckinManager.tsx:112-113 | the parent name is q1, else q10, else q16; the child name is q2, else q17; a later key is read only when the earlier ones are falsy |
| CheckinManager.ReplaceById | components/CheckinManager.tsx:145 | the list keeps its length; records with the id become the updated one, the others stay |
| CheckinManager.FindByPayload | components/CheckinManager.tsx:62 | the first listed submission whose id the payload carries, or none exactly when no submission has it |
| Types.FindForm | components/AdvancedStatistics.tsx:38 | `find`: the first form with that id, or none exactly when no form has it |
| Types.FindQuestion | components/AdvancedStatistics.tsx:42 | `find`: the first question with that id, or none exactly when no question has it |
| Types.FindSubmission | components/CheckinManager.tsx:62 | `find`: the first submission with that id, or none exactly when no submission has it |
| CheckinManager.Manager.LoadCheckins | components/CheckinManager.tsx:26-45 | with a form selected, the list becomes the service's check-ins of that form and day, or an error is shown when the call fails |
| CheckinManager.Manager.HandleScan | components/CheckinManager.tsx:47-108 | an unreadable barcode, an unknown submission or a submission already listed makes no call; the last also shows the listed record; otherwise the request carries the submission's id, form, derived name and empty notes; a created record is appended once; a service refusal maps to the duplicate message; the list only ever holds records the service holds |
| CheckinManager.Manager.CheckIn | components/CheckinManager.tsx:76-103 | a failed call or a refusal by the service shows the matching message and changes nothing; otherwise the one record the service creates, with the participant name, now and empty notes, goes at the end of both the service and the list, and the success message names the participant |
| CheckinManager.Manager.HandleDelete | components/CheckinManager.tsx:126-136 | nothing without confirmation; after the service deletes the record, only records with that id leave the list |
| CheckinManager.Manager.HandleEdit | components/CheckinManager.tsx:138-152 | the service updates the notes; only records with that id are replaced by the returned record, and the edit box closes |
| CheckinManager.Manager.SaveNotes | components/CheckinManager.tsx:142-151 | an unknown record gives the update-failed message and no change; otherwise the service updates exactly that record, the list replaces the records with its id by the answer, and the edit box closes |
| CheckinManager.ScanTwice | components/CheckinManager.tsx:69-90 | a second scan of a checked-in barcode is answered from the list with the stored record and does not reach the service |
| AdvancedStatistics.FilteredSubmissions | components/AdvancedStatistics.tsx:14-29 | a subsequence of the submissions holding exactly those of the chosen form submitted at or after the cutoff; 'all'/'all' keeps everything; every copy of a kept submission survives and no copy of another |
| AdvancedStatistics.FilteringKeepsCopies | components/AdvancedStatistics.tsx:17-26 | the form filter followed by the date filter keeps every copy of a submission passing both selectors and no copy of any other |
| AdvancedStatistics.SlotOf | components/AdvancedStatistics.tsx:68-75 | the bucket is 9-11, 12-14, 15-17, 18-20, 21 and later, and everything else including an unreadable time, each exactly |
| AdvancedStatistics.TimeAnalysis | components/AdvancedStatistics.tsx:57-78 | each of the six buckets counts the submissions in it, and the buckets sum to the number of submissions |
| AdvancedStatistics.WeeklyAnalysis | components/AdvancedStatistics.tsx:81-95 | each weekday counts the submissions on it; the seven counts plus the unreadable dates sum to the number of submissions |
| AdvancedStatistics.WeekStep | components/AdvancedStatistics.tsx:88-92 | one more submission counted under its weekday keeps every weekday count equal to the number of submissions on that day seen so far |
| AdvancedStatistics.MostFrequentAmong | components/AdvancedStatistics.tsx:279-285 | the reduce selects an entry whose count is at least every other, the last such entry |
| AdvancedStatistics.MostFrequentLabel | components/AdvancedStatistics.tsx:279-285 | the label shown is one whose count is at least every other count |
| AdvancedStatistics.CollectObservations | components/AdvancedStatistics.tsx:37-51 | the nested walk visits, in order, each answer whose form and question exist, with array answers joined by ', ' |
| AdvancedStatistics.CollectEntryObservations | components/AdvancedStatistics.tsx:41-51 | the inner walk over one submission's answers visits exactly its answers to questions of its form, in order |
| AdvancedStatistics.BumpTallies | components/AdvancedStatistics.tsx:45-50 | one increment keeps every tally equal to the count of the matching visited answers |
| AdvancedStatistics.AnswerTrends | components/AdvancedStatistics.tsx:34-55 | every question and answer tally equals the number of matching visited answers; a question appears exactly when one of its answers was visited |
| AdvancedStatistics.TallyTrends | components/AdvancedStatistics.tsx:45-50 | every question and answer tally equals the number of visited answers with that question text and answer text |
| AdvancedStatistics.ChangeIndex | components/AdvancedStatistics.tsx:99-105 | the answer is one of the five fixed labels exactly when it has an index, and the index is that label's |
| AdvancedStatistics.ChangeOf | components/AdvancedStatistics.tsx:113-117 | an answer counts under label j exactly when it answers a change-of-interest question and equals label j |
| AdvancedStatistics.TallyChanges | components/AdvancedStatistics.tsx:108-119 | each label counts the visited answers equal to it, and the total is at most the number of change-of-interest answers |
| AdvancedStatistics.ChangeStep | components/AdvancedStatistics.tsx:113-118 | one more visited answer, counted under its label when it has one, keeps every label count equal to its matching answers so far |
| AdvancedStatistics.InterestChanges | components/AdvancedStatistics.tsx:97-122 | exactly five labels; each counts its matching answers; the total is at most the number of matching answers and of visited answers |
| Statistics.Summary | components/Statistics.tsx:11-23 | `totalForms` and `totalSubmissions` are the input lengths, and the school parts never outnumber them |
| Statistics.SchoolForms | components/Statistics.tsx:15-19 | exactly the forms whose title contains 説明会, 体験授業 or アンケート, in order, each with as many copies as in the input |
| Statistics.BelongsToSchoolForm | components/Statistics.tsx:22 | true exactly when a school form has that id |
| Statistics.SchoolSubmissions | components/Statistics.tsx:21-23 | exactly the submissions of a school form, in order, each with as many copies as in the input |
| Statistics.QuestionAnswers | components/Statistics.tsx:34-37 | the answers kept are truthy and at most one per question |
| Statistics.EventAnswers | components/Statistics.tsx:27-38 | every answer collected from briefing and trial-lesson submissions is truthy |
| Statistics.QuestionAnswersMembers | components/Statistics.tsx:34-37 | an answer is kept for a submission exactly when it is the truthy answer stored for one of the wanted questions |
| Statistics.EventAnswersMembers | components/Statistics.tsx:27-38 | an answer is collected exactly when some submission whose form exists and is a briefing or trial lesson stores it, truthy, for a wanted question of that form |
| Statistics.AsWrittenMisreadsTheSurvey | components/Statistics.tsx:40-42 | as written, '非常に低くなった' (very much lower) counts as high interest and '高くなった' (higher) does not |
| Statistics.HighInterestOnTemplateOptions | components/SchoolTemplates.tsx:24-53 | on every option of the two interest questions of the templates the corrected test holds exactly for the high and became-high answers |
| Statistics.HighMark | components/Statistics.tsx:40-42 | an answer with '高い' or '高く' anywhere in it counts as high interest under the corrected test |
| Statistics.NoHighMark | components/Statistics.tsx:40-42 | an answer without the character '高' never counts as high interest under the corrected test |
| Statistics.RoundedPercent | components/Statistics.tsx:47 | 0 when the total is 0; otherwise the nearest integer to 100·high/total, halves rounded up; always 0..100, and 100 when every answer is high |
| Statistics.PercentFacts | components/Statistics.tsx:47 | the rounded quotient brackets 100·high/total within a half and never exceeds 100 |
| Statistics.Interest | components/Statistics.tsx:26-49 | with the test as a parameter: `total` is the number of interest answers, `high` the number passing the test, `high ≤ total`, and the percentage is their rounded share, 0 with no answers; `HighTestAsWritten()` gives the source as written ('高い' or '非常に'), `HighTest()` the corrected count ('高い' or '高く') |
| Statistics.InterestOnTheSurvey | components/Statistics.tsx:26-49 | one briefing survey answered '非常に低くなった' (very much lower) gives 1 high of 1 (100%) as written and 0 of 1 (0%) corrected |
| Statistics.SurveyAnswers | components/Statistics.tsx:27-38 | the one interest-question answer of that survey is the only answer the analysis reads |
| Statistics.CountDates | components/Statistics.tsx:66-71 | one entry per distinct string answer, holding how often it was given; array answers are not counted |
| Statistics.InsertKeepsOrder | components/Statistics.tsx:74 | inserting into a list sorted by descending count keeps it sorted |
| Statistics.ConsKeepsOrder | components/Statistics.tsx:74 | an entry counted at least as often as every entry of a sorted list keeps it sorted when put in front |
| Statistics.InsertStaysBelow | components/Statistics.tsx:74 | inserting keeps every count at or below a bound that the entry and the list respect |
| Statistics.SortByCount | components/Statistics.tsx:74 | the same entries, as a multiset, by non-increasing count |
| Statistics.Leading | components/Statistics.tsx:75 | `slice(0, 3)`: a prefix of at most three entries, the whole list when shorter |
| Statistics.LeadingHoldTallies | components/Statistics.tsx:66-75 | every entry shown carries the tally of its date |
| Statistics.LeadingAreMostFrequent | components/Statistics.tsx:73-75 | a tallied date not shown comes after three shown dates given at least as often |
| Statistics.LeadingDistinct | components/Statistics.tsx:66-75 | with each date tallied once, no date is shown twice |
| Statistics.DistinctOnce | components/Statistics.tsx:66-71 | a tally list with distinct dates holds each entry at most once |
| Statistics.PopularDates | components/Statistics.tsx:52-76 | at most three distinct dates, by non-increasing count, each with how often it was given; a date left out was given no more often than the third one shown |

## Left out

- HTTP status codes, headers, CORS and the method dispatch of the handlers. A status is a result variant. The 405 line reached after a response was already sent (api/checkin.js:105) is not modelled. Neither are the 500 paths, which no modelled input reaches.
- React rendering, hooks, routing, `alert`/`confirm` (a parameter of `HandleDelete`), and the `setTimeout` that clears the success message.
- The localStorage load and save of the client state, and the hard-coded login credentials.
- Barcode scanning through Quagga. The scanner's result is the `barcode` string.
- PDF and e-mail generation, and the e-mail notification after a submission.
- `services/apiService.ts`, the HTTP client, is not part of this model. A failed call is the `delivered` flag of the `CheckinManager` methods.
- `JSON.parse`, `Date` parsing, `toDateString`, `getHours`/`getDay` and time zones are function parameters.
- `Date.now()` ids are parameters, so the id collisions of two calls in the same millisecond are not modelled.
- Two scans racing between the duplicate check and the insert: the model runs calls one at a time.
- Floating-point display values: the progress-bar widths.
- The display order and top-three slice of each question's answer tallies in the trend table (`sort` and `slice(0, 3)` in its markup), which is rendering only; `AnswerTrends` states the tallies themselves.
- `handleInputChange` on the filling page, which only stores the typed value under the question id.
- Statistics.RoundedPercent: rounds the exact rational 100·high/total. JavaScript's `Math.round` works on a floating-point product, which can differ at an exact half.
- Statistics.CountDates: keeps entries in insertion order. `Object.entries` lists integer-like keys first, in numeric order. The template date options never are integer-like, but a free-text answer to a builder-made date question can be (such as "20240801"); such answers would come first among dates with equal counts, so which of several tied dates is shown third is not modelled.
- Statistics.SortByCount: the sort is a stable insertion sort. The stability of `Array.prototype.sort` is not stated in the contract, only the order by count and the permutation.
- AdvancedStatistics.WeeklyAnalysis: an unreadable time stamp is counted under no weekday. The source increments `weekDays[undefined]`, adding a NaN-valued 'undefined' entry to the table.
- AdvancedStatistics.MostFrequentLabel: works over the fixed labels only, so it never selects the 'undefined' entry above.
- FillForm.ToggleCheckbox: a non-empty string stored under a checkbox key is read as an empty list. The source would spread the string into characters when checking, or fail when unchecking; that cannot happen from the page, which keeps lists under checkbox keys.
- CheckinManager.ParticipantName: when the only name found is an array answer, the model sends and stores its ','-joined text where the source sends and stores the array itself; the server keeps any array, since an array is truthy (api/checkin.js:48). An empty list is therefore stored as 'Unknown' by the model and as `[]` by the source, and a list such as `['a','b']` is listed as "a,b" where React renders "ab"; only the success message joins with ','. An array name needs a builder-edited form: q1, q10, q16, q2 and q17 are TEXT or RADIO questions in every template.
- Submission answers: the model's `Answers` is a list of key/value entries, which could repeat a key where a JavaScript object cannot. The filling page builds answers only through `Records.Put`, which keeps the keys distinct (`Records.DistinctKeys`). The submission handlers take an answers value from the request body, and their contracts do not require distinct keys. The statistics walk over entries (`EntryObservations`) treats every entry as a key of its own, so it would visit a repeated key twice where `Object.entries` yields it once.
- FormBuilder.Builder: the editor's helpers copy the question list but mutate the shared question objects in place. The model changes a copy only, so aliasing between an edited form and the stored form is not captured.

## Findings

| source | as written | input that shows it | evidently intended | confidence | as-written member | corrected member |
|---|---|---|---|---|---|---|
| api/forms.js:61, 104 | `deleteForm` filters the form handler's own module-level `submissions`, which nothing ever fills; submissions live in the submission handler | create a form, store one submission for it through the submission handler, delete the form: the submission remains | deleting a form also deletes its submissions | high, not executed | Server.DeleteFormLeavesSubmissions | Server.DeleteFormWithSubmissions |
| components/Statistics.tsx:40-42 | an answer counts as high interest when it contains '高い' or '非常に' | the briefing survey's answer '非常に低くなった'（very much lower） counts as high interest; '高くなった' (higher) does not | count the high and became-high answers: contains '高い' or '高く' | medium, not executed | Statistics.IsHighInterestAsWritten, Statistics.AsWrittenMisreadsTheSurvey, Statistics.InterestOnTheSurvey | Statistics.IsHighInterest, Statistics.HighInterestOnTemplateOptions |
