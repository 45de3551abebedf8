# Course grades and renderer requests, modelled in Dafny

This project models two parts of the course backend.

The first part is the grade bookkeeping of the course controller
(`src/features/courses/course-controller.ts`):

- a student grade is an object whose `submitAnswer` raises the best score, counts the attempt
  and records the first and latest scores, and the answer leaves a workbook row;
- `createNewStudentGrade` inserts a zero-initialised grade whose seed is
  `Math.floor(Math.random() * 999999)`;
- the backfill loops (`createGradesForUserEnrollment`, `createGradesForQuestion` and
  `syncMissingGrades` with the flattening loop of `findMissingGrades`) create one grade per
  (user, question) pair that lacks one;
- `getGrades` checks that exactly one filter is set, then nests its includes topic ⊃ unit ⊃
  course up to the filtered level and picks per-grade or per-student attributes;
- `getQuestion` falls back to seed 666 when the student has no grade;
- the create and update operations translate a violated store constraint into
  AlreadyExists, NotFound or Wrapped errors.

The second part is the renderer helper (`src/utilities/renderer-helper.ts`):

- the role → permission level → output format chain;
- the `_.pick` whitelists applied to a renderer response;
- the request that `getProblem` builds: its parameter defaults, the merge of the caller's form
  data with the parameters, and the `for...in` loop that appends every value (array elements one
  by one) to the form body;
- the classification of a failed renderer call.

Modules:

- `Outcomes` holds Option/Result, store errors and the domain errors.
- `JsValues` holds the JavaScript values and the semantics of the lodash/spread operations used
  on plain objects. An object is the ordered list of its own properties.
- `RendererHelper` models the renderer helper.
- `MissingGrades` models the flattening loop of `findMissingGrades`.
- `GradeBook` holds the classes `StudentGrade` and `GradeTable`, with their methods.
- `GradeQueries` models `getGrades` and `getQuestion`.
- `ContentErrors` models the constraint-to-error translations.

The stored grades are objects of class `GradeTable`, a map from (user id, question id) to
`StudentGrade` objects. `GradeTable.Valid` keeps every grade filed under its own pair, so the
table holds at most one grade per pair. Each state-changing method is proved against a value
function: `AfterAttempt` for one answer, `NewGrade` for an insertion, and `Backfilled` for a
backfill. The properties the controller promises are lemmas about those functions.

## Model

| member | source | states |
|---|---|---|
| ContentErrors.CreateCourseFailure | src/features/courses/course-controller.ts:172-193 | AlreadyExists exactly for a unique violation of the course-code constraint. NotFound exactly for a foreign-key violation of the curriculum constraint. Anything else is Wrapped("Unknown error occurred") around the original error. |
| ContentErrors.CreateUnitFailure | src/features/courses/course-controller.ts:195-218 | AlreadyExists exactly for the name-per-course and order-per-course unique violations. NotFound exactly for the course foreign key. Everything else is the Wrapped unknown error. |
| ContentErrors.CreateTopicFailure | src/features/courses/course-controller.ts:220-246 | AlreadyExists exactly for the name-per-unit and order-per-unit unique violations. NotFound exactly for the unit and topic-type foreign keys. Everything else is the Wrapped unknown error. |
| ContentErrors.UpdateTopicFailure | src/features/courses/course-controller.ts:248-268 | AlreadyExists exactly for the two unique constraints of a topic. Every other error, foreign-key violations included, is the Wrapped unknown error. |
| ContentErrors.UpdateUnitFailure | src/features/courses/course-controller.ts:270-290 | AlreadyExists exactly for the two unique constraints of a unit. Every other error is the Wrapped unknown error. |
| ContentErrors.CreateQuestionFailure | src/features/courses/course-controller.ts:292-313 | AlreadyExists exactly for the order-per-topic unique violation. NotFound exactly for the topic foreign key. Everything else is the Wrapped unknown error. |
| ContentErrors.CreateEnrollmentFailure | src/features/courses/course-controller.ts:403-419 | Every foreign-key violation is NotFound, whatever constraint it names. AlreadyExists exactly for the user-per-course unique violation. Everything else is the Wrapped unknown error. |
| ContentErrors.UpdateAgreesWithCreate | src/features/courses/course-controller.ts:248-290 | An update of a unit or topic answers every error as the matching create does, except foreign-key violations, which an update wraps as unknown. |
| ContentErrors.TranslationsRespectErrorKind | src/features/courses/course-controller.ts:172-313 | No translation turns a foreign-key violation into AlreadyExists or a unique violation into NotFound. An unrecognised unique constraint is the Wrapped unknown error everywhere. |
| JsValues.ToNumber | src/utilities/renderer-helper.ts:216-217 | `Number(v)` on a boolean or number: NaN exactly for undefined or NaN, 0 for null, 0/1 for booleans, a number is kept. |
| JsValues.OmitBy | src/utilities/renderer-helper.ts:229-230 | `_.omitBy` keeps exactly the fields whose value is not dropped and adds no key. |
| JsValues.LookupOmitBy | src/utilities/renderer-helper.ts:229-230 | After `_.omitBy`, a key looks up its old value unless that value is dropped, in which case it is absent. Keys stay distinct. |
| JsValues.LookupAssign | src/utilities/renderer-helper.ts:227-231 | Spread semantics: a key of the later object takes its value there; any other key keeps the earlier object's value. |
| JsValues.AssignKeepsKeysDistinct | src/utilities/renderer-helper.ts:227-231 | Spreading into an object without repeated keys never repeats a key. |
| JsValues.LookupPick | src/utilities/renderer-helper.ts:153-168 | `_.pick` keeps exactly the listed keys the object has, with their values. |
| RendererHelper.OutputFormatForPermission | src/utilities/renderer-helper.ts:130-136 | SINGLE exactly when the level is below 10, SIMPLE exactly otherwise. |
| RendererHelper.PermissionForRole | src/utilities/renderer-helper.ts:138-149 | STUDENT→0, PROFESSOR→10, ADMIN→20, any other role→-1; the level is below 10 exactly for students and unknown roles. |
| RendererHelper.OutputFormatForRole | src/utilities/renderer-helper.ts:151 | SINGLE exactly for students and unknown roles, SIMPLE exactly for professors and admins. |
| RendererHelper.CleanForTheDatabase | src/utilities/renderer-helper.ts:153-160 | The cleaned response has exactly those of `form_data` and `debug` that the response has, with the same values, and nothing else. |
| RendererHelper.CleanForTheResponse | src/utilities/renderer-helper.ts:162-168 | The cleaned response has `renderedHTML` when the response has it, with the same value, and nothing else. |
| RendererHelper.RequestParams | src/utilities/renderer-helper.ts:207-224 | The `params` object never repeats a key. |
| RendererHelper.RequestParamAt | src/utilities/renderer-helper.ts:207-224 | Each of the sixteen parameter names looks up its own value in `params`. |
| RendererHelper.RequestParamsDefaults | src/utilities/renderer-helper.ts:188-224 | `baseURL` defaults to '/' and `format` to 'json'. `showCorrectAnswers` is 'true' when truthy and undefined otherwise. `showHints` is undefined when nil and `Number(showHints)` otherwise. `showSolutions` is `Number(showSolutions)`. |
| RendererHelper.CallerFields | src/utilities/renderer-helper.ts:227-229 | The caller's form data without its nil values; nil form data gives no fields. |
| RendererHelper.MergedFormDataLookup | src/utilities/renderer-helper.ts:226-231 | In the merged form data, a non-nil parameter overrides the caller's field of the same name. The caller's other fields are kept. No value is nil and no key repeats. |
| RendererHelper.ParamReachesTheRenderer | src/utilities/renderer-helper.ts:226-231 | A parameter with value v is merged as v unless v is nil; a nil one leaves the name to the caller's form data. |
| RendererHelper.BaseURLDefaultReachesTheRenderer | src/utilities/renderer-helper.ts:193-231 | Without a base URL the merged form data holds '/', whatever the caller's form data says. |
| RendererHelper.FormatDefaultReachesTheRenderer | src/utilities/renderer-helper.ts:203-231 | Without a format the merged form data holds 'json', whatever the caller's form data says. |
| RendererHelper.ShowCorrectAnswersReachesTheRenderer | src/utilities/renderer-helper.ts:205-231 | `showCorrectAnswers` is merged as 'true' when truthy; otherwise only a caller field of that name can appear. |
| RendererHelper.EncodeFormData | src/utilities/renderer-helper.ts:233-251 | The `for...in` loop fails exactly when some property is an array with a nil element (`append` throws on it). Otherwise it appends exactly `Encoded(formData)`: per property in order, nothing for nil, each array element, or the value once. |
| RendererHelper.AppendProperty | src/utilities/renderer-helper.ts:235-250 | One loop turn fails exactly when the value is an array holding a nil element. Otherwise it appends nothing for a nil value, one entry per element in order for an array, and the value once otherwise. |
| RendererHelper.ValuesUnderSpread | src/utilities/renderer-helper.ts:244-247 | The appends of an array's `forEach` are, under its key, the array itself, and nothing under any other key. |
| RendererHelper.EncodedPerKey | src/utilities/renderer-helper.ts:233-251 | For an object without repeated keys, the values appended under a key are that key's value expanded: none if nil or absent, the elements of an array, else the value. |
| RendererHelper.PostedValues | src/utilities/renderer-helper.ts:226-251 | What is posted under a key is the expansion of the non-nil parameter of that name, or else of the caller's field. |
| RendererHelper.ParamPosted | src/utilities/renderer-helper.ts:226-251 | A non-nil parameter is posted as its own expansion, whatever the caller's form data holds. |
| RendererHelper.ClassifyFailure | src/utilities/renderer-helper.ts:259-271 | NotFound exactly for an HTTP error whose response has status 404. Every other failure is Wrapped with the original error as cause; a non-HTTP failure carries the bare prefix message. |
| RendererHelper.GetProblem | src/utilities/renderer-helper.ts:188-272 | When an array value of the merged form data holds a nil element, it rejects with the unclassified TypeError of `append` and posts nothing. Otherwise it posts exactly the encoding of the merged form data, then resolves with the reply's data or rejects with the classified failure. |
| MissingGrades.MissingResultsMembers | src/features/courses/course-controller.ts:445-495 | A (student, question) pair is among the results exactly when the student is a row and the question lies under a topic of a unit of one of the student's enrollments. |
| MissingGrades.FindMissingGrades | src/features/courses/course-controller.ts:479-494 | The nested `forEach` loops push exactly `MissingResults(students)`, in order. |
| MissingGrades.PushStudent | src/features/courses/course-controller.ts:480-493 | The callback for one student appends that student's results. |
| MissingGrades.PushEnrollment | src/features/courses/course-controller.ts:481-492 | The callback for one enrollment appends that enrollment's results. |
| MissingGrades.PushUnit | src/features/courses/course-controller.ts:482-491 | The callback for one unit appends that unit's results. |
| MissingGrades.PushTopic | src/features/courses/course-controller.ts:483-490 | The callback for one topic appends one (student, question) pair per question, in order. |
| GradeBook.SeedFromDraw | src/features/courses/course-controller.ts:921-923 | The seed is an integer in [0, 999998]. |
| GradeBook.EverySeedReachable | src/features/courses/course-controller.ts:921-923 | Every integer in [0, 999998] is the seed of some draw of `Math.random`. |
| GradeBook.NewGrade | src/features/courses/course-controller.ts:933-942 | The new grade has the given user, question and seed; every score and the attempt count are 0. |
| GradeBook.AfterAttempt | src/features/courses/course-controller.ts:368-376 | `bestScore` and `overallBestScore` are the maximum of the old best and the score. The attempt count goes up by exactly 1. `firstAttempts` becomes the score only on the first attempt. `latestAttempts` is the score. Identity and seed are unchanged. |
| GradeBook.AttemptsFromNewGrade | src/features/courses/course-controller.ts:353-393 | After any answers to a new grade: the count equals the number of answers, and the best is the largest score (0 when there is none). First and latest are the first and last score. The seed never changes. |
| GradeBook.BestScoreNeverDecreases | src/features/courses/course-controller.ts:368-376 | Over any answers the best score never goes down, the count grows by their number and the seed stays. |
| GradeBook.WorkbookFor | src/features/courses/course-controller.ts:379-387 | The workbook row carries the grade's id, question and seed, the user, the submission, the time, and the score as result. |
| GradeBook.StudentGrade.constructor | src/features/courses/course-controller.ts:933-942 | The inserted object holds `NewGrade` of its arguments. |
| GradeBook.StudentGrade.RecordAttempt | src/features/courses/course-controller.ts:368-376 | The field updates leave the grade at `AfterAttempt` of its old value. |
| GradeBook.GradeTable.SubmitAnswer | src/features/courses/course-controller.ts:353-393 | With no grade for the pair: both results are null and nothing changes. A failed save rejects with the raw store error and changes nothing. Otherwise the grade becomes `AfterAttempt` of itself and no other grade changes. Then a failed workbook insert rejects with the raw store error, keeping the saved grade. A successful insert appends exactly one workbook row for the updated grade and resolves with both. |
| GradeBook.GradeTable.CreateNewStudentGrade | src/features/courses/course-controller.ts:925-946 | A pair without a grade gets a fresh `NewGrade` with the next id and the draw's seed, and nothing else changes. A pair with a grade rejects with WrappedError('Could not create new student grade') around the store's unique violation and changes nothing. That refusal is assumed of the store; no such constraint appears in the controller. |
| GradeBook.GradeTable.CreateNext | src/features/courses/course-controller.ts:899-904 | One turn of a backfill loop extends the created prefix by one pair, or rejects without storing anything. |
| GradeBook.GradeTable.CreateGrades | src/features/courses/course-controller.ts:899-904 | Resolves exactly when every pair in turn is insertable, then with the number of pairs and the table at `Backfilled`. A rejection stops at the first pair that is not insertable and keeps the grades created before it. |
| GradeBook.GradeTable.CreateGradesForUserEnrollment | src/features/courses/course-controller.ts:894-906 | One `createNewStudentGrade` per question found, for that user, in order. On success it returns the number found. A rejection stops at the first pair that is not insertable and keeps the grades created before it. |
| GradeBook.GradeTable.CreateGradesForQuestion | src/features/courses/course-controller.ts:908-919 | One `createNewStudentGrade` per user found, for that question, in order. On success it returns the number found. A rejection stops at the first pair that is not insertable and keeps the grades created before it. |
| GradeBook.GradeTable.SyncMissingGrades | src/features/courses/course-controller.ts:497-506 | One `createNewStudentGrade` per pair `findMissingGrades` yields, with that pair's student and question ids. A rejection stops at the first pair that is not insertable and keeps the grades created before it. |
| GradeBook.ForUser | src/features/courses/course-controller.ts:899-904 | The i-th pair is (userId, i-th question id). |
| GradeBook.ForQuestion | src/features/courses/course-controller.ts:912-917 | The i-th pair is (i-th user id, questionId). |
| GradeBook.PairsOf | src/features/courses/course-controller.ts:500-505 | The i-th pair is the i-th result's (student id, question id). |
| GradeBook.InsertableIff | src/features/courses/course-controller.ts:925-946 | A backfill can insert all its pairs exactly when none has a grade yet and none repeats. |
| GradeBook.BackfilledGrades | src/features/courses/course-controller.ts:894-919 | A successful backfill keeps every earlier grade. For the i-th pair it adds a zero-initialised grade with the i-th draw's seed and id firstId + i, and nothing else. |
| GradeQueries.SetFilterCount | src/features/courses/course-controller.ts:516-521 | The count is exactly the number of filters that are neither null nor undefined (the size of the set of their positions). So it is at most the number of filters, 0 exactly when all are nil, and full exactly when none is. |
| GradeQueries.CountIsOneIff | src/features/courses/course-controller.ts:516-525 | The count of set filters is 1 exactly when one filter is non-nil. |
| GradeQueries.QuestionIncludes | src/features/courses/course-controller.ts:539-571 | The includes form one chain: at most a topic include, inside it at most a unit include, inside that at most a course include. The course is joined exactly for a course filter, the unit for a course or unit filter, and the topic for a course, unit or topic filter. |
| GradeQueries.WhereAsWritten | src/features/courses/course-controller.ts:527-532 | The written where clause keeps every filter entry that is not undefined, null ones included. |
| GradeQueries.WhereClause | src/features/courses/course-controller.ts:527-532 | The corrected where clause keeps exactly the entries whose filter is set. |
| GradeQueries.WhereAsWrittenUsesUnjoinedCourse | src/features/courses/course-controller.ts:527-571 | With a null course filter and question 5, the count is 1, yet the written where clause filters on the course id, whose table is not joined. |
| GradeQueries.WhereOnlyOnJoinedTables | src/features/courses/course-controller.ts:527-571 | With one filter set, the corrected where clause holds exactly one entry, it is set, and its table is joined. |
| GradeQueries.WhereAsWrittenWithoutNull | src/features/courses/course-controller.ts:527-532 | When no filter is null (every caller keeping to the declared filter types), the written where clause equals the corrected one. |
| GradeQueries.GetGrades | src/features/courses/course-controller.ts:508-609 | Rejects with the count unless exactly one filter is set. Otherwise it uses the written where clause (null filters kept) and joins up to the filtered level. It lists grades ungrouped exactly for a question filter, and aggregates per student otherwise. |
| GradeQueries.QuestionParameters | src/features/courses/course-controller.ts:342-346 | The renderer arguments hold the question's path, the seed and the form URL, and are well typed. |
| GradeQueries.SeedReachesTheRenderer | src/features/courses/course-controller.ts:340-346 | The renderer is sent exactly one `problemSeed`: the seed given. |
| GradeQueries.GetQuestion | src/features/courses/course-controller.ts:325-351 | The seed is the student's grade's seed, or 666 without a grade. A missing question fails with the TypeError of reading its path before anything is posted. Otherwise the renderer call's outcome is passed on: the seed is posted once, and the reply's data resolves wrapped as `{ rendererData }`. |

## Left out

- Every store query and its SQL. The rows `findMissingGrades`, `getQuestionsThatRequireGradesForUser` and `getUsersThatRequireGradeForQuestion` return are inputs. So are the question row `getQuestion` finds and the grade table itself. The SQL aggregate strings of `getGrades` (average, pending, mastered and in-progress counts) are evaluated by the database and are represented only by the projection they select.
- The column names in the where keys of `getGrades` are abstracted as the four paths `WherePath` names. The selected attribute lists are abstracted as `Projection`.
- The transactions of `addQuestion` and `enroll` are left out; the database gives their atomicity.
- `Math.random` is a parameter: each grade creation takes its draw, a real in [0, 1).
- The axios POST, the FormData buffer and headers, JSON parsing and the Joi response schema (`parseRendererResponse`) are library behaviour. The renderer's reply is a parameter, and the form body is the list of appended (key, value) entries.
- `Number(showSolutions)` is NaN when the argument is undefined. NaN is an opaque value here, and no floating-point arithmetic is modelled.
- Scores are reals in [0, 1]; only `max` and equality are used on them.
- Other JavaScript numbers are modelled as integers plus NaN, because no code here computes with fractions.
- Objects are lists of properties in JavaScript's enumeration order. A caller's form data is taken as already listed in that order; the reordering JavaScript applies to integer-like keys is not modelled.
- The store's foreign-key checks are left out of `createNewStudentGrade`. The model's store refuses only a second grade for the same pair, as a unique violation. That one-grade-per-pair constraint is an assumption: no such constraint appears in the controller. Any other refusal the real store might raise is not produced by the model.
- `asyncForEach` is not part of this model. It is taken to await each callback in order and to reject at the first rejection, which stops the loop.
- GradeBook.GradeTable.CreateGrades: on a rejection, the number of grades created before it is a ghost output, not something the source returns.
- GradeQueries.GetQuestion: the missing-question error is the TypeError raised when reading the path of a null row. Only what failed is recorded, because its message text differs between runtime versions.
- RendererHelper.GetProblem: `append` is taken to throw only on a nil array element. What the FormData library does with object, boolean or nested-array values is not part of this model, and neither is its error's message text.
- The logger calls of `syncMissingGrades` and `getProblem` are left out.
- The other course-controller operations (course, unit, topic and statistics reads, `enrollByCode`, `getCourseByCode`) are query construction and are not part of this model.
- The route, validation, PDF export, playground, model and migration files are not part of this model.

## Findings

| source | as written | input that shows it | evidently intended | confidence | as-written member | corrected member |
|---|---|---|---|---|---|---|
| src/features/courses/course-controller.ts:527-532 | the where clause drops only undefined filters (`omitBy(_.isUndefined)`), while the count and the includes treat null as not set | courseId = null, questionId = 5: the count is 1, the course table is not joined, yet the where clause filters on the course id being null | drop nil filters (`omitBy(_.isNil)`), so the where clause holds only the one set filter | not executed | GradeQueries.WhereAsWrittenUsesUnjoinedCourse | GradeQueries.WhereOnlyOnJoinedTables |
