# AI-vidya backend route handlers in Dafny

This project models the backend route handlers of AI-vidya, a Flask
application for learning plans that keeps its data in Firestore. The model
covers these handlers:

- the course and progress tracker: the course page and its JSON twin,
  single-plan deletion, the cached video lookup, lesson completion, the
  transcript fetch and lesson notes;
- the quizzes page (history, statistics, topics offered again, leaderboard)
  and quiz submission;
- plan generation, plan saving and plan recommendations;
- the settings and edit-profile routes: bulk plan deletion, account
  deletion, profile updates and the password change;
- login, logout, the authentication probe and registration;
- the dashboard data route.

The model uses these representations:

- **The store** (`Db.Store`) is an immutable value with one
  `map<Id, Doc>` per collection: `users`, `plans`, `modules`, `lessons`,
  `notes` and `quiz_attempts`.
- **A document** is a map from field names to scalar values
  (`Values.Value`: null, boolean, integer, string or server timestamp).
- **Equality and `in` queries** are set comprehensions (`Db.Where`,
  `Db.WhereIn`).
- **Query order.** The order in which a query streams its results is an
  input: a sequence that enumerates the result set, sorted where the
  query has an `order_by`.
- **Generated ids.** The ids that `collection.add()` generates come from a
  deterministic allocator that is proved to return an unused, addressable
  id (`Db.FreshId`).
- **Handlers.** Each route is a pure function
  `(session, store, request) -> Step(reply, store', session')`.
- **External services** are function parameters:
  - the language model;
  - the YouTube search;
  - the transcript service;
  - `json.loads`;
  - `generate_password_hash` and `check_password_hash`.
- **Server timestamps** are a `now` parameter.
- **Exceptions.** An exception that the source raises and catches becomes
  the error reply of the matching `except` branch. The writes made before
  it stay in place.

Modules, in dependency order:

- `Values`: field values and the Python semantics the handlers rely on
  (truthiness, `dict.get`, `str()`, `str.strip()`).
- `Db`: the store, its queries, ordering of field values, id allocation and
  referential links.
- `Web`: session, reply and step.
- `Rounding`: `round()` of a quotient, and the progress percentage.
- `Text`: the `\{.*\}` span and the embed URL.
- `Ranking`: tally-and-rank behind `Counter.most_common` and the
  leaderboard.
- `Generation`: the two language-model helpers and their routes.
- `Planning`: plan saving and recommendations.
- `Courses`, `Quizzes`, `Accounts`, `Auth`, `Dashboard`: the route
  handlers.
- `Lifecycle`: properties that span several routes.

Where the code and its description differ, the model follows the code:

- **Lesson completion.** `update_lesson_completion` does not check who owns
  the plan. If the plan update fails, the lesson write made before it
  survives.
- **Bulk deletes keep notes.** The bulk plan deletes and account deletion
  leave the user's notes in place, so those notes name plans that no longer
  exist (`Accounts.DeleteAllPlansKeepsOrphanNotes`).
- **`save_plan` owner.** `save_plan` takes the plan owner from the request
  body, not from the session. A lesson object that carries its own
  `moduleId` overrides the generated one.
- **JSON span.** The JSON span is greedy, from the first `{` to the last
  `}`. It is not a balanced match.
- **Dashboard `last_plan_id`.** `last_plan_id` is `None` also when the user
  has plans but none of them carries a `creation_date`. Ordering by a field
  drops the documents that lack it.
- **Profile update.** The settings profile update writes `username` without
  a uniqueness check. Two accounts can end up with the same username
  (`Lifecycle.ProfileUpdateCanDuplicateUsername`).
- **Blank passwords.** Registration accepts a blank password, but the login
  form refuses a blank one, so such an account cannot sign in with a
  password.

## Model

| member | source | states |
|---|---|---|
| Values.StripIdempotent | backend/routes/login_route.py:27-29 | Stripping an already stripped value changes nothing. So a value that registration stored stripped comes through login's own strip unchanged. |
| Rounding.RoundPosNearest | backend/routes/my_courses_route.py:192 | `round(n / d)` gives an integer within one half of the exact quotient. On an exact half it gives the even neighbour, as Python's `round` does. |
| Rounding.RoundPosMonotone | backend/routes/my_courses_route.py:192 | Rounding a quotient never decreases as the numerator grows. |
| Rounding.RoundPosExact | backend/routes/my_courses_route.py:192 | A quotient that is already an integer rounds to itself. |
| Rounding.ProgressBounds | backend/routes/my_courses_route.py:189-192 | The progress percentage lies in 0..100 whenever the completed lessons are among those counted. |
| Rounding.ProgressEdges | backend/routes/my_courses_route.py:189-192 | Progress is 0 when nothing is completed or there are no lessons. It is 100 when every lesson is completed. |
| Rounding.ProgressMonotone | backend/routes/my_courses_route.py:364-366 | Completing more lessons never lowers the percentage. |
| Rounding.ProgressRoundsAtTheEnds | backend/routes/my_courses_route.py:192 | Rounding makes the ends inexact: 200 of 201 lessons shows 100, and 1 of 201 shows 0. |
| Text.SpanIsLeftmostLongest | backend/routes/my_courses_route.py:564-566 | The extracted span is what `re.search(r'\{.*\}', t, re.DOTALL)` returns: a `{`…`}` match, the leftmost one, and the longest one starting there. There is no span exactly when no such match exists. |
| Text.SpanIsNotBalanced | backend/routes/start_plan_route.py:74-76 | The search is greedy, not balanced: `{a} {b}` yields the whole text, and `}{` yields nothing. |
| Text.SplitLastHasNoSeparator | backend/routes/my_courses_route.py:466 | The last piece of `split('embed/')` contains no `embed/`. |
| Text.EmbedRoundTrip | backend/routes/my_courses_route.py:463-466 | Splitting `https://www.youtube.com/embed/<id>` on `embed/` and keeping the last piece gives back `<id>` when the id has no `embed/` in it. Such a link always passes the `'embed/' in url` test. |
| Text.EmbedUrlParts | backend/routes/my_courses_route.py:61 | Every built link starts with the embed prefix, and gives back a clean id. |
| Text.EmbedRoundTripNeedsCleanId | backend/routes/my_courses_route.py:466 | The id `embed/x` comes back as `x`: the round trip needs the side condition. |
| Generation.Extract | backend/routes/my_courses_route.py:557-568 | A reply yields an object exactly when the call succeeds, a span exists and the decoder accepts the span. Otherwise it names which of the three failed. |
| Generation.GenerateSummaryAndQuiz | backend/routes/my_courses_route.py:532-575 | Generator without the stray configuration call. No key gives the "disabled" placeholder. A failed call or an undecodable span gives the "error" placeholder. No span gives the "format" placeholder. Otherwise it returns exactly the decoded object. |
| Generation.GenerateSummaryAndQuizAsWritten | backend/routes/my_courses_route.py:532-537 | As written: with the key set, the generator raises before the model is called. Without the key it returns the "disabled" placeholder. |
| Generation.SummaryRoute | backend/routes/my_courses_route.py:580-608 | 401 without a session. 400 when the lesson (or `{}`) has a falsy `topic`. Otherwise 200 with the corrected generator's content. The route never writes. |
| Generation.SummaryRouteAsWritten | backend/routes/my_courses_route.py:580-608 | As written: the route never writes, and it can only succeed with the "disabled" placeholder. |
| Generation.ConfigureCallBlocksGeneration | backend/routes/my_courses_route.py:536-537 | With the key set, a titled lesson always gets a 500 as written. For every model reply that carries a decodable object, the corrected route returns that object. |
| Generation.SummaryFromWrappedReply | backend/routes/my_courses_route.py:564-568 | A reply that wraps an object in text with no `{` before it and no `}` after it yields exactly that object. |
| Generation.GenerateStructuredPlan | backend/routes/start_plan_route.py:30-80 | Returns the decoded object exactly when the client exists, the call succeeds, a span exists and it decodes. Otherwise it returns `None`. |
| Generation.GeneratePlan | backend/routes/start_plan_route.py:117-128 | 401 without a session. A `timeline` that `int()` rejects escapes as a 500. Otherwise the route succeeds exactly when the generator returns a non-empty object, and answers with that object; an absent or empty plan is the 500 "Failed to generate plan from AI.". The store is never touched. |
| Generation.NoClientNoPlan | backend/routes/start_plan_route.py:31-33 | Without a client, a logged-in request always gets a 500. |
| Ranking.AccumulateSummarises | backend/routes/start_plan_route.py:107 | The counting dict holds each key of the stream once, in first-seen order, with its total weight and first position. |
| Ranking.SortDescRanked | backend/routes/my_courses_route.py:815 | The stable descending sort orders heavier first and, on equal weight, first-seen first. The result is a permutation of its input. |
| Ranking.TopSpec | backend/routes/start_plan_route.py:107-108 | The top-n list has at most n entries with distinct keys, each with its total and first position. Entries are ordered heavier first, ties first-seen first. A key left out leaves the list full and is no heavier than any kept key; on a tie it was seen after it. |
| Ranking.TopExample | backend/routes/start_plan_route.py:107-108 | `Counter(["Go","Python","Python","Rust"]).most_common(2)` is `[Python: 2, Go: 1]`. |
| Planning.PlanDoc | backend/routes/start_plan_route.py:138-145 | The plan document has exactly six fields: the given owner, the three copied plan fields (`None` when absent), a creation stamp and `status: 'active'`. |
| Planning.ModuleDoc | backend/routes/start_plan_route.py:150-151 | A module document has exactly three fields: `planId` naming the new plan, and the module object's `module_number` and `module_title` (`None` when absent). |
| Planning.LessonDocFields | backend/routes/start_plan_route.py:154-156 | A lesson document has the lesson's fields minus `Youtube_keywords`, plus `moduleId`. Every copied field keeps its value. `moduleId` is the generated module unless the lesson brings its own. |
| Planning.AddLessons | backend/routes/start_plan_route.py:154-157 | One new lesson document per lesson, in order, under distinct fresh ids. No stored lesson changes. |
| Planning.SaveModule | backend/routes/start_plan_route.py:149-157 | One loop turn adds one module document under a fresh id, then its lessons. No other collection changes. |
| Planning.SaveModules | backend/routes/start_plan_route.py:149-157 | The module loop touches only modules and lessons, and visits at most the given modules. |
| Planning.SaveModulesOk | backend/routes/start_plan_route.py:149-162 | The loop completes exactly when no lesson list is broken, and then it has visited every module. |
| Planning.SaveModulesWritesModules | backend/routes/start_plan_route.py:149-152 | The loop adds exactly one module document per module it visits, in order, under distinct fresh ids. Each carries the plan id, number and title. |
| Planning.SaveModulesWritesLessons | backend/routes/start_plan_route.py:154-157 | The loop adds exactly one lesson document per lesson of each visited module, under fresh ids. Each names its own module. |
| Planning.SavePlan | backend/routes/start_plan_route.py:130-162 | 401 without a session, with no change. A missing `plan_data` gives a 500 with no change. Otherwise exactly one plan document is added under a fresh id, its owner taken from the request body. After it, the module and lesson documents are exactly those the save loop writes (`Planning.SaveModules`). Success, carrying that id, happens exactly when no list is broken; any other outcome is the 500 save error. Users, notes and attempts never change. |
| Planning.TitleStream | backend/routes/start_plan_route.py:102 | Only truthy titles enter the count, each with weight 1. |
| Planning.TitleStreamTitles | backend/routes/start_plan_route.py:101-105 | The counted titles are exactly the truthy titles of the stored plans. There are none exactly when no plan has one. |
| Planning.MostCommonTitlesSpec | backend/routes/start_plan_route.py:107-108 | At most five distinct stored titles, more frequent first and, on equal counts, first-seen first. A title left out leaves the list full and is no more frequent than any listed one. |
| Planning.MostCommonTitlesExample | backend/routes/start_plan_route.py:107-108 | Plans titled Python, Python, Go recommend `[Python, Go]`. |
| Planning.Recommendations | backend/routes/start_plan_route.py:165-196 | 401 without a session. Otherwise 200 whose payload is `Counter(titles).most_common(5)` over the truthy stored titles (`Planning.MostCommonTitles`, specified by `Planning.MostCommonTitlesSpec`): at most five titles of stored plans, empty exactly when no plan has a truthy title. The route never writes. `get_recommendations` (lines 91-114) computes the same reply; only its log text and its store-error message differ. |
| Quizzes.Percent | backend/routes/my_courses_route.py:773 | The percentage exists exactly when score and total are numbers and the total is non-zero. Otherwise Python raises. It is `round(100 * score / total)`, half to even. |
| Quizzes.PercentOfFraction | backend/routes/my_courses_route.py:773 | A score between 0 and the total gives 0..100, and full marks give 100. |
| Quizzes.RowOf | backend/routes/my_courses_route.py:769-787 | A history line exists exactly when its percentage computes and its `submitted_at` can be formatted as a date (a timestamp or a falsy value; any other truthy value has no `strftime` and raises). It carries the percentage, the lesson topic (default "Unknown Topic"), and the stored score, total, lesson and plan. |
| Quizzes.HistoryOf | backend/routes/my_courses_route.py:758-791 | The history has one line per attempt, in stream order. It fails exactly when some attempt's percentage or date formatting raises. |
| Quizzes.Highest | backend/routes/my_courses_route.py:790-791 | The highest score is at least 0 and at least every percentage. It is 0 or one of them. |
| Quizzes.StatsOf | backend/routes/my_courses_route.py:793-799 | `total_taken` is the number of lines and `highest_score` is the maximum. With no attempts, the average is 0 and `last_attempt` is "N/A". Otherwise the average is the rounded mean and `last_attempt` is the newest line's topic. |
| Quizzes.AverageWithinScores | backend/routes/my_courses_route.py:796-797 | The average never exceeds the highest score. It lies in 0..100 when every percentage does. |
| Quizzes.ByTopicIsTopicDict | backend/routes/my_courses_route.py:802 | `{item['topic']: item}.values()` has one entry per topic of the history. Each entry is that topic's latest line, in first-appearance order. |
| Quizzes.AvailableSpec | backend/routes/my_courses_route.py:802 | The quizzes offered again: at most four, with distinct topics, each the latest line of its topic, in first-appearance order. Fewer than four only when the history has no other topic. |
| Quizzes.ScoreStream | backend/routes/my_courses_route.py:808-813 | Pairs every attempt's `userId` with its score (default 0), in stream order. It fails exactly when some score is not a number. |
| Quizzes.Rows | backend/routes/my_courses_route.py:817-824 | Rows are ranked 1, 2, … and named by `username`, falling back to "Anonymous User". |
| Quizzes.LeaderboardSpec | backend/routes/my_courses_route.py:805-824 | At most five rows, each a distinct user with the sum of that user's scores. Rows are ranked 1..n with non-increasing scores. A user left out scores no more than any row, and the board is then full. |
| Quizzes.QuizPage | backend/routes/my_courses_route.py:741-852 | Without a session: 401 (JSON) or a redirect to login. Success happens exactly when every own attempt computes a percentage and has a formattable `submitted_at`, and every score is a number. Otherwise: 500 (JSON) or a redirect to the dashboard. On success: the history, the stats and the available quizzes of that history, and the leaderboard over all attempts. The page never writes. |
| Quizzes.LastAttemptIsNewest | backend/routes/my_courses_route.py:758-760 | `last_attempt` is the topic of an own attempt with the greatest `submitted_at`. |
| Quizzes.SubmitQuizScore | backend/routes/my_courses_route.py:855-883 | 401 without a session. A non-JSON body gives a 500. A `None` score or total, or a falsy `planId`, gives a 400. No failure writes. Success adds exactly one attempt, with the given fields, under a fresh id, and nothing else. |
| Quizzes.SubmitQuizScoreChecked | backend/routes/my_courses_route.py:855-883 | The corrected submission also refuses a score or total that cannot be scored. It writes what the original writes and keeps every stored attempt scorable. |
| Quizzes.SubmitAddsItsFields | backend/routes/my_courses_route.py:871-878 | A saved attempt reads back with the submitted score and total. |
| Quizzes.ScorableStoreLoads | backend/routes/my_courses_route.py:773-813 | When every stored attempt is scorable, the quizzes page loads for every logged-in user. |
| Quizzes.TextScoreBreaksQuizPage | backend/routes/my_courses_route.py:866-879 | As written, a score of `"ten"` is accepted with 200. Afterwards the quizzes page fails for every user. |
| Courses.ProgressOf | backend/routes/my_courses_route.py:189-192 | Progress lies in 0..100. It is 0 with no lessons or none completed, and 100 when all are completed. |
| Courses.ProgressOfMonotone | backend/routes/my_courses_route.py:189-192 | More completed lessons among the same ones never lower progress. |
| Courses.CourseDetails | backend/routes/my_courses_route.py:136-200 | Without a session, or for a missing or foreign plan: a redirect and no write. The owner gets a 200 with the recount's lesson and completed counts, and afterwards the stored progress equals the recount. The store changes only when the stored progress (default 0, compared as Python `==`) differs from the recount, and then only `progress` and `last_updated` of that plan change. |
| Courses.CourseDetailsKeepsMatchingProgress | backend/routes/my_courses_route.py:194-200 | A stored progress equal to the recount means no write. |
| Courses.CourseDetailsSettles | backend/routes/my_courses_route.py:194-200 | Loading the page twice writes at most once. |
| Courses.ApiCourseDetails | backend/routes/my_courses_route.py:695-739 | 401 without a session. 404 for a missing or foreign plan. The owner gets a 200 whose plan carries `progress` equal to the recount's percentage, `id` equal to the plan id, and every other stored field unchanged; `total` is the number of recounted lessons and `completed` the number of those completed. The route never writes. |
| Courses.ApiAgreesWithStoredProgress | backend/routes/my_courses_route.py:730-731 | After the page has loaded, the JSON view's progress equals the stored one. |
| Courses.DeletePlan | backend/routes/my_courses_route.py:236-274 | 401 without a session, or 404 for a missing or foreign plan, with no write. The owner always gets the success reply. On success, these are gone: the plan, its modules, the lessons of those modules and the plan's notes. Every other plan, module, lesson and note survives unchanged, and users and attempts are untouched. |
| Courses.DeletePlanKeepsLinks | backend/routes/my_courses_route.py:251-269 | A store without orphan modules, lessons or notes has none after the delete. |
| Courses.BestVideo | backend/routes/my_courses_route.py:30-65 | `""` exactly when there is no key, the search fails, finds nothing, or its first result has no id. Otherwise it returns the embed link of the first result, from which the id splits back out. |
| Courses.GetVideoForLesson | backend/routes/my_courses_route.py:277-329 | 401 and no write without a session. A missing lesson gets the stub and a 404. A truthy cached link is returned with `from_cache` and no write. Otherwise the search decides: no video is the "No suitable video found" 404 with no write, and a found link is returned with success while it and `last_updated` are merged into the lesson. Nothing else changes. |
| Courses.VideoIsCachedAfterSearch | backend/routes/my_courses_route.py:300-320 | After a successful search, the next call returns the same link from the cache and writes nothing, whatever the search would answer. |
| Courses.StubIsNotCached | backend/routes/my_courses_route.py:287-301 | The stub's empty link is no cache hit: the next call goes on to the search. |
| Courses.UpdateLessonCompletion | backend/routes/my_courses_route.py:331-383 | 401, or 400 for a falsy `plan_id`, with no write. A missing lesson is a 500 with no write. For an existing lesson, `is_completed` (default `False`) and `last_updated` are always written. The call then succeeds exactly when `plan_id` names an existing plan, writing that plan's progress from a full recount over its modules, which lies in 0..100. Otherwise it is a 500 that keeps the lesson write. |
| Courses.CompletionThenPageWritesNothing | backend/routes/my_courses_route.py:353-373 | When every module of the plan has `module_number` and every lesson has `day_of_plan`, the page right after a completion update writes nothing. |
| Courses.GetTranscript | backend/routes/my_courses_route.py:450-488 | 401 without a session. 404 for a missing lesson. 400 exactly for a string link without `embed/`; 500 for a link that is not a string. For a link with `embed/`, the reply is the outcome for the id split out of it: 404 for disabled or missing transcripts, 500 for other failures, else the joined text. The route never writes. |
| Courses.BadLinkNeedsNoFetch | backend/routes/my_courses_route.py:463-464 | A link without `embed/` gets a reply that does not depend on the transcript service. |
| Courses.TranscriptOfFoundVideo | backend/routes/my_courses_route.py:461-469 | A link stored by the video lookup leads the transcript fetch to the video the search found. |
| Courses.AddNote | backend/routes/my_courses_route.py:641-673 | Success happens exactly for a session with a stripped non-empty title and body and a truthy lesson id. It adds one note under a fresh id, holding the user, plan, lesson and stripped texts. Nothing else changes, and no failure writes. |
| Courses.SaveNote | backend/routes/my_courses_route.py:659-669 | The note is stored under a fresh id and the other notes are kept. |
| Courses.AddNoteJoinsPlan | backend/routes/my_courses_route.py:659-669 | The saved note is one of its plan's notes, next to the earlier ones. |
| Courses.AddNoteLinksIffPlanExists | backend/routes/my_courses_route.py:641-669 | Any plan id is accepted. Notes stay attached to existing plans exactly when the plan exists. |
| Accounts.DeleteAllPlans | backend/routes/settings_route.py:70-105 | 401 without a session, with no write. Without plans: "No plans to delete." and no write. Otherwise: none of the user's plans, their modules or those modules' lessons remain. Every other document survives unchanged, and notes, attempts and users are untouched. The edit-profile copy (edit_profile_route.py:38-71) differs only in its message. |
| Accounts.DeleteAllPlansKeepsLinked | backend/routes/settings_route.py:79-101 | A store without orphans has none in the module and lesson hierarchy afterwards. |
| Accounts.DeleteAllPlansKeepsOrphanNotes | backend/routes/settings_route.py:70-103 | A note of a deleted plan is kept and names a plan that no longer exists. |
| Accounts.DeleteAccount | backend/routes/settings_route.py:108-125 | 401 without a session. Otherwise the plan cascade runs. Then, for an addressable id, the user document is removed and the session cleared; for an id the store cannot address, 500 with the cascade kept. |
| Accounts.DeleteAccountRemovesUser | backend/routes/settings_route.py:117-122 | Afterwards the user and all their plans are gone, the hierarchy has no orphans, and other users are unchanged. |
| Accounts.SettingsFields | backend/routes/settings_route.py:32-37 | The settings update writes exactly `first_name`, `last_name`, `username` and `phone_number`, with the body's values. |
| Accounts.UpdateProfile | backend/routes/settings_route.py:24-41 | 401 without a session. A missing body or missing user document gives a 500 with no change. Success updates exactly those four fields of that user and sets the session name to "first last". |
| Accounts.UpdateProfileAgreesAndSettles | backend/routes/settings_route.py:31-38 | The session name matches the stored names, and sending the form again changes nothing. |
| Accounts.FormFields | backend/routes/edit_profile_route.py:27-31 | The edit-profile update writes exactly `first_name`, `last_name` and `phone_number` from the form. |
| Accounts.UpdateProfileForm | backend/routes/edit_profile_route.py:20-36 | Without a session: a redirect to login and no write. Otherwise: a redirect to the profile page, updating exactly those three fields when the user exists. |
| Accounts.UpdateProfileFormKeepsCredentials | backend/routes/edit_profile_route.py:27-31 | The form never changes any user's username, e-mail or password hash. |
| Accounts.ChangePassword | backend/routes/settings_route.py:43-67 | 401 without a session. 500 for a body that is not JSON. 404 for a missing user. 403 for a wrong current password, and 500 when the check itself raises. When the current password checks, the change succeeds exactly when the new password is a string (else `generate_password_hash` raises into the 500), and replaces only `password_hash` with its hash. No failure writes. |
| Accounts.NewPasswordChecks | backend/routes/settings_route.py:59-63 | With a checker that accepts the hasher's output, the new password checks against the stored hash afterwards. |
| Auth.LoginField | backend/routes/login_route.py:40-48 | `loginUsername`, `loginEmail` and `loginPhone` map to `username`, `email` and `phone_number`. Any other type has no field. |
| Auth.FirstIndex | backend/routes/login_route.py:51-52 | `limit(1)` returns the first listed matching user, and nothing exactly when none matches. |
| Auth.Login | backend/routes/login_route.py:13-87 | Login never writes and changes the session only on success. An unreadable body gives a 500. A missing or blank field gives a 400. An unknown type gives a 400. No match gives the 401. On success: the first listed match, when its password checks (and exactly then), 200 with its id, `username` and stripped "first last", all stored in the session. |
| Auth.LoginSoleMatch | backend/routes/login_route.py:54-64 | With exactly one matching user, the password check on that user decides the outcome: 200, 401 or 500. |
| Auth.NoAccountProbing | backend/routes/login_route.py:54-64 | An unknown login and a wrong password give the same reply and session. |
| Auth.Logout | backend/routes/login_route.py:90-94 | Logout clears the session and changes nothing else. |
| Auth.LogoutIdempotent | backend/routes/login_route.py:93 | Logging out twice is the same as logging out once. |
| Auth.CheckAuth | backend/routes/login_route.py:97-111 | The probe reports authenticated exactly when the session has a user id, echoing the session's values. It has no side effect. |
| Auth.LoginThenCheckAuth | backend/routes/login_route.py:67-69 | After a login the probe reports the user the login returned. After a logout it reports nobody. |
| Auth.Account | backend/routes/register_route.py:32-41 | The account document has exactly the eight fields, each holding its argument: the hash is stored, and the password and its confirmation never are. |
| Auth.NewAccountFields | backend/routes/register_route.py:30-41 | The stored account holds `first_name`, `last_name`, `date_of_birth`, `education`, `email`, `phone_number` and `username` from the form, each stripped, and the hash of the stripped password. |
| Auth.Register | backend/routes/register_route.py:7-49 | 400 when the stripped passwords differ. 409 for a taken e-mail, checked before a taken username. Success happens exactly when all three checks pass and the e-mail is addressable: 201, and one document stored under the e-mail. No failure writes. |
| Auth.RegisterKeepsAccountsUnique | backend/routes/register_route.py:22-28 | Registration keeps e-mails and usernames unique among users. |
| Auth.RegisterThenLogin | backend/routes/register_route.py:30-43 | A fresh account with a non-blank password can sign in with its e-mail, and the session names the e-mail as the user id. |
| Dashboard.DashboardFor | backend/routes/dashboard_route.py:19-63 | 401 without a session. The name is the session name or "User". `plan_count` is the number of the user's plans. The completed count is 0, and XP, streak and level are 1250, 7 and 3. `last_plan_id` is `None` exactly when no plan of the user is dated; otherwise it is a plan of the user with the greatest `creation_date`. The route never writes. |
| Dashboard.SavedPlanCounts | backend/routes/dashboard_route.py:31-44 | Saving a plan raises the dashboard's plan count by exactly one and gives it a plan to resume. |
| Lifecycle.SaveThenDeleteRestores | backend/routes/my_courses_route.py:251-269 | Deleting a plan right after saving it restores the store exactly. This holds when the store has no orphans and no lesson brings its own `moduleId`. |
| Lifecycle.ProfileUpdateCanDuplicateUsername | backend/routes/settings_route.py:31-37 | The settings update can give two users the same username. |

## Left out

- Firestore itself is not modelled: the client, query planning, network and
  permission errors, and transactions. Writes happen one by one, and a
  failure keeps the earlier ones.
- Firestore's limit on the number of values in an `in` filter is not
  modelled. With many plans or modules, the bulk deletes and single-plan
  deletion would fail in the source and succeed in the model.
- Document-path rules are reduced to "non-empty and no `/`" (`Db.ValidDocId`).
  This differs from Firestore in both directions:
  - Firestore also rejects some long or reserved names;
  - Firestore accepts an id with an even number of `/`-separated segments,
    such as `a/b/c`, which addresses a nested document. For example,
    `register` with such an e-mail answers 201 in the source and 500 in
    `Auth.Register`.
- Percentages are computed on exact rationals. Python's `round` applies to a
  float quotient, which can differ from the exact one right at a half.
- HistoryOf: the text of a history line's date (`"%B %d, %Y"`) and of its
  `"p% (score/total)"` score is not produced. The line keeps the raw
  `submitted_at`, percentage, score and total instead. Whether the date can
  be formatted at all is modelled (`Quizzes.Datable`), since a value
  without `strftime` makes the page fail.
- Field values are scalars only: there are no floats, lists or objects in
  `Values.Value`. So these are outside the model:
  - a float score such as `7.5`, and its percentage;
  - a float `timeline` such as `3.9`, which `int()` truncates;
  - a list- or object-valued lesson field copied through `{**lesson}`;
  - an unhashable `topic`, `plan_title` or `userId`, which makes `Counter`
    or a dict raise a `TypeError`.
- SavePlan: the model takes the `plan_data` object, or its absence. It does
  not model a request body that is not a JSON object. The source reads
  `data.get('plan_data')` before its `try`, so such a body escapes as
  Flask's own 500.
- `Quizzes.ScoreStream`, `Quizzes.ByTopic` and `Planning.MostCommonTitles`
  treat `Bool(true)` and `Int(1)` as different dict keys. Python's `True == 1` would merge
  them.
- `Courses.CourseDetails` leaves out the notes shown on the page. They do
  not affect the store. A note whose lesson has no `topic` makes the source
  page fail into its redirect.
- The module and lesson lists of the page views are not modelled. The model
  keeps their counts, the progress and the plan.
- `Courses.AddNote` and `Courses.UpdateLessonCompletion` take a request body
  that decoded to an object. A non-object body raises into their 500
  branch, which is not modelled.
- `Generation.GeneratePlan` takes a decoded body in the same way.
- `Dashboard.DashboardFor` models the session name as a string, or absent.
- Login reads a JSON or form body as the same kind of document.
- Templates, flash messages, redirects' query strings and logging are left
  out.
- These page and listing routes are left out because they only read:
  - `show_settings`, `edit_profile`, `show_dashboard` and `show_start_plan`;
  - the `GET` branches of `login` and `register`;
  - `list_my_courses` and `api_list_my_courses`;
  - `get_lesson` and `get_notes_for_lesson`.
- These routes are left out; each is one unconditional write or a lookup
  the modelled routes already cover:
  - `update_lesson_status`;
  - `ensure_video_link`;
  - `get_transcript_for_lesson`.
- These are left out as dead code or a pure model wrapper:
  - `generate_llm_summary`;
  - the spaCy quiz generator;
  - the commented-out embedding re-ranking.
- Prompt wording, including the number of lessons asked for, is a request
  to the model and not a guarantee.
- `backend/__init__.py`, `app.py`, `backend/db/db_config.py` and
  `backend/routes/logout_route.py` are application wiring and are left
  out. `logout_route.py` is a session clear with a redirect; the JSON logout
  is `Auth.Logout`.
- Concurrency is left out: last-write-wins on `progress`, and two
  registrations racing past the uniqueness checks.

## Findings

| source | as written | input that shows it | evidently intended | confidence | as-written member | corrected member |
|---|---|---|---|---|---|---|
| backend/routes/my_courses_route.py:536 | `genai.configure(api_key=...)` on the `google.genai` module imported at line 491, which has no `configure`; the AttributeError reaches the route's `except` | any logged-in request for a lesson with a topic while `GOOGLE_API_KEY` is set | build the client with `genai.Client` alone (line 537) and return the model's object | medium, not executed | Generation.SummaryRouteAsWritten, Generation.ConfigureCallBlocksGeneration | Generation.SummaryRoute, Generation.SummaryFromWrappedReply |
| backend/routes/my_courses_route.py:866-879 | `submit_quiz_score` stores any non-`None` score and total; the quizzes page then divides by the total and sums every user's scores | body `{"score": "ten", "total": 10, "planId": "p"}`; afterwards every user's quizzes page fails | accept only a numeric score and a numeric non-zero total | low, not executed | Quizzes.SubmitQuizScore, Quizzes.TextScoreBreaksQuizPage | Quizzes.SubmitQuizScoreChecked, Quizzes.ScorableStoreLoads |
