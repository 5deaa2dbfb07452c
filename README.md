# Library feedback system — a Dafny model of its core

The system collects monthly feedback from library users. A student or staff member signs in with an official e-mail address and answers the feedback questions. A free-text remark is classified as an ISSUE, a COMPLIMENT or NEUTRAL. An ISSUE is filed under a keyword category with status PENDING. Library administrators look at analytics: per-day counts and rates of feedback and logins, issue counts and categories. They can move an issue between RESOLVED, SUSPENDED and PENDING, and the user is e-mailed. They also maintain the question list and the admin accounts.

The model covers the Flask back end (`backend/app/admin.py`, `backend/app/users.py`, `backend/app/pipeline.py`) and four React components: the dashboard, the issue page, the user feedback form and the question editor.

How the model represents the system:

- **Database.** The Mongo collections are the `seq` fields of the class `Records.Database`. Each route is a method that `modifies` it.
  - A `find_one`, `update_one` or `delete_one` acts on the first matching document.
  - An ObjectId is a string of 24 hex digits. A malformed one is the error path of the route.
  - Stored issue ids are the lower-case hex text that `str(ObjectId)` gives. The status routes compare them with the lower-cased parameter, which matches Mongo's comparison of parsed ObjectIds only under that assumption. The model does not enforce it: a new issue's id is a parameter.
- **Time.** Times are integer UTC seconds, and the current time is a parameter. A date string `%Y-%m-%d` is a UTC day number, `t / 86400`.
- **Dictionaries.** Python dicts and JavaScript objects are insertion-ordered dictionaries (`OrderedDict.Dict`). Keys are distinct. `Put` replaces a key in place or appends a new one, as a Python dict does. A JavaScript object lists integer-like keys first, and Flask's `jsonify` sorts keys, so the order a component sees is not this one. No contract depends on key order across JSON: the pie chart pairs labels and values from one object, and its total is a sum.
- **React components.** Each component is a class whose fields are its `useState` variables. Each handler is a method. The outcome of an HTTP call is a boolean parameter.
- **Sentiment and library records.** The transformer's output list, the library-record lookup and the configured categories are inputs. Everything decided from them is modelled:
  - the `ISSUE` / `COMPLIMENT` / `NEUTRAL` rule;
  - the priority tiers;
  - the keyword tally and its tie-breaking;
  - the mail that is chosen.

Modules:

- `Options`, `Text` and `OrderedDict` are helpers: the option type, ASCII case folding and substring search, and ordered dictionaries with their sums.
- `Records` holds the document types and the `Database` class.
- `AdminAnalytics` covers `feedback_count`, `login_count`, `feedback_rate` and `login_rate`.
- `AdminIssues` covers the issue counts and categories, the three status setters and `filter_issues`.
- `AdminTables` covers the question routes, the admin-account routes and the `search_feedback` filter.
- `Pipeline` covers the scoring, sentiment and category classification and the close mail.
- `Users` covers `login` and `submit_feedback`.
- `Dashboard`, `IssuesView`, `FeedbackForm` and `QuestionForm` are the four React components.

## Model

| member | source | states |
|---|---|---|
| AdminAnalytics.Aggregate | backend/app/admin.py:79-88 | the `$match`/`$group`/`$sort` stages yield groups sorted by day with positive counts |
| AdminAnalytics.AggregateCounts | backend/app/admin.py:79-88 | the group of a day holds exactly the number of events on that day at or after the window start; a day has a group iff it has such an event |
| AdminAnalytics.AggregateTotal | backend/app/admin.py:79-88 | the groups together count every event of the window exactly once |
| AdminAnalytics.GetBump | backend/app/admin.py:84 | `$sum: 1` adds one to the event's day and changes no other day |
| AdminAnalytics.ZeroBuckets | backend/app/admin.py:91 | the comprehension initialises today, today-1, … for `days` days (none for `days <= 0`), all to 0 |
| AdminAnalytics.ZeroBucketKeys | backend/app/admin.py:91 | a day has a zero bucket exactly when it is among the last `days` days, and its value is 0 |
| AdminAnalytics.BucketsStep | backend/app/admin.py:92-93 | assigning one more group keeps the response's invariant: zero buckets first, then the new group days in ascending order, each day with its count |
| AdminAnalytics.DayCounts | backend/app/admin.py:74-95 | the response has a key for every one of the last `days` days and every day with an event in the window; each key holds that day's count; the zero buckets come first |
| AdminAnalytics.FeedbackCount | backend/app/admin.py:72-95 | `feedback_count` is that response over the feedback dates |
| AdminAnalytics.LoginCount | backend/app/admin.py:98-122 | `login_count` is that response over the login-log dates |
| AdminAnalytics.WindowEdgeAddsKey | backend/app/admin.py:76-93 | an event on the day exactly `days` ago that is inside the window adds a key beyond the `days` zero buckets, so the response has more than `days` entries |
| AdminAnalytics.WindowEdgeExample | backend/app/admin.py:76-93 | with `days = 5` and one event five days earlier at the same hour, the response has six entries and the oldest is that day with count 1 |
| AdminAnalytics.Rate | backend/app/admin.py:130-149 | the rate is non-negative and times `days` gives the number of events in the window; it is 0 for `days = 0` |
| AdminAnalytics.FeedbackRate | backend/app/admin.py:129-138 | `feedback_rate`: 0 for `days = 0`; otherwise the rate times `days` is the number of feedback documents dated within the window, so at most the number of feedback documents |
| AdminAnalytics.LoginRate | backend/app/admin.py:140-149 | `login_rate`: 0 for `days = 0`; otherwise the rate times `days` is the number of login-log entries dated within the window, so at most the number of entries |
| AdminAnalytics.RateIsBucketMean | backend/app/admin.py:130-149 | the rate times `days` equals the total of the per-day counts of the `*_count` response for the same window |
| AdminIssues.StatusPartition | backend/app/admin.py:364-367 | every issue is counted once: RESOLVED + PENDING + all other statuses = total |
| AdminIssues.GetIssueCounts | backend/app/admin.py:364-373 | total is the number of issues; resolved + pending equals it iff no issue has another status (e.g. SUSPENDED) |
| AdminIssues.GroupKeys | backend/app/admin.py:378-384 | `$group` on `$category` has a group exactly for each category value that occurs, with a count of at least 1 |
| AdminIssues.GroupSum | backend/app/admin.py:378-384 | the group counts add up to the number of issues |
| AdminIssues.CategoryDataKeys | backend/app/admin.py:393 | the keys of the response are the `str()` texts of the group ids, each holding the count of one group |
| AdminIssues.CategoryCountsPositive | backend/app/admin.py:385-393 | every reported category count is at least 1 |
| AdminIssues.CategoryKeysCoverIssues | backend/app/admin.py:378-393 | every issue's category is reported; an absent category is reported under "None" |
| AdminIssues.CategoryCountsSum | backend/app/admin.py:364-393 | when no absent category coexists with a literal "None" category, the category counts add up to the issue total |
| AdminIssues.CategoryKeyClashExample | backend/app/admin.py:393 | one uncategorised issue and one categorised "None" give `{"None": 1}`, which undercounts the two issues |
| AdminIssues.FindIssue | backend/app/admin.py:400 | `find_one` gives the first issue with the id, or none when no issue has it |
| AdminIssues.ChangeStatus | backend/app/admin.py:397-462 | malformed id ⇒ error (500); no issue ⇒ 404; status already the target ⇒ 404 "not changed"; otherwise the first such issue takes the target status and the close mail for that status goes to `raised_by` |
| AdminIssues.ChangeStatusFrame | backend/app/admin.py:407-410 | a successful change alters only the status field of that one issue |
| AdminIssues.NoTerminalStatus | backend/app/admin.py:397-462 | an existing issue can be moved to any of the three statuses it does not have, and a mail is sent |
| AdminIssues.AfterMail | backend/app/admin.py:412-413 | a mail that cannot be sent turns the reply into a 500 without undoing the stored change; otherwise the outcome is the change itself |
| AdminIssues.FailedMailKeepsChange | backend/app/admin.py:405-413 | after a failed notification the reply is a 500, yet the target status has already gained the issue |
| AdminIssues.CountsAfterChange | backend/app/admin.py:364-367 | after a successful change the issue counts move by one from the old status to the new one; the total stays |
| AdminIssues.SetStatus | backend/app/admin.py:397-462 | the store and the reply follow `ChangeStatus`, with a 500 after the write when the mail cannot be sent; no other collection changes |
| AdminIssues.ResolveIssue | backend/app/admin.py:396-416 | `ChangeStatus` with RESOLVED, then the mail's outcome |
| AdminIssues.SuspendIssue | backend/app/admin.py:418-439 | `ChangeStatus` with SUSPENDED, then the mail's outcome |
| AdminIssues.SetPendingIssue | backend/app/admin.py:441-462 | `ChangeStatus` with PENDING, then the mail's outcome |
| AdminIssues.FilteredMembers | backend/app/admin.py:466-483 | an issue is listed iff it is stored and matches the given status, the given category and, when a query is given, contains it case-insensitively in `raised_by` or `roll_no` |
| AdminIssues.NoFilterListsAll | backend/app/admin.py:471-483 | with no filter given every issue is listed, in store order |
| AdminIssues.FilterIssues | backend/app/admin.py:466-496 | the cursor loop returns exactly the matching issues in store order |
| AdminTables.StoredOptions | backend/app/admin.py:181-182 | with `include_other` the options are the given ones followed by "Other", otherwise the given ones |
| AdminTables.AddFeedbackQuestion | backend/app/admin.py:170-189 | no question or fewer than two options ⇒ 400 and nothing stored; otherwise 201 and the question appended with the stored options |
| AdminTables.StoredOptionsShape | backend/app/admin.py:177-187 | every stored question has at least two options, the given ones first, then "Other" if asked |
| AdminTables.DeleteFeedbackQuestion | backend/app/admin.py:191-203 | invalid id ⇒ 400; no such question ⇒ 404; otherwise 200 and the first question with that id removed |
| AdminTables.DeleteUndoesAdd | backend/app/admin.py:184-198 | deleting a question just added under a fresh id restores the question list |
| AdminTables.FindAdmin | backend/app/admin.py:237 | the first admin with the username, or none iff there is no such admin |
| AdminTables.AddAdmin | backend/app/admin.py:227-249 | missing field ⇒ 400; existing admin ⇒ 400; otherwise 201 and a new admin without a last login appended |
| AdminTables.AddKeepsNamesUnique | backend/app/admin.py:236-247 | adding an admin keeps admin usernames unique |
| AdminTables.DeleteAdmin | backend/app/admin.py:259-266 | no such admin ⇒ 404; otherwise 200 and the first admin with that name removed |
| AdminTables.DeleteUndoesAddAdmin | backend/app/admin.py:242-266 | deleting an admin just added restores the user list, and the name is then free again |
| AdminTables.ChangePasswordIn | backend/app/admin.py:216-222 | no admin, or the same password as before ⇒ 404 and nothing changes; otherwise only that admin's password changes |
| AdminTables.ChangePassword | backend/app/admin.py:206-224 | missing field ⇒ 400; otherwise the reply and users follow `ChangePasswordIn` |
| AdminTables.ChangePasswordTwice | backend/app/admin.py:216-222 | after a successful change the admin has the new password and repeating the same change is refused with 404 |
| AdminTables.ChangeKeepsNamesUnique | backend/app/admin.py:216-219 | changing a password keeps admin usernames unique |
| AdminTables.SearchFeedbackFilter | backend/app/admin.py:301-320 | unknown filter type ⇒ 400; the pattern is the query on `roll_no` or the answers; the end date alone bounds the date when given, else the start date |
| AdminTables.EndDateOverridesStart | backend/app/admin.py:317-320 | with an end date the start date has no effect on the filter |
| Pipeline.Tier | backend/app/pipeline.py:73-78 | high iff the score is at least 0.7, low iff below 0.4, medium otherwise |
| Pipeline.TierMonotone | backend/app/pipeline.py:73-78 | a higher score never gets a lower priority |
| Pipeline.FeedbackScore | backend/app/pipeline.py:21-78 | card starting with 'C' ⇒ (1.0, high); no library records ⇒ (0.0, low); otherwise the weighted score with its tier |
| Pipeline.FirstMax | backend/app/pipeline.py:110 | `max(..., key=...)`: an element with the largest key, the first of them on ties |
| Pipeline.ClassifyFeedback | backend/app/pipeline.py:109-123 | confidence is the top sentiment score; ISSUE iff an issue keyword occurs in the lower-cased text or the top label is NEGATIVE; COMPLIMENT iff not an issue and the top label is POSITIVE; NEUTRAL otherwise |
| Pipeline.KeywordForcesIssue | backend/app/pipeline.py:112-119 | a text containing any issue keyword is an ISSUE whatever the sentiment |
| Pipeline.Hits | backend/app/pipeline.py:232-234 | the number of keywords of one category found in the issue, at most the number of keywords |
| Pipeline.TallyShape | backend/app/pipeline.py:228-234 | `match_scores` has one entry per name, each with a positive count |
| Pipeline.TallyGet | backend/app/pipeline.py:228-234 | `match_scores[name]` is the number of keyword hits of all categories with that name |
| Pipeline.TallyHasKey | backend/app/pipeline.py:228-234 | a name is in `match_scores` iff it has a hit |
| Pipeline.TallyOrder | backend/app/pipeline.py:228-234 | names are in `match_scores` in the order of their first hit |
| Pipeline.EmptyTallyNoHit | backend/app/pipeline.py:236-237 | `match_scores` is empty iff no keyword of any category matched |
| Pipeline.BestOfTally | backend/app/pipeline.py:239-241 | the first maximal entry has the highest score, and every earlier-hit name scores strictly less |
| Pipeline.ClassifyMeaning | backend/app/pipeline.py:213-241 | unreadable config ⇒ error; no hit ⇒ the misc category's name; otherwise a name with the highest score, and the first one hit among equals |
| Pipeline.ClassifyIssues | backend/app/pipeline.py:213-241 | the nested loops compute exactly that classification |
| Pipeline.ScanKeywords | backend/app/pipeline.py:230-234 | the keyword loop of one category adds that category's hit count to its name's score, and nothing else |
| Pipeline.CloseMail | backend/app/pipeline.py:418-433 | a mail iff the task is RESOLVED, SUSPENDED or PENDING, to the receiver, with that task's subject and template |
| Users.FindMember | backend/app/users.py:29 | the first user document with the email, or none iff none has it |
| Users.RecentFeedback | backend/app/users.py:32-41 | the login is refused iff the user exists, has a last feedback, and fewer than 30 whole days have passed since it |
| Users.Login | backend/app/users.py:20-68 | no email ⇒ error; not `@psgtech.ac.in` ⇒ 403; feedback within 30 days ⇒ 403 with the days left; otherwise the user is updated or inserted, a login log is appended and the session holds email and uid; refusals change nothing |
| Users.LoginRecordsUser | backend/app/users.py:43-54 | after a login the user is on record with this login time; a new user is appended with the lower-cased uid and no feedback; no other user changes |
| Users.CooldownWaitRange | backend/app/users.py:37-40 | a refused user is told to wait between 1 and 30 days |
| Users.SubmissionRearmsCooldown | backend/app/users.py:163-168 | after a submission, a login within 30 days is refused with the days since it, and one 30 days later is not refused |
| Users.StudentScore | backend/app/users.py:108-109 | a uid starting with a digit never takes the 'C' faculty branch: its score is the library-record score |
| Users.SubmitFeedback | backend/app/users.py:95-170 | no session ⇒ 403; malformed request ⇒ error with no writes; an ISSUE whose category cannot be loaded ⇒ error with no writes; otherwise an ISSUE is stored as PENDING with its category and the feedback records whether it raised one; then the user's last feedback is now and the reply is 200, or, when the thank-you mail cannot be sent, the reply is 500 with both documents stored and the last feedback unchanged |
| Users.NewIssueCountsPending | backend/app/users.py:127-141 | a filed issue adds one to the total and to PENDING in the admin's issue counts |
| Dashboard.Refresh | frontend/frontend/src/components/admin/admin_dashboard.js:82-84 | a refresh sends the three requests, all for the same days value |
| Dashboard.ChangeFetches | frontend/frontend/src/components/admin/admin_dashboard.js:67-86 | an accepted new value is fetched twice (handler and effect); a value below 5 is not fetched; NaN passes both tests of the handler and is fetched once |
| Dashboard.DashboardView.HandleDaysChange | frontend/frontend/src/components/admin/admin_dashboard.js:75-86 | days takes the parsed value; below 5 ⇒ warning and no fetch; otherwise no warning and one refresh |
| Dashboard.DashboardView.constructor | frontend/frontend/src/components/admin/admin_dashboard.js:67-73 | the initial state is 5 days with no warning, and mounting runs the effect once, which fetches the three requests for 5 days |
| Dashboard.DashboardView.DaysEffect | frontend/frontend/src/components/admin/admin_dashboard.js:67-73 | the effect refreshes only for a number of at least 5 |
| Dashboard.DashboardView.ChangeDays | frontend/frontend/src/components/admin/admin_dashboard.js:67-86 | an edit and its effect send exactly the requests of `ChangeFetches` |
| Dashboard.LabelsConsecutive | frontend/frontend/src/components/admin/admin_dashboard.js:94-97 | the chart labels are consecutive days, oldest first, ending today |
| Dashboard.LabelsAreBucketsReversed | frontend/frontend/src/components/admin/admin_dashboard.js:113-116 | the labels are the back end's zero-bucket days in reverse order |
| IssuesView.ReplaceStatus | frontend/frontend/src/components/admin/AdminAnalytics.js:51 | rows with the id take the new status; the others are unchanged |
| IssuesView.ReplaceStatusFrame | frontend/frontend/src/components/admin/AdminAnalytics.js:51 | only the status changes, ids are kept, and a second identical replacement does nothing |
| IssuesView.IssuesPage.HandleStatusChange | frontend/frontend/src/components/admin/AdminAnalytics.js:47-56 | after a successful PUT the rows are replaced and the menu closes; a failed PUT changes nothing |
| IssuesView.Toggle | frontend/frontend/src/components/admin/AdminAnalytics.js:58-60 | the menu closes iff that row's menu was open, otherwise that row's menu opens |
| IssuesView.ToggleTwice | frontend/frontend/src/components/admin/AdminAnalytics.js:58-60 | toggling a row twice restores the state when no menu or that row's menu was open |
| IssuesView.ToggleTwiceOther | frontend/frontend/src/components/admin/AdminAnalytics.js:58-60 | with another row's menu open, toggling a row twice closes every menu |
| IssuesView.ActionsAreNotServerStatuses | frontend/frontend/src/components/admin/AdminAnalytics.js:157-179 | none of the menu's targets is a status the back end stores or counts, or one it has a notification mail for |
| IssuesView.Actions | frontend/frontend/src/components/admin/AdminAnalytics.js:157-179 | every row offers the same three lower-case targets: resolved, resolving, suspend |
| IssuesView.FoldSumIsSum | frontend/frontend/src/components/admin/AdminAnalytics.js:63 | the `reduce` left fold is the sum |
| IssuesView.TotalIsIssueCount | frontend/frontend/src/components/admin/AdminAnalytics.js:63 | over the back end's category data, the pie total is the number of issues when categories do not clash |
| IssuesView.PieChart | frontend/frontend/src/components/admin/AdminAnalytics.js:65-73 | labels and data are paired entry by entry with the category object |
| FeedbackForm.QuestionList | frontend/frontend/src/components/user/UserFeedback.js:16 | the fetched questions, then the free-text question |
| FeedbackForm.AnswerFor | frontend/frontend/src/components/user/UserFeedback.js:44 | free text for the extra question and for a choice of 'Other', otherwise the chosen option |
| FeedbackForm.Assemble | frontend/frontend/src/components/user/UserFeedback.js:42-45 | one `{question, answer}` per question, in order |
| FeedbackForm.LastEntryIsAdditional | frontend/frontend/src/components/user/UserFeedback.js:42-45 | the last posted answer, the one the back end classifies, is the free text |
| FeedbackForm.UntypedAdditionalFails | frontend/frontend/src/components/user/UserFeedback.js:35-45 | if the free-text box was never typed in, every submission is refused as malformed |
| FeedbackForm.StartSeconds | frontend/frontend/src/components/user/UserFeedback.js:47 | `Math.floor(ms / 1000)`: the whole seconds at or below the milliseconds |
| FeedbackForm.FormState.HandleOptionChange | frontend/frontend/src/components/user/UserFeedback.js:28-33 | only that question's answer changes; choosing 'Other' also clears its free text |
| FeedbackForm.FormState.HandleOtherInputChange | frontend/frontend/src/components/user/UserFeedback.js:35-37 | only that question's free text changes |
| FeedbackForm.FormState.Load | frontend/frontend/src/components/user/UserFeedback.js:12-26 | on success the question list and the start time are set; on failure nothing changes |
| FeedbackForm.FormState.Submit | frontend/frontend/src/components/user/UserFeedback.js:39-53 | nothing is posted before the start time is set; otherwise the assembled answers and the start in seconds |
| QuestionForm.NonEmptyKeeps | frontend/frontend/src/components/admin/AdminQuestions.js:47 | the filter keeps exactly the non-empty options, each as often as it was given |
| QuestionForm.NonEmptyOfFilled | frontend/frontend/src/components/admin/AdminQuestions.js:47 | with every slot filled all options are posted, in order |
| QuestionForm.AcceptedIff | frontend/frontend/src/components/admin/AdminQuestions.js:45-49 | the back end accepts the post iff the question is non-empty and at least two slots are filled |
| QuestionForm.InitialFormRefused | frontend/frontend/src/components/admin/AdminQuestions.js:8-10 | the untouched form is refused by the back end |
| QuestionForm.QuestionFormState.HandleOptionChange | frontend/frontend/src/components/admin/AdminQuestions.js:68-72 | only the one slot changes |
| QuestionForm.QuestionFormState.AddOption | frontend/frontend/src/components/admin/AdminQuestions.js:74-76 | one empty slot is appended |
| QuestionForm.QuestionFormState.HandleAddQuestion | frontend/frontend/src/components/admin/AdminQuestions.js:43-57 | posts the filtered request; on success the form is reset and the list refetched; on failure the form is kept |

## Left out

- Sending mail over SMTP, the HTML of the three templates and the thank-you mail (`send_tks_mail`). A template is a value naming the user.
- The transformer sentiment model. Its output list is an input and is required to be non-empty, as a text-classification pipeline always returns scores.
- Pipeline.FeedbackScore: the pandas metrics, the exponential recency decay and `round(…, 2)` are not modelled. The weighted score is an input; only the faculty shortcut, the empty-records case and the tiers are.
- Regular expressions: a Mongo `$regex` with option `i` is modelled as a case-insensitive substring test, so a query with regex metacharacters is not modelled.
- Case folding and `isdigit` are ASCII only.
- Time zones: the front end's local `Date` arithmetic is modelled in UTC day numbers.
- Users.SubmitFeedback: `time_taken` is whole seconds, not a float.
- Floating-point rates: `toFixed` and the pie-chart percentage text are not modelled (a zero total gives NaN percentages in the browser).
- The client posts status changes to `/admin/update_issue/<id>` with lower-case statuses, and the back end has no such route. Each side is modelled as written, on its own.
- Routes outside the core: admin `login`, `check_session`, `logout`, `get_issues`, `get_feedback_questions`, `get_feedback_submissions` and `view_last_logins`.
- `database.py` and `app.py` are not part of this model. An unhandled exception is an error outcome (500). Writes made before it stay: a mail that cannot be sent is the boolean parameter `mailOk` of `Users.SubmitFeedback` and of the status routes. Every other exception is raised before the route's first write.
- AdminAnalytics.DayCounts: the `days` query parameter is already an integer. Its default of 5 and a non-numeric value (a 500) are not modelled.
- AdminIssues.GroupCategories: Mongo's `$group` does not promise an output order. The model lists groups in order of first occurrence, so only key sets and counts are meaningful.
- Response projections (which fields are returned) and JSON encoding of ids and dates. Key order after JSON is not modelled either: `jsonify` sorts keys, and JavaScript objects put integer-like keys first.
- Concurrency and the single module-level `session` dict of `users.py`, which all clients share. It is one optional value of the class `Users.Session`.
- Users.Login: exceptions swallowed by the two `try` blocks are not modelled. Every write succeeds.
- `search_feedback` running its query: only the construction of the filter is modelled.
- Ids from `insert_one` and `ObjectId()` are parameters.
- The `submitting` and `loading` flags of the components, their alerts and `navigate` calls.
- The other front-end components: `AdminFeedbackView`, `AdminSettings`, `user_login`, `AdminReport`.
