# VA agency portal — verified model of the portal logic

This project models the decision logic of a virtual-assistant agency portal: a
React front end over a hosted Postgres/auth/storage backend, plus one
privileged edge function. Almost every page renders forms and dashboards, but
under the rendering there is a layer of small, exactly statable logic. This
project captures that layer as pure Dafny functions over immutable datatypes:

- the client dashboard's hour arithmetic and display defaults;
- the admin overview's role gate, statistics, recent-activity merge and
  "time ago" buckets;
- the admin staff and client pages' search filters, sums, dialogs and payloads;
- the staff dashboard's task workflow, status counts and badge mappings;
- the `update-staff-password` edge function's ordered chain of checks;
- the staff sign-in with its one-time `user_id` binding;
- the zod schemas, field-error maps and insert/update payloads of the sign-in,
  contact, consultation, profile, password and task-request forms.

Backend answers are inputs: a role-check result, a looked-up row, an error
message, or a total function standing for a per-row query. Each handler
returns an outcome record. The record holds the new page state, the toast
shown, the redirect taken, the payload written, and the trace of backend calls
issued in order. So "nothing is inserted when the form is rejected" is a
statement about that trace.

Shared modules:

- `Js`: `null`, truthiness, `x || d` defaults, `s || null`.
- `Text`:
  - `trim` with the ECMAScript whitespace set;
  - UTF-16 `.length`;
  - ASCII `toLowerCase`;
  - `includes`, `indexOf` and first-occurrence `replace`;
  - `split`/`pop`;
  - decimal rendering.
- `Lists`: `slice(0, n)`, `filter`, counts, `reduce` sums, and a stable
  newest-first sort.
- `Forms`: the zod issue list folded into a field-error map, where the last
  issue per field wins, and the clearing of a field's error on edit.

zod v3 semantics are modelled as the library behaves:

- Every string check runs, and a failing one does not stop the others.
- An object-level `.refine` still runs after field checks failed.
- `.email()` is a parameter `isEmail`, because its pattern is the library's.

Some behaviour of the code may surprise a reader, and the model keeps it as written:

- A subscription with `hours_included` 0 is treated as 20 hours, because of
  the `|| 20` default.
- The edge function answers 400, not 500, when the password update itself
  reports an error. It answers 500 only for a thrown error, which is modelled
  as an unparseable request body.
- Several validation failures are shown as toasts rather than under a field:
  the task form's required-field check and the admin staff page's password
  guards.

## Model

| member | source | states |
|---|---|---|
| Dashboard.HoursUsed | src/pages/Dashboard.tsx:123 | hours used is the subscription's value, 0 without a subscription |
| Dashboard.HoursIncluded | src/pages/Dashboard.tsx:124 | never 0: 20 when the subscription is missing or its hours_included is 0, its value otherwise |
| Dashboard.HoursRemaining | src/pages/Dashboard.tsx:125 | never negative; included − used when used ≤ included, 0 when used exceeds it; at most included for non-negative inputs |
| Dashboard.UsagePercentage | src/pages/Dashboard.tsx:126 | the percentage times the allowance equals used × 100 (the denominator is never zero); 0 exactly when nothing is used |
| Dashboard.UsageWithinAllowance | src/pages/Dashboard.tsx:126 | within the allowance the percentage lies in [0, 100] |
| Dashboard.BarWidth | src/pages/Dashboard.tsx:228 | min(100, 100 − usage%) never exceeds 100 and is exactly 100 when nothing is used |
| Dashboard.BarWidthIsRemainingShare | src/pages/Dashboard.tsx:228 | within the allowance the bar width is the remaining hours as a share of the allowance |
| Dashboard.PlanLabel | src/pages/Dashboard.tsx:169 | "Personal" when there is no subscription or no plan, the plan otherwise |
| Dashboard.PriceLabel | src/pages/Dashboard.tsx:245 | 15 when there is no subscription or the price is 0, the price otherwise |
| Dashboard.StatusLabel | src/pages/Dashboard.tsx:255 | "Active" when there is no subscription or no status, the status otherwise |
| Dashboard.NoSubscriptionView | src/pages/Dashboard.tsx:123-126 | with no subscription: Personal, 15, Active, 20 hours remaining and a full bar |
| Dashboard.ProfileName | src/pages/Dashboard.tsx:164 | the full name when it is non-empty, the fallback otherwise |
| Dashboard.Greeting | src/pages/Dashboard.tsx:208 | the greeting is non-empty and contains no space; it is "there" or a prefix of the full name |
| Dashboard.GreetingFirstWord | src/pages/Dashboard.tsx:208 | for "w rest" with a space-free non-empty w the greeting is w |
| Dashboard.GreetingCases | src/pages/Dashboard.tsx:208 | a one-word name greets by itself; a name starting with a space greets "there" |
| Dashboard.FetchedHistory | src/pages/Dashboard.tsx:95-99 | the first min(10, n) rows, in the order received |
| Dashboard.OverviewHistory | src/pages/Dashboard.tsx:278 | the first min(3, n) entries of the history |
| Dashboard.OverviewOfFetched | src/pages/Dashboard.tsx:278 | the overview of the fetched history is the first 3 rows |
| Admin.CheckAdminRole | src/pages/Admin.tsx:54-69 | access is granted exactly when has_role answers the boolean true; otherwise a denial toast and a redirect to /dashboard |
| Admin.StrictGateIsFailClosed | src/pages/Admin.tsx:59-62 | granted access implies a truthy answer, while truthy non-boolean answers ("true", 1) are denied |
| Admin.AuthRedirect | src/pages/Admin.tsx:44-48 | redirect to /auth exactly when loading has finished without a user |
| Admin.View | src/pages/Admin.tsx:180-188 | the overview renders exactly when loading and the role check are done and a signed-in admin is present; the loading view exactly while either is pending |
| Admin.OverviewNeedsTrue | src/pages/Admin.tsx:188 | the overview renders exactly when signed in and has_role answered true |
| Admin.FetchStats | src/pages/Admin.tsx:84-125 | counts default to 0; activeSubscriptions is the number of active-or-trial rows and at most the row count; revenue and hours are the sums over the rows of price and hours used, each missing value counting as 0; a failed query gives zero totals |
| Admin.OneRowTotals | src/pages/Admin.tsx:98-99 | a single row contributes its price and hours, and a missing price or hours value counts as 0 |
| Admin.NoRowsZeroTotals | src/pages/Admin.tsx:95-99 | an empty answer gives the same stats as a failed query: no active subscriptions, zero revenue and zero hours |
| Admin.AllActiveIff | src/pages/Admin.tsx:97 | the active count equals the row count exactly when every row is active or trial |
| Admin.TotalsNonNegative | src/pages/Admin.tsx:98-99 | revenue and hours totals are non-negative when every row's value (missing as 0) is |
| Admin.TotalsSplit | src/pages/Admin.tsx:98-99 | revenue and hours totals add up over a split of the rows |
| Admin.SignupActivity | src/pages/Admin.tsx:143-151 | the signup message is "<name> joined", or "New user joined" when the name is missing or empty |
| Admin.TaskActivity | src/pages/Admin.tsx:152-160 | the task message is "New task: " followed by exactly the title |
| Admin.Activities | src/pages/Admin.tsx:143-162 | one activity per fetched profile and per fetched task: first the signups in profile order, then the task creations in task order; a failed query contributes nothing |
| Admin.RecentActivity | src/pages/Admin.tsx:164-165 | at most 10 entries, exactly min(10, total), sorted newest first, drawn from the merged activities |
| Admin.RecentActivityProvenance | src/pages/Admin.tsx:143-165 | every recent entry is the signup of a fetched profile or the creation of a fetched task |
| Admin.RecentActivityKeepsNewest | src/pages/Admin.tsx:164-165 | when more than 10 exist, every kept entry is at least as new as the best one dropped |
| Admin.OverviewActivities | src/pages/Admin.tsx:353 | the overview shows the first min(5, n) of the recent entries |
| Admin.ElapsedSeconds | src/pages/Admin.tsx:191-193 | the difference is floor((now − then) / 1000) seconds |
| Admin.Bucket | src/pages/Admin.tsx:195-198 | <60 s just now; 60–3599 s N minutes with N in [1,59]; 3600–86399 s N hours with N in [1,23]; ≥ 86400 s N ≥ 1 days; N is the floor |
| Admin.FormatTimeAgo | src/pages/Admin.tsx:190-199 | "Just now" exactly under 60 s, in particular for every future timestamp; otherwise the floored minutes, hours or days followed by "m ago", "h ago" or "d ago" for the matching range |
| Admin.RenderInjective | src/pages/Admin.tsx:195-198 | distinct buckets render as distinct strings |
| StaffDashboard.OfferedAction | src/pages/StaffDashboard.tsx:291-300 | pending offers in_progress, in_progress offers completed, every other status offers nothing |
| StaffDashboard.ActionLabel | src/pages/StaffDashboard.tsx:291-300 | a button is shown exactly when an action is offered: "Start Task" from pending, "Complete" from in_progress |
| StaffDashboard.OfferedActionIsTransition | src/pages/StaffDashboard.tsx:291-300 | the offered action is exactly the workflow's transition relation |
| StaffDashboard.WorkflowMovesForward | src/pages/StaffDashboard.tsx:291-300 | each offered action moves one step forward; nothing is offered from completed; at most two steps chain |
| StaffDashboard.CountStatuses | src/pages/StaffDashboard.tsx:156-158 | each count is the length of the tasks filtered by that status |
| StaffDashboard.CountsAddUp | src/pages/StaffDashboard.tsx:156-158 | the three counts add up to the number of tasks with a known status |
| StaffDashboard.CountsBound | src/pages/StaffDashboard.tsx:156-158 | the counts sum to at most the task count, with equality exactly when every status is known |
| StaffDashboard.PriorityColor | src/pages/StaffDashboard.tsx:130-137 | total; urgent, high and medium get their classes; every other priority gets the low class |
| StaffDashboard.StatusColor | src/pages/StaffDashboard.tsx:139-146 | total; the three statuses get their classes; every other status gets the muted class |
| StaffDashboard.StatusBadgeText | src/pages/StaffDashboard.tsx:272 | only the first "_" becomes a space; the length is kept; text without "_" is unchanged |
| StaffDashboard.FirstUnderscoreAt | src/pages/StaffDashboard.tsx:272 | when the first "_" sits at k, the badge is the status with exactly position k turned into a space |
| StaffDashboard.WorkflowBadgeTexts | src/pages/StaffDashboard.tsx:272 | the badges read "pending", "in progress" and "completed" |
| StaffDashboard.CheckAuthAndFetch | src/pages/StaffDashboard.tsx:52-98 | no session, or no staff row: redirect to /staff/login with no task or assignment fetch; otherwise fetch both for that staff id and stop loading |
| StaffDashboard.NonStaffFetchesNothing | src/pages/StaffDashboard.tsx:55-75 | without a session or staff row no tasks or assignments are fetched and the page state is unchanged |
| StaffDashboard.UpdateTaskStatus | src/pages/StaffDashboard.tsx:109-128 | the update is sent first; failure shows an error toast and nothing else; success reloads through the same fetch flow |
| StaffDashboard.UpdateOutcome | src/pages/StaffDashboard.tsx:109-128 | a failed update leaves the task list untouched with one call; a successful one shows the reloaded tasks |
| StaffPasswordEndpoint.Token | supabase/functions/update-staff-password/index.ts:33 | only the first "Bearer " occurrence is removed; a header without it is kept whole |
| StaffPasswordEndpoint.BearerToken | supabase/functions/update-staff-password/index.ts:33 | "Bearer <jwt>" yields the bare jwt |
| StaffPasswordEndpoint.Handle | supabase/functions/update-staff-password/index.ts:8-117 | OPTIONS answers 200 with no checks; 200 exactly for OPTIONS or success; every other answer carries an error message; every status in {200,400,401,403,404,500}; calls happen in stage order; 401 after at most one call, 403 after two |
| StaffPasswordEndpoint.UpdateIffAllChecksPass | supabase/functions/update-staff-password/index.ts:25-97 | the password update is called exactly when the caller is an authenticated admin, the body is complete with a password of at least 6, and the staff row has a user id — and then for that user and password |
| StaffPasswordEndpoint.SuccessIff | supabase/functions/update-staff-password/index.ts:94-109 | success is exactly: every check passes and the update reports no error |
| StaffPasswordEndpoint.AuthBeforeBody | supabase/functions/update-staff-password/index.ts:25-56 | a 401 or 403 answer does not depend on the body |
| StaffPasswordEndpoint.BodyChecksOrder | supabase/functions/update-staff-password/index.ts:56-70 | missing fields give the 400 for required fields before the length check; a short password gives its 400; neither looks up the staff row |
| StaffPasswordEndpoint.StaffChecks | supabase/functions/update-staff-password/index.ts:72-91 | an unknown staff id gives 404 and a row without a user gives 400, with no update |
| AdminStaff.HoursWorked | src/pages/AdminStaff.tsx:129-134 | the sum of hours_actual over the member's tasks, null or 0 counted as 0; 0 without rows |
| AdminStaff.HoursWorkedNonNegative | src/pages/AdminStaff.tsx:134 | the sum is non-negative when every task's hours are |
| AdminStaff.Enrich | src/pages/AdminStaff.tsx:120-141 | each member keeps its row, with activeClients defaulting to 0 and hoursWorked the task sum |
| AdminStaff.FetchStaff | src/pages/AdminStaff.tsx:108-155 | a failure keeps the list and shows an error; otherwise one member per row, in order, each carrying that row's client count (0 when absent) and task-hours sum |
| AdminStaff.ComputeTotals | src/pages/AdminStaff.tsx:373-374 | the available count is the filtered length, at most the staff count; the hours and active-assignment totals are the sums of the per-member values, the latter non-negative |
| AdminStaff.TotalsSplit | src/pages/AdminStaff.tsx:373-374 | hour, assignment and availability totals add up over a split of the staff list |
| AdminStaff.LoadedHoursAreTaskHours | src/pages/AdminStaff.tsx:134 | the total hours of a freshly loaded list is the sum of every member's task hours |
| AdminStaff.FilteredStaff | src/pages/AdminStaff.tsx:341-352 | a sub-list in original order holding exactly the members matching search and status; a non-"all" filter keeps only that exact status |
| AdminStaff.EmptySearchShowsAll | src/pages/AdminStaff.tsx:341-352 | the empty query under "all" shows every member |
| AdminStaff.SearchIgnoresQueryCase | src/pages/AdminStaff.tsx:342-345 | the search does not depend on the case of the query |
| AdminStaff.NullSpecializationNeverMatches | src/pages/AdminStaff.tsx:345 | with a null specialization only name and e-mail can match |
| AdminStaff.ResetForm | src/pages/AdminStaff.tsx:281-295 | role "VA", status "available", rate 25, empty strings, no selection, no new password; dialogs untouched |
| AdminStaff.ToCreatePayload | src/pages/AdminStaff.tsx:172-184 | phone and specialization are null exactly when empty; every other field is sent as entered |
| AdminStaff.InvokeFailure | src/pages/AdminStaff.tsx:185-186 | the call fails exactly when the invocation errs or its data carries an error |
| AdminStaff.AddStaff | src/pages/AdminStaff.tsx:157-205 | a password shorter than 6 stops before any call; no session stops before the invocation; the invocation happens exactly otherwise; only success resets and refetches, and anything else leaves the page as it was |
| AdminStaff.EnabledPassesPasswordGuard | src/pages/AdminStaff.tsx:669 | with the add button enabled and a session present, the handler invokes create-staff-user with the form's payload as its second call |
| AdminStaff.CreateStage | src/pages/AdminStaff.tsx:172-195 | the session lookup then the invocation with the form's payload; the refetch happens exactly when the answer carries no error, and then the dialog is closed and the form reset; an error leaves the page untouched |
| AdminStaff.EditStaff | src/pages/AdminStaff.tsx:207-220 | the form is seeded from the member, null phone and specialization becoming "", the password empty |
| AdminStaff.ToUpdate | src/pages/AdminStaff.tsx:228-236 | name, e-mail, role, status and rate are sent as edited; phone and specialization are null exactly when empty and otherwise the edited text |
| AdminStaff.UpdateStaff | src/pages/AdminStaff.tsx:222-256 | without a selection nothing happens; the update targets the selected id; failure keeps the page; success closes, resets and refetches |
| AdminStaff.EditRoundTrip | src/pages/AdminStaff.tsx:207-236 | saving an unchanged edit sends every field back, phone and specialization null exactly when they were null or empty |
| AdminStaff.DeleteStaff | src/pages/AdminStaff.tsx:258-279 | nothing happens without confirmation; a refetch happens exactly after a confirmed, successful delete |
| AdminStaff.OpenPasswordDialog | src/pages/AdminStaff.tsx:335-339 | the dialog opens for the member with an empty password |
| AdminStaff.ResetPassword | src/pages/AdminStaff.tsx:297-333 | no selection or a password shorter than 6 stops before any invocation; otherwise exactly one invocation; success clears and closes, failure keeps the page |
| AdminStaff.DialogPasswordPassesEndpoint | src/pages/AdminStaff.tsx:297-312 | what the dialog sends passes the edge function's body checks exactly when the staff id is non-empty |
| AdminStaff.Initials | src/pages/AdminStaff.tsx:487 | the initials contain no space and are no longer than the name |
| AdminStaff.InitialsAreWordStarts | src/pages/AdminStaff.tsx:487 | the initials are the first character of each non-empty space-separated word |
| AdminClients.Enrich | src/pages/AdminClients.tsx:120-137 | each client keeps its profile and subscription, with the task count defaulting to 0 |
| AdminClients.FetchClients | src/pages/AdminClients.tsx:108-152 | a failure keeps the list and shows "Failed to load clients"; otherwise one client per profile, in order, each with that profile's subscription and task count (0 when absent) |
| AdminClients.FilteredClients | src/pages/AdminClients.tsx:207-217 | a sub-list in original order of exactly the matching clients; a non-"all" filter keeps only subscriptions with that status |
| AdminClients.EmptySearchNeedsNameOrEmail | src/pages/AdminClients.tsx:208-210 | under the empty query a client is shown exactly when it has a name or an e-mail |
| AdminClients.SearchIgnoresQueryCase | src/pages/AdminClients.tsx:209-210 | the search does not depend on the case of the query |
| AdminClients.AllIgnoresStatus | src/pages/AdminClients.tsx:212-214 | under "all" the list is the search filter alone |
| AdminClients.EditClient | src/pages/AdminClients.tsx:154-162 | the edit form is seeded with plan "Personal", status "trial", hours 20 when missing, empty or 0 |
| AdminClients.ViewClient | src/pages/AdminClients.tsx:164-167 | viewing selects the client and leaves the edit form alone |
| AdminClients.SaveEdit | src/pages/AdminClients.tsx:169-205 | no subscription id: an error and no update; otherwise one update of that id with the form's values; failure keeps the page with one call; success closes the dialog and refetches |
| AdminClients.Apply | src/pages/AdminClients.tsx:180-187 | only plan, status and hours_included of that one subscription change |
| AdminClients.EditSaveRoundTrip | src/pages/AdminClients.tsx:154-187 | saving an unchanged edit writes back the defaults; a subscription without empty fields is left exactly as it was |
| AdminClients.Avatar | src/pages/AdminClients.tsx:316 | one character: the name's first, or "?" for a null or empty name |
| AdminClients.DisplayName | src/pages/AdminClients.tsx:321 | the name when non-empty, never empty |
| AdminClients.HoursCell | src/pages/AdminClients.tsx:350 | used over included: (0, 20) without a subscription; included falls back to 20 when 0 and is never 0 |
| AdminClients.PlanStatusCells | src/pages/AdminClients.tsx:343-365 | plan defaults to "Personal" and status to "Unknown" |
| AdminClients.EditSeedMatchesCells | src/pages/AdminClients.tsx:157-159 | the edit form opens on the plan and hours the table shows; without a subscription the form says "trial" where the table says "Unknown" |
| Auth.EmailIssues | src/pages/Auth.tsx:14-20 | one issue exactly when the trimmed address is not valid |
| Auth.PasswordIssues | src/pages/Auth.tsx:15-21 | one issue exactly when the untrimmed password is shorter than 6 UTF-16 units |
| Auth.LoginIssues | src/pages/Auth.tsx:13-16 | issues only for email and password |
| Auth.LoginAcceptsIff | src/pages/Auth.tsx:13-16 | login accepts exactly a valid trimmed address and a password of at least 6 |
| Auth.SignupIssues | src/pages/Auth.tsx:18-26 | the last issue is on confirmPassword exactly when the passwords differ, and it is the only one there |
| Auth.NameIssues | src/pages/Auth.tsx:19 | no fullName issue exactly when the trimmed name has 1–100 UTF-16 units; an empty name reports "Full name is required" first |
| Auth.FieldIssues | src/pages/Auth.tsx:19-21 | no issue exactly when name, address and password all pass; every issue names one of the three fields; an empty trimmed name is reported first |
| Auth.SignupAcceptsIff | src/pages/Auth.tsx:18-26 | sign-up accepts exactly a trimmed name of 1–100, a valid address, a password of at least 6 and a matching confirmation |
| Auth.MismatchReportedOnConfirm | src/pages/Auth.tsx:22-26 | a mismatch shows "Passwords don't match" under confirmPassword, and only then is that key present |
| Auth.BlankNameRefused | src/pages/Auth.tsx:19 | a whitespace-only name gets a fullName error |
| Auth.SignInFailureMessage | src/pages/Auth.tsx:84-86 | "Invalid login credentials" becomes the friendly text; any other message passes unchanged |
| Auth.SignInFailureMessageStable | src/pages/Auth.tsx:84-86 | mapping twice changes nothing more |
| Auth.SignUpFailedToast | src/pages/Auth.tsx:109-122 | a message containing "already registered" gives "Account exists"; others show as "Sign up failed" with the message |
| Auth.AlreadyRegisteredAnywhere | src/pages/Auth.tsx:110 | "already registered" anywhere in the message is recognised |
| Auth.Submit | src/pages/Auth.tsx:62-134 | a rejected form sets the error map and calls nothing; otherwise errors are cleared and exactly one sign-in or sign-up call is made; a failed answer shows the reworded sign-in or sign-up failure toast; /dashboard exactly on a valid form and success |
| Auth.RejectedFormShowsErrors | src/pages/Auth.tsx:69-106 | a rejected form calls nothing and shows a non-empty map keyed only by form fields |
| Auth.Edit | src/pages/Auth.tsx:54-60 | the named field takes the value; its error is blanked; the mode is kept |
| Auth.EditClearsOnlyThatField | src/pages/Auth.tsx:54-60 | every other field's error is left as it was |
| Auth.Toggle | src/pages/Auth.tsx:287-291 | the mode flips, all errors are cleared and the four fields are emptied |
| Auth.ToggleTwice | src/pages/Auth.tsx:287-291 | toggling twice returns to the same mode with an empty form |
| Auth.SessionRedirect | src/pages/Auth.tsx:48-52 | redirect to /dashboard exactly once loading finished with a user |
| StaffAuth.Submit | src/pages/StaffAuth.tsx:57-120 | a rejected form shows errors and calls nothing; otherwise the staff lookup uses the typed address; no row denies access; sign-in only with a row, and a failed sign-in shows the reworded failure toast after exactly the lookup and the sign-in; /staff/dashboard exactly after a successful sign-in |
| StaffAuth.BindOnlyWhenUnbound | src/pages/StaffAuth.tsx:105-112 | user_id is written exactly after a successful sign-in for a row whose user_id is null, and only as the third call |
| StaffAuth.NoSignInWithoutStaffRow | src/pages/StaffAuth.tsx:63-104 | a rejected form or unknown address never signs in or binds; a failed sign-in binds nothing and stays |
| StaffAuth.RawEmailIsUsed | src/pages/StaffAuth.tsx:75-95 | the lookup sends the untrimmed input, not the validated trimmed value |
| StaffAuth.CheckAuth | src/pages/StaffAuth.tsx:29-47 | redirect to /staff/dashboard exactly for a session whose user has a staff row |
| StaffAuth.Edit | src/pages/StaffAuth.tsx:49-55 | the named field takes the value and its error is blanked |
| Contact.NameIssues | src/pages/Contact.tsx:13 | no issue exactly when the trimmed name has 1–100 UTF-16 units; an empty name gets only the required message, an overlong one only the length message, both on the given field; the profile editor's full_name check is the same with its own field and messages |
| Contact.EmailIssues | src/pages/Contact.tsx:14 | no issue exactly for a valid trimmed address of at most 255; a long invalid one reports both, length last |
| Contact.PhoneIssues | src/pages/Contact.tsx:15 | no issue exactly when the trimmed phone has at most 20 UTF-16 units, otherwise the one length message on phone; the profile editor uses it with its own message |
| Contact.MessageIssues | src/pages/Contact.tsx:16 | no issue exactly when the trimmed message has 1–1000 |
| Contact.Issues | src/pages/Contact.tsx:12-17 | issues only for the four form fields |
| Contact.AcceptsIff | src/pages/Contact.tsx:12-17 | the schema accepts exactly the forms meeting all four trimmed-length and e-mail rules |
| Contact.BlankRefused | src/pages/Contact.tsx:13-16 | a whitespace-only name or message is refused |
| Contact.HundredCharacterNameAccepted | src/pages/Contact.tsx:13 | a trimmed name of exactly 100 raises no name issue |
| Contact.LongBadEmailShowsLengthMessage | src/pages/Contact.tsx:14-50 | a malformed address over 255 shows the length message, the later issue winning the field |
| Contact.ToSubmission | src/pages/Contact.tsx:57-64 | the row holds the trimmed values; the phone is null exactly when empty after trimming; the message has no prefix |
| Contact.Refill | src/pages/Contact.tsx:57-64 | a stored row put back in the form has an empty phone exactly when the row's is null or empty |
| Contact.SubmissionIsStable | src/pages/Contact.tsx:57-64 | submitting a stored row again stores the same row |
| Contact.SubmissionRevalidates | src/pages/Contact.tsx:12-64 | a stored row passes the schema again |
| Contact.SubmitWith | src/pages/Contact.tsx:38-82 | a rejected form sets the error map and inserts nothing; an accepted one inserts one row; success empties the form and keeps the errors; failure keeps the form |
| Contact.Submit | src/pages/Contact.tsx:38-82 | a row is inserted exactly for an acceptable form, and it is the trimmed row |
| Contact.Edit | src/pages/Contact.tsx:30-36 | the named field takes the value and its error is blanked |
| GetStarted.ToSubmission | src/pages/GetStarted.tsx:57-64 | the message is "[Consultation Request] " followed by the trimmed message; the phone is null exactly when empty after trimming |
| GetStarted.StoredMessageLength | src/pages/GetStarted.tsx:63 | the stored message is 23 UTF-16 units longer than the trimmed one |
| GetStarted.SameAcceptanceAsContact | src/pages/GetStarted.tsx:12-17 | the consultation form accepts exactly what the contact form accepts |
| GetStarted.DiffersOnlyByPrefix | src/pages/GetStarted.tsx:57-64 | the row differs from the contact row only by the message prefix |
| GetStarted.Submit | src/pages/GetStarted.tsx:38-82 | a row is inserted exactly for an acceptable form; a rejected form stays; success empties the fields |
| ProfileEditor.AvatarPath | src/components/ProfileEditor.tsx:79-80 | "<id>/avatar." followed by a dot-free extension; the whole name when it has no dot |
| ProfileEditor.AvatarPathExtension | src/components/ProfileEditor.tsx:79 | the extension is the text after the name's last dot |
| ProfileEditor.ChangeAvatar | src/components/ProfileEditor.tsx:52-116 | no file does nothing; a non-image is refused before the size check; over 2 MiB is refused; an upload happens exactly otherwise, to the avatar path; the preview changes only after both writes succeed |
| ProfileEditor.AvatarGuardOrder | src/components/ProfileEditor.tsx:57-74 | a non-image file gets the type message whatever its size; an image of exactly 2 MiB is uploaded |
| ProfileEditor.AvatarPreviewOnSuccess | src/components/ProfileEditor.tsx:90-106 | success shows the public URL with a "?t=" cache-busting suffix |
| ProfileEditor.InitialForm | src/components/ProfileEditor.tsx:35-38 | null name or phone become "" |
| ProfileEditor.Issues | src/components/ProfileEditor.tsx:10-13 | issues only for full_name and phone |
| ProfileEditor.AcceptsIff | src/components/ProfileEditor.tsx:10-13 | the schema accepts exactly a trimmed name of 1–100 and a trimmed phone of at most 20 |
| ProfileEditor.BlankNameRefused | src/components/ProfileEditor.tsx:11 | a whitespace-only name is refused |
| ProfileEditor.ToUpdate | src/components/ProfileEditor.tsx:137-140 | the raw name is saved; the phone is null exactly when the raw input is empty |
| ProfileEditor.UntouchedSaveRoundTrip | src/components/ProfileEditor.tsx:137-140 | saving an untouched form writes the profile back, an empty phone becoming null |
| ProfileEditor.NameSavedUntrimmed | src/components/ProfileEditor.tsx:123-138 | surrounding spaces pass the schema and are stored |
| ProfileEditor.Submit | src/components/ProfileEditor.tsx:118-159 | errors are cleared; one update of the raw values exactly for an acceptable form; a rejected form shows its errors; a failed update shows its message; `onUpdate` (the page's data refetch) runs exactly on success, and the editor stays open with the values as typed |
| ProfileEditor.Edit | src/components/ProfileEditor.tsx:40-46 | the named field takes the value and its error is blanked |
| TaskRequestForm.StoredDescription | src/components/TaskRequestForm.tsx:68 | "[category] " (or "[General] ") followed by the trimmed description |
| TaskRequestForm.ParseDescription | src/components/TaskRequestForm.tsx:68 | a parsed description reassembles to the stored text |
| TaskRequestForm.ParseBracketed | src/components/TaskRequestForm.tsx:68 | any "]"-free category and any text after "] " are read back exactly |
| TaskRequestForm.DescriptionRoundTrip | src/components/TaskRequestForm.tsx:68 | for a category without "]" the category (or General) and the trimmed description are read back |
| TaskRequestForm.OfferedCategoriesReadBack | src/components/TaskRequestForm.tsx:29-39 | every category the select offers is read back from the stored description, together with the trimmed description |
| TaskRequestForm.ToNewTask | src/components/TaskRequestForm.tsx:65-73 | status "pending", client_id the user, trimmed title; due date and hours null exactly when empty; hours via parseFloat; no row when the date cannot be converted |
| TaskRequestForm.Submit | src/components/TaskRequestForm.tsx:41-101 | no user is refused first; an empty trimmed title or description next; an insert happens exactly otherwise; success resets to the defaults and notifies; any failure keeps the form and shows the message or the fallback |
| TaskRequestForm.BlankFieldsRefused | src/components/TaskRequestForm.tsx:53-60 | a whitespace-only title or description inserts nothing |
| TaskRequestForm.EmptyErrorMessageFallsBack | src/components/TaskRequestForm.tsx:95 | an empty error message shows the generic text |
| UpdatePassword.Issues | src/components/UpdatePassword.tsx:11-17 | at most two issues, only for password and confirmPassword |
| UpdatePassword.AcceptsIff | src/components/UpdatePassword.tsx:11-17 | the form accepts exactly a password of at least 6 repeated in the confirmation |
| UpdatePassword.ErrorsPerField | src/components/UpdatePassword.tsx:11-51 | the password key is present exactly for a short password, and the confirmPassword key exactly for a mismatch, each with its message |
| UpdatePassword.Submit | src/components/UpdatePassword.tsx:40-81 | updateUser is called exactly for a valid form; passwordUpdated and the /dashboard redirect only after it answers without error |
| UpdatePassword.Edit | src/components/UpdatePassword.tsx:32-38 | the named field takes the value and only its error is blanked |
| Forms.CollectErrors | src/pages/Contact.tsx:44-50 | every issue's field has an entry, no other field has one, and the last issue per field decides its message |
| Forms.ClearFieldError | src/pages/Auth.tsx:54-60 | the same keys; the edited field's entry blanked; all others unchanged |
| Text.Trim | src/pages/Contact.tsx:13-16 | the infix left after removing JavaScript whitespace from both ends |
| Text.TrimIdempotent | src/pages/Contact.tsx:13-16 | trimming twice equals trimming once |
| Text.TrimEmptyIff | src/pages/Contact.tsx:13-16 | the trim is empty exactly for whitespace-only text |
| Text.JsLength | src/pages/Contact.tsx:13-16 | UTF-16 length, at least the number of characters |
| Text.ReplaceFirst | supabase/functions/update-staff-password/index.ts:33 | only the first occurrence is replaced |
| Text.LastSegment | src/components/ProfileEditor.tsx:79 | split(".").pop() contains no dot and is the whole text when there is none |
| Text.LastSegmentIsSuffix | src/components/ProfileEditor.tsx:79 | the last segment is the suffix after the last separator |
| Text.JoinSplit | src/pages/AdminStaff.tsx:487 | joining the split parts restores the text |
| Text.ToLowerIdempotent | src/pages/AdminStaff.tsx:343-345 | lower-casing twice equals once |
| Text.NatToStringRoundTrip | src/pages/Admin.tsx:196-198 | the decimal rendering reads back as the number |
| Lists.Filter | src/pages/AdminStaff.tsx:341 | a sub-list of exactly the elements satisfying the predicate |
| Lists.CountIsFilterLength | src/pages/StaffDashboard.tsx:156 | the count is the filtered length, the full length exactly when all satisfy it |
| Lists.SortDesc | src/pages/Admin.tsx:164 | a newest-first permutation of the input |
| Lists.SortDescSorted | src/pages/Admin.tsx:164 | an already newest-first list is left unchanged |
| Lists.TakeTake | src/pages/Dashboard.tsx:278 | two truncations keep the smaller limit |
| Js.NullRoundTrip | src/pages/AdminStaff.tsx:207-236 | seeding with `|| ""` and sending with `|| null` turns only "" into null |

## Left out

- Backend I/O is not executed. Table selects, inserts, updates and deletes, `has_role`, sign-in and sign-up, storage, and function invocation are all modelled as answers passed in and calls recorded in a trace. The `Promise.all` per-row fan-out becomes a sequential map over the rows.
- React rendering and the loading and submitting flags (`isSubmitting`, `isCreating`, `loadingStats`) are not modelled. Dialog open/close is kept only where a handler changes it.
- The `setTimeout` delay before the redirect after a password update is not modelled. The model records the redirect as scheduled.
- The zod `.email()` pattern is the library's and is a parameter, `isEmail`.
- `toLowerCase` is modelled for ASCII letters only; full Unicode case mapping is left out.
- `charAt(0)` and `n[0]` are modelled on characters. A name starting outside the Basic Multilingual Plane would yield half a surrogate pair in JavaScript.
- Hours, prices and percentages are Dafny reals. NaN, infinities and rounding are left out, and so is `toFixed`.
- `parseFloat` and `new Date(s).toISOString()` are runtime parameters. An unconvertible date is modelled as the `RangeError` that skips the insert.
- Dates are integer milliseconds. Date parsing of the stored timestamps and locale formatting are not modelled.
- Exceptions thrown by the client libraries are not modelled. The "Something went wrong" catch-all toasts of the forms stand only for the error answers modelled.
- StaffPasswordEndpoint.Handle: JSON body fields that are not strings (numbers, objects) are not modelled. A body field is absent, null or a string. Deno.serve, CORS header contents and environment lookups are left out.
- The public pages, the router, the admin navigation bar, the password-reset request form and the stub login page are not modelled. They hold no logic beyond rendering, a duplicate of the admin gate, or a single network call.
- StaffDashboard.StatusColor: the status badge classes of the admin staff list (member availability colours) are not modelled.
- StaffDashboard.UpdateTaskStatus: the model holds one toast per outcome, so when the reload after a successful update shows its own toast (access denied, a failed fetch) only that last toast is kept; the page first shows "Task Updated" and then the reload's toast.
- Lists.SortDescSorted: stability of the newest-first sort is stated only as "an already sorted list is unchanged". The full statement that equal timestamps keep their input order is not proved.
- The admin "time ago" view takes integer milliseconds for both instants, so `Date.now()` and the stored timestamp's parsing are parameters.
