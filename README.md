# ExcelLense core, modelled in Dafny

ExcelLense is a role-based spreadsheet application. Users upload Excel workbooks; the
server turns the first worksheet into JSON rows and stores them; the client charts those
rows in 2D and 3D and saves chart "analyses". Admins and a super admin manage accounts.

This project models the parts of ExcelLense that decide who may do what and which data
ends up where:

- The server's access guard with its role hierarchy (user < admin < superadmin).
- The account routes: registration, admin requests guarded by a passkey, and login.
- Seeding the super admin at start-up.
- Spreadsheet ingestion and the owner-checked upload routes.
- The chart-analysis routes.
- On the client:
  - the route table and its `PrivateRoute` wrapper;
  - the admin dashboard;
  - the chart-analyses panel with its filters;
  - the analysis history with its de-duplication;
  - the upload drop zone;
  - the data side of the 2D and 3D charts (which rows are plotted, how they are grouped
    and counted, how labels are shortened).

Modules follow the source files:

| module | models |
|---|---|
| `AuthMiddleware` | the access guard |
| `AuthRoutes` | the account routes; the tables are fields of the `AccountStore` class |
| `SeedSuperAdmin` | seeding the super admin |
| `Uploads` | ingestion, as loops over the visited rows and cells, and the `UploadStore` class |
| `ChartAnalysisRoutes` | the analysis routes and the `AnalysisStore` class |
| `AppRoutes` | the client route table |
| `AdminDashboard`, `ChartAnalysesPanel`, `AnalysisHistory` | those pages |
| `UploadSection` | the drop zone, as the `DropZone` class with its `uploading` and `message` fields |
| `Chart2D`, `Chart3D` | the chart components |

Three modules are shared:

- `Common`: JavaScript truthiness, `trim`, `startsWith`/`endsWith`, filtering, the first match of a query, keeping the first
  element per key, and a stable newest-first sort.
- `Records`: the stored document shapes and the role names.
- `JsObject`: a plain JavaScript object used as a tally (`o[k] = (o[k] || 0) + v`), together
  with the key order `Object.keys` gives. That order is array-index keys first, ascending,
  then the other keys in insertion order.

Code with loops or mutation is modelled as methods with loop invariants or as classes:

- the header and row passes of ingestion;
- the de-duplication filter;
- the grouping and counting loops;
- the stores and the drop zone.

Each such method is specified by a function, and the properties are proved about that
function.

Calls into code outside the model become parameters:

| call | parameter |
|---|---|
| `jwt.verify` | `verify` |
| `User.findById` | `findById` |
| `bcrypt.hash` | `hash` |
| `bcrypt.compare` | `matches` |
| `Number(...) \|\| 0` | `number` |
| `toISOString` | `iso` |
| whether a save succeeds (for the super-admin seed this includes the unique username index: a seed whose username is already taken fails at the save) | `saveOk` |
| whether the mail is sent | `mailOk` |
| the clock | `now` |

### Behaviour worth noting

- **Which role the guard checks.** The access guard compares the role of the user record
  it loads, not the role carried in the token (`AuthMiddleware.ClaimedRoleIgnored`).
- **Cells right of the last header.** Ingestion does not stop at the last header. A cell
  to the right of it is stored under the key `"undefined"` (`Uploads.CellBeyondHeaders`).
- **Stored admin requests.** A new admin request is checked against every stored request,
  whatever its status, and by email only, not by username
  (`AuthRoutes.RequestUsernameNotChecked`, `AuthRoutes.ResubmittedAdminRequestRefused`).
  Requests keep their record after review, so an applicant whose request was approved or
  rejected can never apply again under that email.
- **Key order of a parsed row.** A row's keys are listed by `Object.keys` in header order,
  except that a header that is an array index, such as `"2024"`, is listed before all the
  others (`Uploads.NumericHeaderFirst`).

## Model

| member | source | states |
|---|---|---|
| AuthMiddleware.RoleLevel | server/middleware/authMiddleware.js:6-10 | user, admin and superadmin have levels 1, 2 and 3; every other role name has level 0 (names inherited from `Object.prototype` excepted, see "## Left out") |
| AuthMiddleware.Normalize | server/middleware/authMiddleware.js:12-16 | a single role name becomes a one-element list; a list is kept as given |
| AuthMiddleware.MinLevel | server/middleware/authMiddleware.js:47 | the requirement is a lower bound on the listed roles' levels and is attained by one of them |
| AuthMiddleware.Guard | server/middleware/authMiddleware.js:18-64 | a missing or non-Bearer header gets 401 before anything else; the token checked is the header without its prefix; an expired token gets 401 "Token expired"; an invalid token or a store error gets 401 "Invalid token"; an unknown user gets 401 "User not found"; a found user is admitted iff their stored role reaches the least listed level; a refusal is a 403 exactly when the only failure is the role |
| AuthMiddleware.RoleAdmitsMonotone | server/middleware/authMiddleware.js:47-50 | whatever admits a role admits every role at least as high |
| AuthMiddleware.UnknownRoleAdmitsAll | server/middleware/authMiddleware.js:47-48 | one unknown role in the list lowers the requirement to 0, so every authenticated user passes |
| AuthMiddleware.MinLevelOfList | server/middleware/authMiddleware.js:47-50 | every listed role is itself admitted |
| AuthMiddleware.HierarchyExamples | server/middleware/authMiddleware.js:46-53 | an admin passes an admin guard but not a superadmin guard; a superadmin passes both; a user fails an admin-or-superadmin list |
| AuthMiddleware.ClaimedRoleIgnored | server/middleware/authMiddleware.js:27-48 | two tokens naming the same user get the same answer, whatever roles they claim |
| AuthMiddleware.BlockedUserAdmitted | server/middleware/authMiddleware.js:30-56 | the guard never reads `blocked`: a blocked user with a verifying token is admitted wherever the role suffices |
| AuthRoutes.RegisterCheck | server/routes/auth.js:14-31 | missing fields give 400 first; then a request for the admin role gives 403; then the account may be created iff no user has that email or that username; every refusal is a 400 or a 403 |
| AuthRoutes.AdminRequestCheck | server/routes/auth.js:53-70 | missing fields give 400; a passkey that differs from the configured one gives 403 before any lookup; then the request may be created iff no user clashes on email or username and no stored request, whatever its status, has that email |
| AuthRoutes.FindByEmail | server/routes/auth.js:107 | the record found has the email and is in the table; none is found iff no record has the email |
| AuthRoutes.Login | server/routes/auth.js:99-134 | missing fields give 400; an unknown email gives 400 "Invalid credentials"; a blocked account gives 403 whatever the password; a wrong password gives 400 "Invalid credentials"; otherwise a one-day token for the account's id and role, and the account without its password |
| AuthRoutes.AccountStore.AddUser | server/routes/auth.js:35-42 | appends exactly one account with a fresh id, not blocked, and keeps ids below the counter |
| AuthRoutes.AccountStore.Register | server/routes/auth.js:12-48 | a refusal leaves the table unchanged and answers the check's reply; a failed save answers 500 and changes nothing; otherwise 201 and one new account whose role is `user` whatever was requested |
| AuthRoutes.AccountStore.SubmitAdminRequest | server/routes/auth.js:51-96 | a refusal leaves the requests unchanged; a failed save answers 500 with nothing stored; a saved request stays recorded even when the mail then fails and the reply is 500 |
| AuthRoutes.ResubmittedRegisterRefused | server/routes/auth.js:26-31 | sending a successful registration again is refused as a duplicate |
| AuthRoutes.RequestedRoleIgnored | server/routes/auth.js:20-24 | asking for `superadmin`, or any role but `admin`, is the same as asking for none |
| AuthRoutes.UnsetPasskeyRefusesAll | server/routes/auth.js:59-61 | with no passkey configured, every complete admin request gets 403 |
| AuthRoutes.RequestUsernameNotChecked | server/routes/auth.js:63-70 | a stored request with the same username but another email does not block a new request |
| AuthRoutes.ResubmittedAdminRequestRefused | server/routes/auth.js:64-70 | once a request is recorded, another under the same email is refused |
| AuthRoutes.BlockedBeforePassword | server/routes/auth.js:110-115 | a blocked account gets the same 403 whatever the password comparison says |
| AuthRoutes.UnknownEmailLikeWrongPassword | server/routes/auth.js:107-115 | an unknown email and a wrong password for an unblocked account get the same refusal |
| AuthRoutes.LoginTokenAdmitted | server/routes/auth.js:117-118 | a login token, read back by the guard against the same account, is admitted wherever its role suffices |
| SeedSuperAdmin.Seed | server/utils/seedSuperAdmin.js:4-32 | inserts exactly one superadmin account iff all three settings are present, no account has the seed email and the save succeeds; otherwise the table is unchanged |
| SeedSuperAdmin.SeedIdempotent | server/utils/seedSuperAdmin.js:13-17 | after a run that inserted, any later run inserts nothing |
| SeedSuperAdmin.ExistingEmailBlocksSeed | server/utils/seedSuperAdmin.js:13-17 | an account under the seed email blocks seeding even when it is not a superadmin |
| Uploads.HeaderKey | server/routes/uploads.js:33 | column `c` maps to header `c - 1`; a column outside the header list maps to the key "undefined" |
| Uploads.TrimmedTexts | server/routes/uploads.js:25-27 | one trimmed text per header cell, in visiting order |
| Uploads.DataRows | server/routes/uploads.js:29-30 | the data rows are exactly the visited rows other than row 1, as a subsequence of the visited rows, so in row order |
| Uploads.ParseHeaders | server/routes/uploads.js:22-27 | the header loop yields the trimmed texts of row 1's cells, or nothing when row 1 has no value |
| Uploads.ParseRow | server/routes/uploads.js:31-34 | the cell loop yields the row's object: each cell stored under its column's header, with its keys in the order they were first assigned |
| Uploads.SetField | server/routes/uploads.js:33 | assigning a key sets its value and appends the key to the key order only when it is new |
| Uploads.RowRecord | server/routes/uploads.js:31-34 | the row's object holds exactly the keys in its key order, each once |
| Uploads.RowKeyOrder | server/routes/uploads.js:31-34 | under distinct headers, a row with a value in each of the first columns has its keys in header order |
| Uploads.FullRowKeys | server/routes/uploads.js:31-34 | under distinct headers none of which is an array index, `Object.keys` of a full row is the header list |
| Uploads.NameAgeKeys | server/routes/uploads.js:31-34 | a row under the headers Name and Age lists its keys as Name, Age |
| Uploads.NumericHeaderFirst | server/routes/uploads.js:31-34 | under the headers Name and 2024, `Object.keys` lists 2024 first |
| Uploads.ParseWorksheet | server/routes/uploads.js:22-36 | the two passes yield the headers and one record per visited row after row 1 |
| Uploads.RecordsPerDataRow | server/routes/uploads.js:29-36 | exactly one record per data row, in row order, built from that row's cells; row 1 never becomes a record |
| Uploads.RowRecordKeys | server/routes/uploads.js:32-34 | a record has a key iff some cell of the row maps to it |
| Uploads.RowRecordLastWins | server/routes/uploads.js:32-34 | a key holds the text of the last cell that maps to it |
| Uploads.DuplicateHeaderExample | server/routes/uploads.js:33 | under two equal headers the second column's text wins |
| Uploads.CellBeyondHeaders | server/routes/uploads.js:33 | a cell right of the last header is stored under "undefined" |
| Uploads.TwoColumnRecord | server/routes/uploads.js:31-34 | a row with values in both header columns maps the first header to the first text and the second to the second |
| Uploads.FindById | server/routes/uploads.js:68 | the upload found has the id; none is found iff no upload has it |
| Uploads.ListFor | server/routes/uploads.js:57 | the listing is a permutation of the owner's uploads, holds only theirs, and is ordered newest first |
| Uploads.WithoutIdKeepsOthers | server/routes/uploads.js:75 | deleting an id keeps every other upload, in order, and nothing with that id |
| Uploads.UploadStore.Create | server/routes/uploads.js:11-52 | no file gives 400; a workbook that fails to load gives 500; an empty filename or a failed save gives 500; each failure stores nothing; otherwise 201 with a fresh id and exactly one new upload holding the parsed records; ids stay distinct |
| Uploads.UploadStore.List | server/routes/uploads.js:55-63 | every listed upload is the requester's, and every upload of theirs is listed |
| Uploads.UploadStore.Delete | server/routes/uploads.js:66-81 | an unknown id gives 404 and is checked first; someone else's upload gives 403; each refusal changes nothing; otherwise exactly that upload is removed and ids stay distinct |
| ChartAnalysisRoutes.NewestFirst | server/routes/chartAnalysis.js:36 | the sorted listing is a permutation of the matching records, ordered by `createdAt`, newest first |
| ChartAnalysisRoutes.ListByEmail | server/routes/chartAnalysis.js:33-42 | exactly that email's records, newest first |
| ChartAnalysisRoutes.ListAll | server/routes/chartAnalysis.js:44-51 | every record, newest first |
| ChartAnalysisRoutes.FindById | server/routes/chartAnalysis.js:55 | the record found has the id; none is found iff no record has it |
| ChartAnalysisRoutes.AnalysisStore.Post | server/routes/chartAnalysis.js:5-31 | a body that fails the schema, or a failed save, gives 500 and stores nothing; a valid one that is saved always appends a record with a fresh id, even a duplicate, without the summary |
| ChartAnalysisRoutes.AnalysisStore.Delete | server/routes/chartAnalysis.js:53-61 | an unknown id gives 404 and changes nothing; otherwise exactly that record is removed, one record fewer, and ids stay distinct |
| ChartAnalysisRoutes.WithoutIdKeepsDistinct | server/routes/chartAnalysis.js:55 | deleting by id keeps the remaining ids distinct |
| ChartAnalysisRoutes.WithoutPresentId | server/routes/chartAnalysis.js:55 | with distinct ids, deleting a present id removes exactly one record |
| ChartAnalysisRoutes.DeleteKeepsOthers | server/routes/chartAnalysis.js:55-57 | deleting keeps every other record, in order, and none with that id remains |
| ChartAnalysisRoutes.ListByEmailWithinAll | server/routes/chartAnalysis.js:33-51 | the per-email listing is the full listing restricted to that email |
| AppRoutes.PrivateRoute | client/src/App.jsx:24-32 | while loading, show the loading screen; with nobody signed in, redirect to `/login`; render iff a user is signed in and their role is listed (or no list is given); any other case redirects to `/` |
| AppRoutes.Absolute | client/src/App.jsx:97-98 | a path without a leading slash is taken relative to the root |
| AppRoutes.FindRoute | client/src/App.jsx:38-114 | the route found is in the table with that absolute path; none is found iff no route has it |
| AppRoutes.TablePathsDistinct | client/src/App.jsx:39-112 | no two routes share an absolute path |
| AppRoutes.RouteAt | client/src/App.jsx:38-112 | each route's own path selects that route |
| AppRoutes.ElementAt | client/src/App.jsx:38-112 | at each route's path an unguarded page renders and a guarded one goes through `PrivateRoute` |
| AppRoutes.SuperAdminOnlyRoutes | client/src/App.jsx:81-104 | once loaded, the three superadmin pages render exactly for a superadmin and send anyone else to `/` |
| AppRoutes.AdminRoutes | client/src/App.jsx:51-112 | once loaded, the four admin pages render exactly for an admin or a superadmin |
| AppRoutes.DashboardPath | client/src/App.jsx:43-50 | the dashboard renders for the three known roles and no other |
| AppRoutes.OpenRoutes | client/src/App.jsx:39-63 | the seven unguarded pages render whatever the sign-in state |
| AppRoutes.GuardedPaths | client/src/App.jsx:27-28 | a guarded page waits while loading and sends a visitor to `/login` |
| AppRoutes.UnknownPath | client/src/App.jsx:114 | every path outside the table goes to `/` |
| AppRoutes.TableListsAgreeWithServer | client/src/App.jsx:29 | for the three role lists the table uses, client membership agrees with the server's hierarchy check |
| AppRoutes.MembershipIsNotHierarchy | client/src/App.jsx:29 | a list naming only `admin` refuses a superadmin on the client, where the server's hierarchy would admit one |
| AdminDashboard.Action | client/src/pages/AdminDashboard/AdminDashboard.jsx:197-208 | a superadmin row is immutable; any other row offers exactly `user` and `admin`, shows the current role, and is disabled iff the viewer is an admin and the target is not a plain user |
| AdminDashboard.ChangeableTargets | client/src/pages/AdminDashboard/AdminDashboard.jsx:197-204 | a viewer can change a target iff the target is not a superadmin and the viewer is either not an admin or the target is a plain user |
| AdminDashboard.NoPromotionToSuperAdmin | client/src/pages/AdminDashboard/AdminDashboard.jsx:206-207 | no row offers the superadmin role |
| AdminDashboard.CountsPartition | client/src/pages/AdminDashboard/AdminDashboard.jsx:139-158 | the three role counts and the count of other roles add up to the number of accounts |
| AdminDashboard.OverviewBounded | client/src/pages/AdminDashboard/AdminDashboard.jsx:138-158 | the three role cards add up to at most the total, and to exactly the total iff every role is one of the three |
| AdminDashboard.AfterFetch | client/src/pages/AdminDashboard/AdminDashboard.jsx:15-24 | loading ends either way; a success replaces the list but keeps any earlier error; a failure keeps the list and shows the server's message or "Failed to load users" |
| AdminDashboard.AfterChangeRole | client/src/pages/AdminDashboard/AdminDashboard.jsx:26-33 | the state is unchanged; success refetches; failure alerts the server's message or "Failed to change role" |
| AdminDashboard.Table | client/src/pages/AdminDashboard/AdminDashboard.jsx:167-215 | the loading text exactly while loading; after loading, the error if there is one; the rows are shown, exactly the listed users, iff loading is over and there is no error |
| AdminDashboard.ErrorSticks | client/src/pages/AdminDashboard/AdminDashboard.jsx:15-29 | after a failed load, later successful fetches never bring the table back |
| AdminDashboard.FetchAllKeepsError | client/src/pages/AdminDashboard/AdminDashboard.jsx:15-24 | a run of successful fetches leaves the error text as it was |
| ChartAnalysesPanel.OnMount | client/src/pages/SuperAdmin/ChartAnalysesPanel.jsx:15-20 | fetches iff the viewer is an admin or a superadmin; anyone else is sent to the dashboard |
| ChartAnalysesPanel.Slice10 | client/src/pages/SuperAdmin/ChartAnalysesPanel.jsx:39 | the first ten characters, or the whole string when shorter |
| ChartAnalysesPanel.FilteredExact | client/src/pages/SuperAdmin/ChartAnalysesPanel.jsx:36-42 | the table keeps, in order, exactly the analyses matching the type filter and the day filter, where an empty filter matches everything |
| ChartAnalysesPanel.NoFilterListsAll | client/src/pages/SuperAdmin/ChartAnalysesPanel.jsx:36-42 | with both filters empty every analysis is listed |
| ChartAnalysesPanel.FiltersCompose | client/src/pages/SuperAdmin/ChartAnalysesPanel.jsx:36-42 | filtering by both is filtering by type and then by day |
| ChartAnalysesPanel.TypeOptionsProperties | client/src/pages/SuperAdmin/ChartAnalysesPanel.jsx:89-94 | the type options are the listed chart types, each once, ordered by the position of their first occurrence; choosing one always leaves a row |
| ChartAnalysesPanel.AfterFetch | client/src/pages/SuperAdmin/ChartAnalysesPanel.jsx:22-31 | loading ends; a success replaces the list; a failure keeps it and shows the server's message or "Failed to load analyses"; the filters are untouched |
| ChartAnalysesPanel.Table | client/src/pages/SuperAdmin/ChartAnalysesPanel.jsx:106-116 | a skeleton exactly while loading; after loading, the error if there is one; "none found" exactly when loaded without error and nothing matches; otherwise the non-empty filtered rows |
| AnalysisHistory.Deduplicate | client/src/pages/DataVisualization/AnalysisHistory.jsx:39-47 | the filter with a `seen` set keeps the first analysis per configuration key |
| AnalysisHistory.DeduplicateProperties | client/src/pages/DataVisualization/AnalysisHistory.jsx:39-47 | the kept analyses appear in input order; no two share a key; every key survives; de-duplicating again changes nothing |
| AnalysisHistory.DeduplicateKeepsFirst | client/src/pages/DataVisualization/AnalysisHistory.jsx:41-46 | the first analysis with a key is kept and a later different one with that key is dropped |
| AnalysisHistory.DashCollision | client/src/pages/DataVisualization/AnalysisHistory.jsx:42 | the dash-joined key does not escape dashes, so two different configurations can collide and only the first is shown |
| AnalysisHistory.StartFetch | client/src/pages/DataVisualization/AnalysisHistory.jsx:20-28 | without an email, the "not authenticated" error with loading over; otherwise a request for that email's analyses |
| AnalysisHistory.Fetched | client/src/pages/DataVisualization/AnalysisHistory.jsx:28-36 | loading ends; a success shows the de-duplicated analyses; a failure keeps the list and shows the load error |
| AnalysisHistory.AfterDelete | client/src/pages/DataVisualization/AnalysisHistory.jsx:52-63 | a confirmed delete removes exactly the entries with that id, in order, with the success status; a failed one keeps the list, with the failure status |
| AnalysisHistory.DeleteIdempotent | client/src/pages/DataVisualization/AnalysisHistory.jsx:55 | removing an id twice is the same as removing it once |
| UploadSection.SettledMessage | client/src/components/UploadSection.jsx:31-33 | success shows "✅ " and the server's message; failure shows "❌ " and the server's message or "Upload failed" |
| UploadSection.DropZone.constructor | client/src/components/UploadSection.jsx:6-7 | not uploading, with an empty message |
| UploadSection.DropZone.OnDrop | client/src/components/UploadSection.jsx:9-21 | an empty drop changes nothing; a first file whose name fails the extension check sets the error and stops; an Excel name clears the message, starts the upload and is the file sent |
| UploadSection.DropZone.OnSettled | client/src/components/UploadSection.jsx:26-35 | the upload indicator stops and the outcome's message is shown |
| UploadSection.ExtensionCheckExamples | client/src/components/UploadSection.jsx:17 | the check reads the end of the name and is case-sensitive |
| UploadSection.DropAndSettle | client/src/components/UploadSection.jsx:9-36 | a non-empty drop always ends with the indicator off and either the extension error or the outcome's message |
| Chart3D.SplitSpaces | client/src/pages/DataVisualization/Chart3D.jsx:12 | splitting yields at least one piece |
| Chart3D.SplitTrimmed | client/src/pages/DataVisualization/Chart3D.jsx:12 | splitting trimmed non-empty text yields non-empty words free of white space |
| Chart3D.SplitFirstWord | client/src/pages/DataVisualization/Chart3D.jsx:12 | a word, a space and more text split into that word and the split of the rest |
| Chart3D.Initials | client/src/pages/DataVisualization/Chart3D.jsx:14 | one upper-cased first letter per word |
| Chart3D.Abbreviate | client/src/pages/DataVisualization/Chart3D.jsx:10-15 | falsy or short text is returned as given; so is one short word; otherwise the result has one character per word of the trimmed text, the upper-cased first letter of that word |
| Chart3D.AbbreviateTwoWords | client/src/pages/DataVisualization/Chart3D.jsx:10-15 | two words joined by a space abbreviate to their two upper-cased initials |
| Chart3D.TrimOfTrimmed | client/src/pages/DataVisualization/Chart3D.jsx:12 | text that starts and ends with a non-space character is its own trim |
| Chart3D.AbbreviateShort | client/src/pages/DataVisualization/Chart3D.jsx:11 | text under three characters is kept |
| Chart3D.GenerateColors | client/src/pages/DataVisualization/Chart3D.jsx:6-7 | one colour per item with hue `i * 360 / num`, saturation 70 and lightness 50 |
| Chart3D.ColorsDistinct | client/src/pages/DataVisualization/Chart3D.jsx:6-7 | different items get different hues, each below one full turn |
| Chart3D.Amount | client/src/pages/DataVisualization/Chart3D.jsx:142 | without a y axis a row counts 1; a row missing the y value adds 0 |
| Chart3D.Groups | client/src/pages/DataVisualization/Chart3D.jsx:140-145 | the grouping loop builds the tally of (x value, amount) pairs |
| Chart3D.Chart | client/src/pages/DataVisualization/Chart3D.jsx:85-149 | nothing without an upload or an x axis; otherwise the labels are `Object.keys` of the groups, each value is its group's sum, and there is one colour per label |
| Chart3D.KeptRowsExact | client/src/pages/DataVisualization/Chart3D.jsx:139 | a row is grouped iff its x value is defined and non-empty, in order |
| Chart3D.GroupKeysAreXValues | client/src/pages/DataVisualization/Chart3D.jsx:140-147 | the groups are exactly the distinct x values of the grouped rows |
| Chart3D.CountsWithoutY | client/src/pages/DataVisualization/Chart3D.jsx:142-148 | without a y axis every label has a value and the values add up to the number of grouped rows |
| Chart2D.Labels | client/src/pages/DataVisualization/Chart2D.jsx:51 | one label per plotted row, its x value |
| Chart2D.CountLabels | client/src/pages/DataVisualization/Chart2D.jsx:64-65 | the counting loop builds the tally of one count per label |
| Chart2D.PieSlices | client/src/pages/DataVisualization/Chart2D.jsx:66-71 | the slices are `Object.keys` of the counts, each sized by its count, with one colour each |
| Chart2D.Render | client/src/pages/DataVisualization/Chart2D.jsx:39-202 | without an upload or an x axis, the select notice; a pie counts labels without a y axis and plots y values with one; a scatter plots the finite points; every other type gives the y-axis notice without a y axis; with one, bar and line plot the y values and any other type gives the unsupported notice |
| Chart2D.PlottedRowsExact | client/src/pages/DataVisualization/Chart2D.jsx:44-49 | a row is plotted iff its x value is defined and non-empty and, except for a pie, its y value is too; order is kept |
| Chart2D.NoYAxisNoRows | client/src/pages/DataVisualization/Chart2D.jsx:48 | a chart other than a pie with no y axis plots no rows |
| Chart2D.OnesAmount | client/src/pages/DataVisualization/Chart2D.jsx:65 | the count under a label is its number of occurrences |
| Chart2D.PieCounts | client/src/pages/DataVisualization/Chart2D.jsx:63-71 | a pie without a y axis has one slice per distinct label, sized by its occurrences, and the slices add up to the number of plotted rows |
| Chart2D.LabelsNonEmpty | client/src/pages/DataVisualization/Chart2D.jsx:44-51 | every plotted row has a label and no label is empty |
| JsObject.ObjectKeys | client/src/pages/DataVisualization/Chart3D.jsx:147 | `Object.keys` lists every key once, array-index keys first in ascending order, then the others in insertion order |
| JsObject.ObjectKeysWithoutIndices | client/src/pages/DataVisualization/Chart3D.jsx:147 | without array-index keys, `Object.keys` is the insertion order |
| JsObject.IndexKeyFirst | client/src/pages/DataVisualization/Chart3D.jsx:147 | an array-index key inserted after another key is listed before it |
| JsObject.Bump | client/src/pages/DataVisualization/Chart3D.jsx:144 | the bumped key holds its old value, or 0, plus the amount; other keys are unchanged; an existing key keeps the key order and a new key goes last |
| JsObject.TallyValues | client/src/pages/DataVisualization/Chart3D.jsx:141-145 | the tally holds a key iff some entry has it, and then the sum of that key's amounts |
| JsObject.TallySum | client/src/pages/DataVisualization/Chart3D.jsx:141-145 | the tally's values add up to the total of all amounts |
| JsObject.SumOverPermutation | client/src/pages/DataVisualization/Chart3D.jsx:147-148 | the sum over the keys does not depend on the order they are listed in |
| JsObject.ObjectKeysSum | client/src/pages/DataVisualization/Chart3D.jsx:147-148 | the values listed under `Object.keys` of a tally add up to the total of all amounts |
| Common.DistinctProperties | client/src/pages/SuperAdmin/ChartAnalysesPanel.jsx:89-94 | `[...new Set(s)]` is a subsequence of `s` with each value of `s` once, ordered by first occurrence |
| Common.FindFirst | server/routes/auth.js:107 | the result is the first element that matches; nothing is found iff no element matches |
| Common.Trim | server/routes/uploads.js:26 | `trim` drops exactly the leading and trailing white space: what it drops before and after is white space and the result neither starts nor ends with it; the result is empty iff the text is all white space |

## Left out

- Workbook loading is not modelled. ExcelJS reading the file buffer, and the text it gives
  each cell, are outside the model. The first worksheet arrives as the rows and cells that
  `eachRow` and `eachCell` visit. A workbook that fails to load is an absent worksheet.
- Express, multer and Mongoose plumbing is not modelled. Document ids are natural numbers.
  `toString()` comparisons of ids are plain equality.
- A malformed id makes `findById` throw a cast error (500). That case is not modelled; every
  id is well formed.
- Records.AdminRequest: the request's status field is not modelled. The lookup that
  guards a new request ignores the status, so a stored request blocks a new one under the
  same email whether it is pending, approved or rejected.
- Store failures outside the saves are not modelled. Every save (registration, admin
  request, upload, chart analysis) carries a `saveOk` flag. The 500 catch branches that a
  failing lookup or hash would reach are not modelled: the `findOne` lookups and `bcrypt`
  calls of registration, the admin request and login (`server/routes/auth.js:44-47`,
  `:92-95`, `:130-133`), and the upload and analysis listing and delete routes.
- An upload with no data rows is stored: an empty `data` array passes the schema.
- The upload routes sit behind `authMiddleware()`. They are modelled for an already
  admitted requester, given by id.
- Token signing and verification, bcrypt, the mailer and the clock are parameters.
  The mail's contents and recipient are not modelled.
- Console logging is not modelled anywhere.
- The server's `/admin/...` routes are not part of this model. The dashboard and the panel
  fetch from them.
- Chart3D: the Three.js scene is not modelled. This covers the camera, lights, sprites,
  bar heights and pie angles, all of it floating-point geometry.
- AuthMiddleware.RoleLevel: role names inherited from `Object.prototype` ("toString",
  "constructor", "valueOf", "hasOwnProperty" and the like) get level 0 here. In the source
  `roleHierarchy[r] || 0` is then a function, the comparison `userLevel < requiredLevel`
  involves NaN and is false, and the user is admitted. So a stored role "toString" behind
  `authMiddleware("admin")` is admitted by the source, where `AuthMiddleware.Guard` answers
  403; the same holds for such a name in the required list.
- Chart3D.Abbreviate: works on Dafny characters. JavaScript measures `text.length` and takes
  `word[0]` in UTF-16 code units, so text with characters outside the Basic Multilingual
  Plane (an emoji, say) has a different length and first "letter" there.
- Chart3D.Amount: amounts are integers. `Number(v) || 0` in the source yields floating-point
  numbers: fractions, NaN (which becomes 0) and Infinity are not modelled, nor the rounding
  of a floating-point sum. `JsObject.TallySum` and `JsObject.SumOverPermutation` hold for
  exact integer sums only.
- JsObject.Bump: keys inherited from `Object.prototype` are not modelled. In the source a
  key such as `"constructor"` or `"toString"` starts from the inherited function, so `+`
  concatenates text, and a `"__proto__"` key is never stored as an own key.
- Uploads.RowRecord: the same applies to a header named `"__proto__"`, which does not become
  a key of the row object, and to headers that shadow inherited keys.
- Chart3D.Upper: upper-cases only ASCII letters. JavaScript's `toUpperCase` covers all of
  Unicode.
- Chart3D.GenerateColors: keeps the hue as an exact fraction. JavaScript prints it as a
  decimal number in the colour string.
- Chart2D: Chart.js options, gradients and styling are not modelled.
- Chart2D: `formatNumber` rounding and `Number` parsing are the parameters `number` and
  `point`.
- Chart2D.ScatterPoints: the contract only bounds the number of points. The row-by-row
  definition is the model of the `map`/`filter` pipeline.
- AnalysisHistory: these parts are not modelled:
  - image and PDF downloads;
  - logout and navigation;
  - the `hasFetched` guard that makes the effect run once;
  - the three-second timer that clears the delete status.
- AdminDashboard: the navigation buttons, the profile menu and the rendering of the role
  column are not modelled.
- ChartAnalysesPanel: `toISOString` is the parameter `iso`. The navigation bar and the
  rendering of rows are not modelled.
- UploadSection: react-dropzone's `accept` filtering happens before `onDrop`. The model
  starts from the list of accepted files.
- UploadSection: the server's message is taken to be a string. If the server sends none,
  the client would show "undefined".
- AppRoutes: route matching is exact string equality on absolute paths. React Router's
  case-insensitivity, trailing-slash handling and relative nesting rules are not modelled.
  The authentication provider is given as its `loading` and `user` state.
- AppRoutes: only the table's behaviour at its own paths is proved. `AppRoutes.Element` has
  no contract of its own.
