# Employee onboarding portal — a verified model of its core logic

This project models, in Dafny, the logic at the centre of a React onboarding
portal for background checks. The portal has four parts:

* **HR dashboard** — document summaries and status classification. It turns
  each candidate's uploaded-document map (`pendingFiles`) into a per-document
  summary and a status: `PENDING`, `QUEUED`, `COMPLETED`, or the upstream
  `DISCREPANCY` override. This logic appears in three places: the candidates
  page, the data table and the home page. The home page's summary cards count
  candidates by status. The data table adds a search filter, status badges and
  pagination.
* **Registration form** — `RegisterNewCheck`. It validates the mandatory text
  fields, POSTs the metadata, then uploads every single-file and multi-file
  attachment that passes the PDF/DOCX and 5 MB test, in a fixed order. It
  stops at the first refused request and tracks a four-valued submission
  status.
* **Authentication and routing.**
  * The `AuthProvider` session state: restore from storage, login, logout.
  * The `PrivateRoute` guard, including its sidebar rule.
  * The `/dashboard` redirect and the route table of `App`.
* **Login page** — checks the entered credentials against the mock accounts.

Each source file becomes one module:

| module | file | models |
|---|---|---|
| `DocumentSummary` | `document_summary.dfy` | the builder and classifier shared by the candidate views |
| `CandidatesPage` | `candidates_page.dfy` | candidate normalisation on the candidates page |
| `DataTable` | `data_table.dfy` | the table: normalisation, search, badges, pagination, and a `ListView` class for its fetch state |
| `Home` | `home.dfy` | the dashboard's own status counter (a loop) and the summary cards |
| `RegisterNewCheck` | `register_new_check.dfy` | the form as a `RegistrationForm` class; the upload loops as methods proved against the upload plan |
| `AuthContext` | `auth_context.dfy` | the session, as a class |
| `PrivateRoute` | `private_route.dfy` | the route guard |
| `UserDashboardRedirect` | `user_dashboard_redirect.dfy` | the dashboard redirect |
| `App` | `app.dfy` | the route table |
| `LoginPage` | `login_page.dfy` | the credential lookup and the login form |

Two helper modules support them. `Strings` holds the JavaScript string
built-ins the code relies on: `includes`, `toLowerCase`, `trim`,
`startsWith`, `endsWith`. `Wrappers` holds `Option`.

A summary entry's label is not stored: `DocEntry.docLabel()` derives it
from the entry's key, as the builder computes it from the key alone.

JavaScript values whose shape the code tests at run time are written out as
datatypes:

* a `pendingFiles` entry: `RawValue` — missing, a string, an array of strings,
  or another value with its truthiness;
* the `candidates` field of a response;
* the response body on the home page.

Throwing is modelled as `None`. Server replies are a parameter:
`replies(k)` answers the k-th request of a submission.

The document-summary builder is not total. For a truthy value that is
neither a string nor an array, `raw.replace` throws a `TypeError`, and the
whole summary fails with it. `BuildEntry` yields `None` exactly for such
values, and the summary, the row and the list fail with it.

## Model

| member | source | states |
|---|---|---|
| `DocumentSummary.NormalizePath` | src/pages/CandidatesPage.jsx:245-249 | every backslash becomes `/`, every other character and the length are kept |
| `DocumentSummary.NormalizePathClean` | src/pages/CandidatesPage.jsx:245-249 | a normalised path has no backslash and normalising again changes nothing |
| `DocumentSummary.AfterLastUnderscoreSuffix` | src/pages/CandidatesPage.jsx:251-254 | `split("_").pop()` returns a suffix of the path that contains no `_` |
| `DocumentSummary.AfterLastUnderscoreCut` | src/pages/CandidatesPage.jsx:251-254 | when that suffix is shorter than the path, the character before it is the last `_` |
| `DocumentSummary.AfterLastUnderscoreWhole` | src/pages/CandidatesPage.jsx:251-254 | a path without `_` is returned whole |
| `DocumentSummary.NormalizePaths` | src/pages/CandidatesPage.jsx:247 | each path of an array is normalised, in order |
| `DocumentSummary.FileObjects` | src/pages/CandidatesPage.jsx:264-268 | each normalised path becomes one file object with that path and its name after the last `_`, in order |
| `DocumentSummary.SpaceBeforeCapitalsOnlyAddsSpaces` | src/pages/CandidatesPage.jsx:258 | inserting a space before each capital leaves the non-blank characters unchanged |
| `DocumentSummary.DocLabelKeepsKey` | src/pages/CandidatesPage.jsx:258 | the label differs from the key only in white space |
| `DocumentSummary.SpaceBeforeCapitalsFirst` | src/pages/CandidatesPage.jsx:258 | the spaced key never starts with a capital |
| `DocumentSummary.CapitalsFollowSpaces` | src/pages/CandidatesPage.jsx:258 | every capital of the spaced key has a space right before it |
| `DocumentSummary.SpaceBeforeCapitalsRoundTrip` | src/pages/CandidatesPage.jsx:258 | removing each space that stands before a capital gives back the key, so exactly one space is inserted per capital |
| `DocumentSummary.SpaceBeforeCapitalsAppend` | src/pages/CandidatesPage.jsx:258 | spacing a concatenation is the concatenation of the spaced parts |
| `DocumentSummary.SpaceBeforeCapitalsNoCapitals` | src/pages/CandidatesPage.jsx:258 | a key without capitals is left unchanged |
| `DocumentSummary.TwoWords` | src/pages/CandidatesPage.jsx:258 | a two-word camel-case key gets exactly one space, before the second word |
| `DocumentSummary.SpacedExample` | src/pages/CandidatesPage.jsx:258 | `tenthMarksheet` is spaced to `tenth Marksheet` |
| `DocumentSummary.DocLabelExample` | src/pages/CandidatesPage.jsx:258 | the label of `tenthMarksheet` is `tenth Marksheet` |
| `DocumentSummary.BuildEntry` | src/pages/CandidatesPage.jsx:242-270 | building one entry throws exactly when the raw value is a truthy non-string non-array |
| `DocumentSummary.BuildEntryMeaning` | src/pages/CandidatesPage.jsx:256-269 | the entry keeps its key; its label is the spaced key; it is present iff the value is a non-empty array or a non-empty string, and then has one file object per normalised path |
| `DocumentSummary.BuildFrom` | src/pages/CandidatesPage.jsx:243-270 | a successful summary has one entry per required key, each as built from that key's value |
| `DocumentSummary.BuildFromThrows` | src/pages/CandidatesPage.jsx:243-270 | the summary throws iff some required key's entry throws |
| `DocumentSummary.BuildFromShape` | src/pages/CandidatesPage.jsx:243-270 | over any key list, the summary exists iff no listed value is a truthy non-string non-array, and its entries carry the keys in order |
| `DocumentSummary.SummaryShape` | src/pages/CandidatesPage.jsx:225-240 | the summary exists iff no listed value throws; it has 11 entries, one per required key, in order |
| `DocumentSummary.OnlyListedKeysMatter` | src/pages/CandidatesPage.jsx:243-244 | keys outside the required list do not affect the summary |
| `DocumentSummary.AbsentDocumentsAreEmpty` | src/pages/CandidatesPage.jsx:240 | missing `documents` behaves as an empty `pendingFiles`: 11 absent entries without files |
| `DocumentSummary.StatusName` | src/pages/CandidatesPage.jsx:273-280 | every status has a non-empty wire name |
| `DocumentSummary.PresentCount` | src/pages/CandidatesPage.jsx:275 | the number of present entries is at most the number of entries |
| `DocumentSummary.PresentCountExtremes` | src/pages/CandidatesPage.jsx:275-279 | the count is 0 iff nothing is present, and equals the length iff everything is |
| `DocumentSummary.ComputeStatusFromDocs` | src/pages/CandidatesPage.jsx:273-280 | PENDING iff nothing present; COMPLETED iff non-empty and all present; QUEUED iff some present and some absent; never DISCREPANCY |
| `DocumentSummary.PresentCountMonotone` | src/pages/CandidatesPage.jsx:275 | more present documents never lower the count |
| `DocumentSummary.StatusOfCount` | src/pages/CandidatesPage.jsx:273-280 | two summaries of the same length with the same present count get the same status |
| `DocumentSummary.CountMonotone` | src/pages/CandidatesPage.jsx:273-280 | of two summaries of the same length, the one with at least as many present documents never has the lower status |
| `DocumentSummary.ClassificationMonotone` | src/pages/CandidatesPage.jsx:273-280 | marking more entries present never moves the status backwards from COMPLETED to QUEUED to PENDING |
| `DocumentSummary.FinalStatus` | src/pages/CandidatesPage.jsx:336-341 | the status is DISCREPANCY iff the backend says so, and otherwise the computed status |
| `CandidatesPage.OrDash` | src/pages/CandidatesPage.jsx:345-349 | a metadata cell is never empty; it is the dash iff the value is missing, empty or the dash itself, and otherwise the value |
| `CandidatesPage.MetaOf` | src/pages/CandidatesPage.jsx:345-349 | present metadata is read as is; missing metadata reads every field as missing |
| `CandidatesPage.NormalizeCandidate` | src/pages/CandidatesPage.jsx:332-356 | a row exists iff its summary does; it carries that summary, the id, the DISCREPANCY-or-computed status, and each metadata column as the dash-defaulted metadata field |
| `CandidatesPage.RowFieldsNonEmpty` | src/pages/CandidatesPage.jsx:345-349 | every displayed metadata field of a row is non-empty |
| `CandidatesPage.RowColumns` | src/pages/CandidatesPage.jsx:345-349 | each column of a row is the metadata field when it is non-empty, and the dash when it is missing or empty |
| `CandidatesPage.RowWithoutMetadata` | src/pages/CandidatesPage.jsx:345-349 | a candidate without metadata shows the dash in every metadata column |
| `CandidatesPage.NormalizeAll` | src/pages/CandidatesPage.jsx:332 | a successful normalisation has one row per candidate |
| `CandidatesPage.NormalizeAllAt` | src/pages/CandidatesPage.jsx:332 | row `i` of a successful normalisation is candidate `i`'s row |
| `CandidatesPage.NormalizeAllPointwise` | src/pages/CandidatesPage.jsx:332 | every row of a successful normalisation is its own candidate's row, in order |
| `CandidatesPage.NormalizeAllFails` | src/pages/CandidatesPage.jsx:332 | the list fails iff some candidate's row fails |
| `CandidatesPage.CandidatesOf` | src/pages/CandidatesPage.jsx:332 | a falsy `candidates` gives the empty list, an array gives its items, and the handler throws exactly for a truthy non-array |
| `CandidatesPage.PageRowsMeaning` | src/pages/CandidatesPage.jsx:332-358 | the stored list is empty without a truthy `candidates`; the handler throws iff the field is a truthy non-array or some candidate's summary throws; otherwise row `i` is candidate `i`'s row |
| `DataTable.NormalizeRowAgrees` | src/components/DataTable.jsx:350-373 | the table's normalisation agrees with the candidates page on every shared field, and fails on the same inputs |
| `DataTable.NormalizeRows` | src/components/DataTable.jsx:350 | a successful normalisation maps every candidate, in order |
| `DataTable.FilterRows` | src/components/DataTable.jsx:392-400 | the filtered rows are exactly the rows with a searched column containing the term |
| `DataTable.FilterKeepsOrder` | src/components/DataTable.jsx:395-399 | filtering distributes over concatenation, so the rows keep their order |
| `DataTable.EmptyTermKeepsAll` | src/components/DataTable.jsx:392-400 | an empty term keeps every row |
| `DataTable.RowMatchesMeaning` | src/components/DataTable.jsx:396-398 | a row matches iff one of name, email, status, employer, city contains the lower-cased term at some position |
| `DataTable.FilteredCandidatesMeaning` | src/components/DataTable.jsx:392-400 | the global search wins over the local term when non-empty, and a row is shown iff it is a loaded row that matches |
| `DataTable.StatusClassOfRows` | src/components/DataTable.jsx:402-415 | every status gets a styled badge, and PENDING shares its badge with DISCREPANCY |
| `DataTable.PageButtons` | src/components/DataTable.jsx:507-510 | the buttons are 1..`totalPages`, or a single button when `totalPages` is missing or 0 |
| `DataTable.ShouldFetchIffButton` | src/components/DataTable.jsx:417-426 | a page change fetches iff the page has a button and is not the current page |
| `DataTable.ListView.constructor` | src/components/DataTable.jsx:338 | the table starts loading, empty, with the given or an empty pagination |
| `DataTable.ListView.ApplyFetch` | src/components/DataTable.jsx:340-382 | a fetch stores the rows and pagination, or the error, and always clears loading |
| `DataTable.ListView.HandlePageChange` | src/components/DataTable.jsx:417-426 | out-of-range and same-page requests change nothing; otherwise the page is fetched: rows and pagination stored, or kept with the normalisation or fetch error; loading ends |
| `Home.SubmittedCount` | src/pages/Home.jsx:26-31 | at most one count per required document |
| `Home.CalculateStatus` | src/pages/Home.jsx:23-36 | the counting loop returns the status of the submitted count |
| `Home.SubmittedCountExtremes` | src/pages/Home.jsx:26-31 | the count is 0 iff nothing is submitted, and full iff everything is |
| `Home.HomeStatusMeaning` | src/pages/Home.jsx:33-35 | never DISCREPANCY; PENDING iff no document; COMPLETED iff all 11 documents |
| `Home.PresenceIsSubmitted` | src/pages/Home.jsx:29-30 | Home's submitted test agrees with the builder's presence test wherever the builder does not throw |
| `Home.PresentCountIsSubmittedCount` | src/pages/Home.jsx:26-31 | counting present entries equals counting submitted values |
| `Home.StatusAgreesOn` | src/pages/Home.jsx:23-36 | over any key list, Home's status equals the summary's computed status |
| `Home.HomeAgreesWithSummary` | src/pages/Home.jsx:23-36 | Home's status equals the candidate views' computed status whenever the summary exists |
| `Home.CandidatesArray` | src/pages/Home.jsx:56-58 | a bare array is used as is; otherwise the first truthy of `data`, `employees`, `candidates` is used if it is an array and throws if it is not; no truthy field gives the empty list |
| `Home.ProcessAll` | src/pages/Home.jsx:61-67 | one processed record per candidate, keeping the candidate, with its status computed from its own pending files |
| `Home.CountStatus` | src/pages/Home.jsx:71-77 | a status count never exceeds the number of candidates |
| `Home.CountStatusAppend` | src/pages/Home.jsx:71-77 | counting a status is additive over concatenated lists |
| `Home.CountStatusExtremes` | src/pages/Home.jsx:71-77 | a count is 0 iff no record has the status, and the whole length iff every record has it |
| `Home.DistinctCountsBounded` | src/pages/Home.jsx:69-77 | counts of two different statuses add up to at most the total |
| `Home.SummaryFromPayload` | src/pages/Home.jsx:56-83 | the cards exist iff the list does; the total is its length; `clear` and `pending` count the processed records that are COMPLETED and PENDING |
| `Home.CountOfCandidates` | src/pages/Home.jsx:61-77 | a status count over the processed list is 0 iff no candidate's own status is that status, and the total iff every candidate's is |
| `Home.SummaryCardsMeaning` | src/pages/Home.jsx:69-83 | `clear` is 0 iff no candidate is COMPLETED and the total iff all are; `pending` is 0 iff no candidate is PENDING |
| `RegisterNewCheck.InitialState` | src/pages/RegisterNewCheck.jsx:43-70 | every text field is empty, every single-file field is null, every multi-file field is empty |
| `RegisterNewCheck.IsPdfOrDocxIgnoresCase` | src/pages/RegisterNewCheck.jsx:120-126 | the validator gives the same verdict for a name and its lower-cased form |
| `RegisterNewCheck.IsPdfOrDocxExamples` | src/pages/RegisterNewCheck.jsx:119-126 | no file fails; upper-case `.PDF` at exactly 5 MB passes; one byte more fails; `.doc` fails |
| `RegisterNewCheck.SinglePlanSound` | src/pages/RegisterNewCheck.jsx:162-179 | the single-file loop uploads only present, valid files of its keys |
| `RegisterNewCheck.SinglePlanComplete` | src/pages/RegisterNewCheck.jsx:162-179 | every present, valid single file is uploaded |
| `RegisterNewCheck.FilesPlanMeaning` | src/pages/RegisterNewCheck.jsx:184-202 | one field's loop uploads exactly its valid files, each tagged with its own index, in ascending index order |
| `RegisterNewCheck.MultiPlanSound` | src/pages/RegisterNewCheck.jsx:182-203 | the multi-file loops upload only valid files of the multi keys, at their index |
| `RegisterNewCheck.MultiPlanComplete` | src/pages/RegisterNewCheck.jsx:182-203 | every valid file of a multi key is uploaded |
| `RegisterNewCheck.PlanSound` | src/pages/RegisterNewCheck.jsx:162-203 | over any key lists the loops upload only valid present files of those keys, and never the metadata |
| `RegisterNewCheck.PlanComplete` | src/pages/RegisterNewCheck.jsx:162-203 | over any key lists every valid present file of those keys is uploaded |
| `RegisterNewCheck.PlanOrder` | src/pages/RegisterNewCheck.jsx:161-203 | over any key lists no single-file upload follows a multi-file upload |
| `RegisterNewCheck.SinglePlanOrdered` | src/pages/RegisterNewCheck.jsx:161-179 | over distinct keys, single uploads come in the order of their keys |
| `RegisterNewCheck.MultiOrderedSnoc` | src/pages/RegisterNewCheck.jsx:182-203 | appending one more key's uploads, in index order, keeps the multi uploads in key order |
| `RegisterNewCheck.MultiPlanOrdered` | src/pages/RegisterNewCheck.jsx:182-203 | over distinct keys, multi uploads come in the order of their keys, and within a key in index order |
| `RegisterNewCheck.OrderedParts` | src/pages/RegisterNewCheck.jsx:161-203 | single uploads followed by multi uploads keep both parts' key orders |
| `RegisterNewCheck.OrderedNoRepeats` | src/pages/RegisterNewCheck.jsx:161-203 | a plan in key order over distinct keys repeats no request |
| `RegisterNewCheck.PlanInDeclaredOrder` | src/pages/RegisterNewCheck.jsx:161-203 | over distinct key lists the plan keeps both key orders and repeats no request |
| `RegisterNewCheck.DistinctPrefix` | src/pages/RegisterNewCheck.jsx:161-203 | a prefix of a list of distinct keys is distinct |
| `RegisterNewCheck.DeclaredKeysDistinct` | src/pages/RegisterNewCheck.jsx:152-159 | the declared single-file and multi-file keys are each listed once |
| `RegisterNewCheck.UploadPlanMeaning` | src/pages/RegisterNewCheck.jsx:152-203 | the upload plan is exactly the valid present files of the declared keys; single before multi; each part in declared key order, files in index order; no request twice; no metadata request |
| `RegisterNewCheck.SinglePlanSnoc` | src/pages/RegisterNewCheck.jsx:162-179 | one more pass of the single-file loop appends that key's upload, if any |
| `RegisterNewCheck.FilesPlanSnoc` | src/pages/RegisterNewCheck.jsx:184-202 | one more pass of a field's loop appends that file's upload, if it is valid |
| `RegisterNewCheck.MultiPlanSnoc` | src/pages/RegisterNewCheck.jsx:182-203 | one more multi key appends all of that key's uploads |
| `RegisterNewCheck.SinglePlanPrefix` | src/pages/RegisterNewCheck.jsx:162-179 | the requests after part of the single loop are a prefix of the whole loop's |
| `RegisterNewCheck.FilesPlanPrefix` | src/pages/RegisterNewCheck.jsx:184-202 | the requests after part of one field's loop are a prefix of the whole loop's |
| `RegisterNewCheck.MultiPlanPrefix` | src/pages/RegisterNewCheck.jsx:182-203 | the requests after part of the multi loop are a prefix of the whole loop's |
| `RegisterNewCheck.StageRefused` | src/pages/RegisterNewCheck.jsx:171 | a refusal part way through a stage leaves a prefix ending in the refused request |
| `RegisterNewCheck.StageThen` | src/pages/RegisterNewCheck.jsx:129-209 | a successful stage followed by another is one stage over both plans |
| `RegisterNewCheck.StageAbort` | src/pages/RegisterNewCheck.jsx:211-214 | a failed stage aborts everything planned after it |
| `RegisterNewCheck.StageWiden` | src/pages/RegisterNewCheck.jsx:211-214 | a stage that failed within part of a plan failed within the whole plan |
| `RegisterNewCheck.StageStart` | src/pages/RegisterNewCheck.jsx:161-162 | before a loop's first pass nothing of its plan is sent and everything before it was accepted |
| `RegisterNewCheck.StageStep` | src/pages/RegisterNewCheck.jsx:170-174 | one pass sending at most one request: accepted, the stage goes on over the longer partial plan; refused, it ends part way through the plan |
| `RegisterNewCheck.SinglesStep` | src/pages/RegisterNewCheck.jsx:162-179 | one pass of the single-file loop keeps its invariant, or ends the stage at the refused upload |
| `RegisterNewCheck.FilesStep` | src/pages/RegisterNewCheck.jsx:184-202 | one pass of a field's loop keeps its invariant, or ends the stage at the refused upload |
| `RegisterNewCheck.MultisStep` | src/pages/RegisterNewCheck.jsx:182-203 | one field of the multi-file loop keeps its invariant, or ends the stage with that field's refusal |
| `RegisterNewCheck.UploadSingleField` | src/pages/RegisterNewCheck.jsx:163-178 | a single field's file is sent iff it is present and valid; the pass fails iff that upload is refused |
| `RegisterNewCheck.UploadMultiFile` | src/pages/RegisterNewCheck.jsx:185-201 | file `i` of a field is sent with its index iff it is valid; the pass fails iff that upload is refused |
| `RegisterNewCheck.SendSingles` | src/pages/RegisterNewCheck.jsx:162-179 | all single uploads are sent and accepted, or a prefix ending at the first refusal |
| `RegisterNewCheck.SendFiles` | src/pages/RegisterNewCheck.jsx:184-202 | all of one field's uploads are sent and accepted, or a prefix ending at the first refusal |
| `RegisterNewCheck.SendMultis` | src/pages/RegisterNewCheck.jsx:182-203 | all multi uploads are sent and accepted, or a prefix ending at the first refusal |
| `RegisterNewCheck.SendStages` | src/pages/RegisterNewCheck.jsx:129-203 | over any key lists: metadata, then the single uploads, then the multi uploads, all accepted; or a prefix ending at the first refusal |
| `RegisterNewCheck.SendAll` | src/pages/RegisterNewCheck.jsx:129-209 | metadata then every upload, all accepted; or a prefix of that sequence whose last request is the first refused |
| `RegisterNewCheck.ErrorBannerText` | src/pages/RegisterNewCheck.jsx:257-262 | the error banner is never blank; it shows the stored message when there is one, and the generic failure text otherwise |
| `RegisterNewCheck.RenderingByStatus` | src/pages/RegisterNewCheck.jsx:223-230 | the form is rendered in every status but success; the default button text appears only when idle or successful |
| `RegisterNewCheck.JoinNames` | src/pages/RegisterNewCheck.jsx:97-101 | the joined names start with the first name, end with the last, and add two characters per separator |
| `RegisterNewCheck.DisplayFileNames` | src/pages/RegisterNewCheck.jsx:97-101 | the placeholder for no files, otherwise the names joined by ", " |
| `RegisterNewCheck.JoinNamesSnoc` | src/pages/RegisterNewCheck.jsx:97-101 | joining one more name appends `, ` and that name |
| `RegisterNewCheck.DisplayFileNamesJoin` | src/pages/RegisterNewCheck.jsx:97-101 | one file shows its own name; one more file appends `, ` and its name |
| `RegisterNewCheck.RegistrationForm.constructor` | src/pages/RegisterNewCheck.jsx:72-76 | the form starts idle, with the initial state and no error |
| `RegisterNewCheck.RegistrationForm.HandleChange` | src/pages/RegisterNewCheck.jsx:79-82 | a text change updates that field only |
| `RegisterNewCheck.RegistrationForm.HandleSingleFileChange` | src/pages/RegisterNewCheck.jsx:85-88 | a single-file field takes the first chosen file, or null |
| `RegisterNewCheck.RegistrationForm.HandleMultiFileChange` | src/pages/RegisterNewCheck.jsx:91-94 | a multi-file field takes every chosen file in order |
| `RegisterNewCheck.RegistrationForm.HandleSubmit` | src/pages/RegisterNewCheck.jsx:104-218 | see the summary after this table |
| `AuthContext.AuthProvider.constructor` | src/context/AuthContext.js:20-24 | the session starts logged out, without a role, loading |
| `AuthContext.AuthProvider.Init` | src/context/AuthContext.js:27-36 | a non-empty stored role restores a logged-in session with that role; loading always ends |
| `AuthContext.AuthProvider.Login` | src/context/AuthContext.js:39-51 | only `hr` or `user` log in, storing the role; any other role changes nothing |
| `AuthContext.AuthProvider.Logout` | src/context/AuthContext.js:54-60 | logout clears the stored role, the role and the logged-in flag |
| `PrivateRoute.Guard` | src/components/PrivateRoute.jsx:29-60 | loading shows the loading screen; logged out goes to `/login`; rendering the element needs the role among the required roles (or no roles required) |
| `PrivateRoute.GuardDecision` | src/components/PrivateRoute.jsx:38-60 | for a logged-in session: the element, or `/registration` for a refused user, `/home` for another refused role, `/login` when no element |
| `PrivateRoute.SidebarPrefixMatch` | src/components/PrivateRoute.jsx:14-25 | the sidebar shows iff the role is `hr` or the path starts with neither `/registration` nor `/new-check` |
| `UserDashboardRedirect.DashboardTarget` | src/components/UserDashboardRedirect.jsx:10-13 | the loading screen appears exactly while the session loads |
| `UserDashboardRedirect.DashboardTargetMeaning` | src/components/UserDashboardRedirect.jsx:15-31 | `hr` goes to `/home`, `user` to `/registration`, everyone else to `/` |
| `App.HrPagesOnlyForHr` | src/App.js:39-48 | the home and candidates pages render iff the session is loaded, logged in as `hr` and the path is theirs |
| `App.UserReachesOnlyRegistration` | src/App.js:28-58 | a `user` session can only be shown the landing page, the dashboard redirect or the registration form |
| `App.LoggedOutSeesOnlyLanding` | src/App.js:17-61 | a logged-out visitor sees only the landing page |
| `App.DashboardSendsUserToRegistration` | src/App.js:33-36 | `/dashboard` takes a `user` to `/registration`, whose form then renders |
| `App.ForeignRoleBouncesToHome` | src/components/PrivateRoute.jsx:41-55 | a restored role other than `hr` and `user` is sent to `/home` from every protected route, `/home` included, so no protected page renders |
| `LoginPage.FindUser` | src/components/LoginPage.jsx:26-28 | no account is found iff none matches both email and password; a found account is the first match |
| `LoginPage.LoginForm.constructor` | src/components/LoginPage.jsx:21-58 | the form starts empty, with no error, not loading |
| `LoginPage.LoginForm.HandleLogin` | src/components/LoginPage.jsx:21-58 | a matching account logs in with its role, keeps the session's loading flag, and navigates by role; otherwise the session is untouched and the error is set |
| `LoginPage.MockAccounts` | src/config.js:16-19 | the two mock accounts are found by their credentials, have accepted roles and land on `/home` and `/registration` |
| `Strings.IncludesIffOccurs` | src/components/DataTable.jsx:398 | `includes` is true iff the term occurs at some position |
| `Strings.ToLower` | src/components/DataTable.jsx:393 | lower-casing keeps the length |
| `Strings.ToLowerChars` | src/components/DataTable.jsx:393 | lower-casing works character by character, lowering each ASCII capital |
| `Strings.ToLowerIdempotent` | src/pages/RegisterNewCheck.jsx:120-126 | lower-casing twice changes nothing |
| `Strings.TrimStartShape` | src/pages/CandidatesPage.jsx:258 | removing leading white space leaves a suffix that does not start with white space, and drops only white space |
| `Strings.TrimEndShape` | src/pages/CandidatesPage.jsx:258 | removing trailing white space leaves a prefix that does not end with white space, and drops only white space |
| `Strings.TrimShape` | src/pages/CandidatesPage.jsx:258 | a trimmed string neither starts nor ends with white space |
| `Strings.TrimKeepsNonWhitespace` | src/pages/CandidatesPage.jsx:258 | trimming removes only white space |
| `Strings.TrimUnpadded` | src/pages/CandidatesPage.jsx:258 | a string that neither starts nor ends with white space is trimmed to itself |
| `Strings.DecimalString` | src/pages/RegisterNewCheck.jsx:197 | an index renders as a non-empty string of decimal digits without a leading zero |
| `Strings.DecimalStringValue` | src/pages/RegisterNewCheck.jsx:197 | reading the digits back gives the index |

`HandleSubmit` promises the following:

* A second submit while one is in flight changes nothing.
* Missing mandatory fields give status 3 with the fixed message and send nothing.
* Otherwise the requests sent are the planned sequence, cut at the first
  refused request, and every earlier request was accepted.
* Status 2 means everything was sent and accepted. The form is then reset and
  the success redirect is returned.
* Otherwise the status is 3, the error message is the failing request's
  message, and the form is kept.
* The in-flight flag always ends false.

## Left out

- Fetching, JSON parsing and HTTP status codes are not modelled as such. Each request's outcome is a parameter: accepted, refused, or thrown with a message. A successful upload whose JSON body fails to parse is a thrown reply.
- Interleavings of `await` with other React updates are not modelled. Each handler runs atomically from the state it started with.
- The creation timestamp (`toISOString`) and the metadata body are not modelled, because they are not observable in the model's state. The request carries no payload.
- The `alert`, the `console` logging and the `setTimeout` delays are not modelled. On login, the delayed callback runs at once. After a submission, the success redirect is returned instead of being scheduled.
- React rendering is not modelled. Styling, icons, `HighlightMatch`, `Sidebar`, `TopCards`, `LandingPage`, `ScrollLocker` and `index.js` are not part of this model. Only the status-dependent decisions of the form and the route table are.
- Route matching is modelled as exact string comparison. React Router's case-insensitive and trailing-slash matching is not modelled.
- `localStorage` is the `storedRole` field of the session.
- `toLowerCase` is modelled on ASCII letters only. Full Unicode case mapping is not modelled.
- `pendingFiles` arrays are modelled as arrays of strings. An array element that is not a string, which would make `replace` throw, is not modelled.
- The home page fetch's own error path is not modelled: it only logs, and the cards keep their previous values.
- Pagination fields are modelled as integers or missing. A non-numeric `totalPages` is not modelled.
- `DataTable.ListView.HandlePageChange` takes an integer page. The previous and next buttons (src/components/DataTable.jsx:502, 527) compute `currentPage ∓ 1`, which is `NaN` when `currentPage` is missing. `NaN` passes every comparison of the guard, so the table fetches page `NaN`. The model cannot express this.
- Metadata fields are modelled as strings or missing. A truthy non-string field makes `field.toLowerCase()` in the search filter (src/components/DataTable.jsx:398) throw. That case is not modelled.
- The form is modelled as three maps: text, single file, multi file. A handler applied to a field of another kind is not represented.
- `DataTable.ListView.ApplyFetch` receives the candidate list already extracted from the response. `CandidatesPage.CandidatesOf` and `CandidatesPage.PageRowsMeaning` state how the candidates page extracts and normalises it from `data.candidates || []`: a truthy non-array makes `map` throw, which is `None`.
- The candidates page's own fetch state (loading flag, error message) is not modelled separately. It follows the same pattern as `DataTable.ListView`.
