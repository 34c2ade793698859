# Skillmatch backend core in Dafny

Skillmatch is a job board with three kinds of account: job seekers, recruiters and administrators. Its backend is an Express application over a Prisma database. This project models the backend's request middleware and its four controllers, and proves properties of that model:

- **Request gates.** The bearer-token gate `protect`, the role guards and `restrictTo`.
- **Input hygiene.** The tag stripper of `xssProtection`, the Content-Length limit and the API-key check.
- **Validation.** A small interpreter for the zod schemas behind `validate`, including the issue-list formatting.
- **Credential store.** `register`, `login` and `getCurrentUser`.
- **Job seekers.** Profile upsert, job search filter and pagination, the one-application-per-job rule, the application list and job preferences.
- **Recruiters.** Dashboard metrics, company and job updates that replace child lists wholesale, the 404 rules, job deletion and candidate status changes.
- **Administrators.** The user list, role-dependent user details, user status updates, the analytics time range, the raw-SQL content tables and the settings upsert loop.

## How it is modelled

- **The database** is one `Store.Db` object. Each table is a `map` field keyed by primary key, or by owning user for profiles and preferences.
- **Handlers that write** are methods with field-granular `modifies` clauses, specified by the whole new state of the tables they touch. Handlers that only read are functions.
- **Loops.** The two loops of the source are methods with loop invariants, proved against a pure specification:
  - the key-by-key rewrite in `xssProtection`;
  - the per-setting upsert in `updateSettings`.
- **Responses** are `Common.Response`: either `Respond(status, body)` or `Forward(error)`.
  - `AppError(message, status)` is the application's error class.
  - `Thrown(name)` is any other exception passed to `next`: a `TypeError`, Prisma's record-not-found error, or its client-side validation error.
- **External libraries become parameters:**
  - JSON Web Token `sign`/`verify` → the `Tokens.TokenService` value;
  - bcrypt `hash`/`compare` → `AuthController.Crypto`;
  - the salt and the current time → plain arguments;
  - e-mail and URL checks → `Validation.Checks` and `isEmail`;
  - case-insensitive `contains` → `Jobseeker.SearchEnv`.
- **JSON values** are `Json.Value`. Numbers are integers.
- **String lengths** are counted as each library counts them. zod's `min(n)` compares JavaScript's `length`, the number of UTF-16 code units (`Strings.Utf16Length`). validator.js's `isLength` counts characters other than the variation selectors U+FE0E and U+FE0F (`Strings.ValidatorLength`).
- **`Number(s)`** is modelled only for digit strings: those give `Finite(n)` and anything else gives `NaN`.

## Model

| member | source | states |
|---|---|---|
| RoleGuards.RoleGuard | backend/src/middleware/role.middleware.ts:8-21 | no user fails 401 "You are not authenticated"; a user whose role is not allowed fails 403; it continues exactly when the user exists and its role is allowed |
| RoleGuards.AdminGuard | backend/src/middleware/role.middleware.ts:25 | admits exactly users whose role is ADMIN; on failure the error is 401 without a user, 403 otherwise |
| RoleGuards.RecruiterGuard | backend/src/middleware/role.middleware.ts:26 | admits exactly users whose role is RECRUITER, with the same errors |
| RoleGuards.JobseekerGuard | backend/src/middleware/role.middleware.ts:27 | admits exactly users whose role is JOBSEEKER, with the same errors |
| RoleGuards.GuardMonotone | backend/src/middleware/role.middleware.ts:14 | allowing more roles never turns away a request that was admitted |
| RoleGuards.MissingUserPrecedes | backend/src/middleware/role.middleware.ts:10-18 | without a user every guard fails 401, whatever its allowed list |
| RoleGuards.GroupGuardsDisjoint | backend/src/middleware/role.middleware.ts:25-27 | no user passes two of the three route-group guards |
| AuthGate.ExtractToken | backend/src/middleware/auth.middleware.ts:9-12 | a token exists only for a header starting with `Bearer`; it contains no space; a `Bearer` header containing a space always yields one |
| AuthGate.BearerHeaderYieldsToken | backend/src/middleware/auth.middleware.ts:10-12 | `Bearer <t>` yields exactly `t` when `t` has no space |
| AuthGate.NoSpaceNoToken | backend/src/middleware/auth.middleware.ts:11 | a header without a space yields no token |
| AuthGate.DoubleSpaceEmptyToken | backend/src/middleware/auth.middleware.ts:11 | `Bearer` followed by two spaces yields the empty token |
| AuthGate.MalformedHeaders | backend/src/middleware/auth.middleware.ts:10-12 | `Bearer` yields no token, `Bearer<t>` yields no token, and `Bearer  <t>` (two spaces) yields the empty token |
| AuthGate.Authenticate | backend/src/middleware/auth.middleware.ts:6-39 | a missing or empty token fails 401 "You are not logged in"; a rejected token forwards the library's error; a decoded id missing from the users fails 401 "The user no longer exists"; otherwise it resolves to the stored record for that id |
| AuthGate.Protect | backend/src/middleware/auth.middleware.ts:6-39 | on success `req.user` becomes the stored record and the request continues; on failure the error is passed on and `req.user` is untouched |
| AuthGate.IssuedTokenAuthenticates | backend/src/middleware/auth.middleware.ts:19-34 | a token issued for a stored user, verified with its own key, attaches that user's current record |
| AuthGate.ClaimedRoleIgnored | backend/src/middleware/auth.middleware.ts:22-34 | two tokens whose claims name the same id resolve alike, whatever role they claim |
| AuthGate.InactiveUserStillAuthenticates | backend/src/middleware/auth.middleware.ts:22-35 | a user whose status is not ACTIVE still passes the gate |
| AuthGate.RestrictTo | backend/src/middleware/auth.middleware.ts:41-47 | fails 403 "You do not have permission to perform this action" exactly when the user's role is not listed; a missing user is a TypeError |
| Tokens.SigningKey | backend/src/controllers/auth.controller.ts:76 | an unset or empty `JWT_SECRET` signs with `secret_key`; a set one signs with itself |
| Tokens.KeysAgreeIffSecretSet | backend/src/middleware/auth.middleware.ts:19 | the verifying key equals the signing key exactly when the secret is set and non-empty |
| Tokens.Lifetime | backend/src/controllers/auth.controller.ts:77 | an unset or empty `JWT_EXPIRES_IN` gives `1d`; otherwise the variable's value |
| Tokens.Payload | backend/src/controllers/auth.controller.ts:75 | the payload holds the user's id and role, the role under `role_id` |
| Tokens.IssueToken | backend/src/controllers/auth.controller.ts:74-78 | the token is the signature of the id-and-role payload with the signing key and lifetime, so it depends on the user only through its id and role |
| Store.Public | backend/src/controllers/auth.controller.ts:81 | the response user carries every field of the row except the password hash |
| Store.PublicIgnoresHash | backend/src/controllers/auth.controller.ts:149 | the response user does not depend on the stored hash |
| Store.Merge | backend/src/controllers/recruiter.controller.ts:94-104 | a listed column the body carries takes the body's value; every other existing column keeps its value; no other key appears |
| Store.MergeIdempotent | backend/src/controllers/jobseeker.controller.ts:367-408 | applying the same update twice leaves what the first application left |
| Store.ByEmail | backend/src/controllers/auth.controller.ts:37-39 | with unique emails, the lookup finds the one user with that email, exactly when there is one |
| Store.Db.constructor | backend/src/controllers/auth.controller.ts:50-65 | an empty database satisfying the table invariant |
| Store.Request.constructor | backend/src/middleware/auth.middleware.ts:6-39 | a request with the given header, body and query and no user attached |
| AuthController.RegistrationErrors | backend/src/controllers/auth.controller.ts:9-18 | no errors exactly when the email is valid, the password has at least 8 characters as `isLength` counts them, the role is ADMIN, RECRUITER or JOBSEEKER, and each name is absent or a string; each message, "Invalid value" for a name included, is present exactly when its rule fails |
| AuthController.RegisteredNames | backend/src/controllers/auth.controller.ts:15-16 | after validation, a name is stored exactly when the body carries one, and then it is that string |
| AuthController.LoginErrors | backend/src/controllers/auth.controller.ts:21-24 | no errors exactly when the email is valid and the password is non-empty |
| AuthController.NewUser | backend/src/controllers/auth.controller.ts:50-65 | the created user has the given id, the email, role and hash given, the default status and no last login; a profile name is present exactly when the body carries a string for it |
| AuthController.Register | backend/src/controllers/auth.controller.ts:26-93 | rule failures answer 400 with the list; a taken email fails 400 "Email already in use"; in both cases nothing changes; otherwise exactly one new user with the hash, role and the names the body carries, answered 201 with a token and the user without its hash |
| AuthController.Login | backend/src/controllers/auth.controller.ts:95-161 | an unknown email and a wrong password give the same 401; the password is checked before the status (403 "Account is not active"); failures change nothing; success changes only that user's `lastLogin` |
| AuthController.GetCurrentUser | backend/src/controllers/auth.controller.ts:163-188 | 404 "User not found" exactly for a missing id; otherwise the user without its hash |
| AuthController.RegisterThenLogin | backend/src/controllers/auth.controller.ts:26-161 | registering and then logging in with the same credentials returns the new user and a token whose payload names its id and role |
| Security.StripTags | backend/src/middleware/security.middleware.ts:33 | the result is never longer than the input |
| Security.StripLeavesTagFree | backend/src/middleware/security.middleware.ts:33 | after stripping, no `<` has a `>` anywhere after it |
| Security.TagFreeUnchanged | backend/src/middleware/security.middleware.ts:33 | a string with nothing to match is unchanged |
| Security.NoCloseUnchanged | backend/src/middleware/security.middleware.ts:33 | a string without `>` is unchanged |
| Security.NoOpenUnchanged | backend/src/middleware/security.middleware.ts:42 | a string without `<` is unchanged |
| Security.StripIdempotent | backend/src/middleware/security.middleware.ts:33 | stripping twice equals stripping once |
| Security.StripOneTag | backend/src/middleware/security.middleware.ts:33 | a whole tag after tag-free text is removed, and the rest is stripped on its own (matches do not overlap) |
| Security.SanitizeFields | backend/src/middleware/security.middleware.ts:31-35 | the same keys; non-string values unchanged; each string replaced by its stripped form |
| Security.SanitizeValue | backend/src/middleware/security.middleware.ts:31-44 | a non-string is unchanged; a string is replaced by its stripped form, which is no longer and holds no tag |
| Security.SanitizeIdempotent | backend/src/middleware/security.middleware.ts:31-44 | sanitising twice equals sanitising once |
| Security.XssProtection | backend/src/middleware/security.middleware.ts:28-48 | body and query, when present, become their sanitised forms, and the request continues |
| Security.RequestSizeLimit | backend/src/middleware/security.middleware.ts:51-60 | fails 413 "Request entity too large" exactly when the length parses to more than 10·1024·1024 |
| Security.SizeLimitBoundary | backend/src/middleware/security.middleware.ts:53-55 | a decimal length continues exactly when it is at most 10485760 |
| Security.ValidateApiKey | backend/src/middleware/security.middleware.ts:63-71 | continues exactly when the key is present, non-empty and equal to the configured one; with no key configured every request fails 401 "Invalid API key" |
| Strings.Split | backend/src/middleware/auth.middleware.ts:11 | at least one part, and no part contains the separator |
| Strings.JoinSplit | backend/src/controllers/jobseeker.controller.ts:163 | joining the parts of a split gives back the string |
| Strings.SplitJoin | backend/src/controllers/jobseeker.controller.ts:163 | splitting a join of separator-free parts gives back the parts |
| Strings.ParseIntPrefix | backend/src/middleware/security.middleware.ts:55 | no number exactly when the string is empty or does not start with a digit |
| Strings.ParseIntOfDecimal | backend/src/middleware/security.middleware.ts:55 | `parseInt` of the decimal form of `n` is `n` |
| Strings.NumberOf | backend/src/controllers/jobseeker.controller.ts:154 | a finite number exactly for a digit string, and then its decimal value |
| Strings.Utf16Length | backend/src/middleware/validation.middleware.ts:49-50 | JavaScript's `length` lies between the number of characters and twice that |
| Strings.BmpUtf16Length | backend/src/middleware/validation.middleware.ts:49-50 | on text without astral characters, `length` is the number of characters |
| Strings.EmojiUtf16Length | backend/src/middleware/validation.middleware.ts:49 | an emoji followed by one letter has length 3 |
| Strings.ValidatorLength | backend/src/controllers/auth.controller.ts:11-12 | `isLength` counts at most the characters of the string |
| Strings.PlainValidatorLength | backend/src/controllers/auth.controller.ts:11-12 | without variation selectors, `isLength` counts every character |
| Json.Get | backend/src/controllers/recruiter.controller.ts:80-92 | a destructured property is present exactly when the key is, and then it is the key's value |
| Validation.IssuesEmptyIffAccepts | backend/src/middleware/validation.middleware.ts:9-13 | a schema reports no issues exactly when it accepts the value |
| Validation.Issues | backend/src/middleware/validation.middleware.ts:9-21 | every reported issue lies at or below the path of the value it was found in |
| Validation.Accepts | backend/src/middleware/validation.middleware.ts:9-13 | a missing value is accepted exactly by an optional schema |
| Validation.FormatMessage | backend/src/middleware/validation.middleware.ts:17-20 | the message is empty exactly for a check with no stated message |
| Validation.UpdateCompanySchema | backend/src/middleware/validation.middleware.ts:87-100 | a `body` object of ten fields, none optional, with values, benefits and locations string arrays |
| Validation.ItemsEmptyIffAccepted | backend/src/middleware/validation.middleware.ts:51-52 | an array's items report no issues exactly when every item is accepted |
| Validation.FieldsEmptyIffAccepted | backend/src/middleware/validation.middleware.ts:31-36 | an object's fields report no issues exactly when every field is accepted |
| Validation.SegmentTexts | backend/src/middleware/validation.middleware.ts:18 | one text per path segment, in order |
| Validation.PathTextSplits | backend/src/middleware/validation.middleware.ts:18 | for dot-free keys, splitting a formatted path on `.` gives back its segments |
| Validation.Entries | backend/src/middleware/validation.middleware.ts:17-20 | one `{path, message}` per issue, in issue order, with the path joined by `.` |
| Validation.Validate | backend/src/middleware/validation.middleware.ts:6-26 | continues exactly when the schema accepts `{body, query, params}`; otherwise the issue list is non-empty and the one 400 error carries its entries as a JSON list |
| Validation.BodyOnlyAccepts | backend/src/middleware/validation.middleware.ts:31-36 | a schema of one `body` object accepts a request exactly when its body object does |
| Validation.WithIdParamAccepts | backend/src/middleware/validation.middleware.ts:64-68 | with a string `id` parameter, a `params`-and-`body` schema accepts exactly when its body object does |
| Validation.Optionalize | backend/src/middleware/validation.middleware.ts:68-83 | each field keeps its name and becomes optional |
| Validation.StringsMeaning | backend/src/middleware/validation.middleware.ts:51 | `z.array(z.string())` accepts exactly the arrays of strings |
| Validation.SalaryMeaning | backend/src/middleware/validation.middleware.ts:53-56 | the salary object is accepted exactly when min and max are both non-negative numbers |
| Validation.CreateJobMeaning | backend/src/middleware/validation.middleware.ts:47-62 | the body is accepted exactly when title has JavaScript length ≥ 3 and description ≥ 10, the lists are lists of strings, the salary bounds are non-negative, and jobType, experienceLevel and locationType are among their literals |
| Validation.JobFieldMeaning | backend/src/middleware/validation.middleware.ts:49-60 | each createJob field's schema accepts exactly what its predicate describes, string lengths in UTF-16 code units |
| Validation.EmojiTitleLongEnough | backend/src/middleware/validation.middleware.ts:49 | a title of one emoji and one letter meets `min(3)` |
| Validation.SalaryBoundsUnrelated | backend/src/middleware/validation.middleware.ts:53-56 | any two non-negative bounds are accepted, min > max included |
| Validation.OptionalizedMeaning | backend/src/middleware/validation.middleware.ts:69-82 | an all-optional object accepts exactly when every present field satisfies its original schema |
| Validation.UpdateJobMeaning | backend/src/middleware/validation.middleware.ts:64-84 | updateJob accepts exactly when each present field satisfies its createJob constraint, lengths in UTF-16 code units; the empty body is accepted |
| Validation.ApplicationStatusMeaning | backend/src/middleware/validation.middleware.ts:110-117 | the status is accepted exactly when it is PENDING, SHORTLISTED, REJECTED or HIRED |
| Validation.FoundingYearRange | backend/src/middleware/validation.middleware.ts:92 | foundingYear is accepted exactly in [1900, current year] |
| Validation.RegisterRolesDisagree | backend/src/middleware/validation.middleware.ts:42 | no role passes both the zod register schema (lowercase) and the express-validator rule (uppercase) |
| Validation.LoginPasswordLength | backend/src/middleware/validation.middleware.ts:31-36 | with a valid email, login is accepted exactly when the password's JavaScript length is at least 8 |
| Validation.TwoFieldsAccept | backend/src/middleware/validation.middleware.ts:31-36 | an object of two fields is accepted exactly when both fields accept their properties |
| Pagination.OrDefault | backend/src/controllers/jobseeker.controller.ts:129-130 | an omitted page or limit takes its default |
| Pagination.WindowOf | backend/src/controllers/jobseeker.controller.ts:178-179 | take is the limit (default 10); skip is (page − 1)·take (page defaults to 1) |
| Pagination.DefaultWindow | backend/src/controllers/admin.controller.ts:9 | with neither page nor limit, skip 0 and take 10 |
| Pagination.WindowsAdjacent | backend/src/controllers/admin.controller.ts:37-38 | page p + 1 starts where page p ends, and page 1 starts at row 0 |
| Pagination.NegativeSkip | backend/src/controllers/jobseeker.controller.ts:178 | skip is negative exactly for page 0 with a positive limit |
| Pagination.Pages | backend/src/controllers/jobseeker.controller.ts:195 | not a number exactly for limit 0; otherwise pages·limit ≥ total, (pages − 1)·limit < total when total > 0, and 0 pages exactly for 0 rows |
| Pagination.PageInfoOf | backend/src/controllers/jobseeker.controller.ts:191-196 | total, page, limit with their defaults, and pages = ceil(total / limit) |
| Pagination.Fetch | backend/src/controllers/jobseeker.controller.ts:167-183 | a negative skip is refused; otherwise up to take rows, starting at row skip |
| Pagination.PageSlice | backend/src/controllers/jobseeker.controller.ts:178-179 | page k is the slice of rows between the ends of pages k − 1 and k |
| Pagination.FirstPagesPrefix | backend/src/controllers/jobseeker.controller.ts:178-179 | pages 1 to k together are the first k·limit rows |
| Pagination.AllPagesCoverRows | backend/src/controllers/jobseeker.controller.ts:178-196 | reading pages 1 to `pages` returns every matching row once, in order |
| Pagination.Where | backend/src/controllers/jobseeker.controller.ts:167-168 | every kept row satisfies the filter and comes from the table, and every row satisfying it is kept |
| Pagination.WhereAppend | backend/src/controllers/jobseeker.controller.ts:167-168 | filtering a concatenation filters each part, in order |
| Pagination.WhereOne | backend/src/controllers/jobseeker.controller.ts:167-168 | one row is kept exactly when the filter holds; with `WhereAppend` this fixes the kept rows, their order and their number |
| Pagination.WhereMultiset | backend/src/controllers/jobseeker.controller.ts:185 | each row is kept as often as it occurs when the filter holds of it, and never otherwise |
| Pagination.WhereEmpty | backend/src/controllers/jobseeker.controller.ts:185 | a filter that keeps no row returns nothing |
| Pagination.WhereAll | backend/src/controllers/admin.controller.ts:45 | a filter that keeps every row returns them all |
| Pagination.Paginate | backend/src/controllers/jobseeker.controller.ts:167-196 | a validation error exactly for a negative skip; otherwise status 200 and exactly the skip/take window of the kept rows, each kept and drawn from the table, with the pagination of all kept rows |
| Jobseeker.GetProfile | backend/src/controllers/jobseeker.controller.ts:7-31 | 404 "Profile not found" exactly when the caller has no profile; otherwise that profile |
| Jobseeker.GetJobDetails | backend/src/controllers/jobseeker.controller.ts:204-234 | 404 "Job not found" exactly for a missing id; otherwise the job |
| Jobseeker.ListUpdateOf | backend/src/controllers/jobseeker.controller.ts:67-106 | a falsy list is kept, an array replaces, anything else throws (after its rows are deleted) |
| Jobseeker.Upserted | backend/src/controllers/jobseeker.controller.ts:47-67 | an existing profile merges the listed columns and keeps its lists; a new profile has the merged columns and empty lists |
| Jobseeker.ListsApplied | backend/src/controllers/jobseeker.controller.ts:67-106 | the list steps keep the row's owner and columns; a throwing step leaves its list empty and the later lists untouched |
| Jobseeker.ListsAppliedFixed | backend/src/controllers/jobseeker.controller.ts:67-106 | replaying the list steps on their own result changes nothing |
| Jobseeker.UpdateProfile | backend/src/controllers/jobseeker.controller.ts:33-117 | the profile table and response are those of `UpdateProfileResult`: the upsert followed by the three list steps, up to and including a step that throws; the response carries the scalar row; the table invariant is kept |
| Jobseeker.UpdateProfileResult | backend/src/controllers/jobseeker.controller.ts:33-117 | only the caller's profile is added or changed, to the upsert followed by the list steps; the answer is 200 exactly when no list step throws, and then it is the upserted scalar row (owner and merged columns, no child rows); otherwise a TypeError |
| Jobseeker.UpdateProfileUpserts | backend/src/controllers/jobseeker.controller.ts:47-67 | afterwards the caller has a profile, no other profile changes, and its columns are the merge |
| Jobseeker.UpdateProfileLists | backend/src/controllers/jobseeker.controller.ts:67-106 | an omitted list is untouched; a supplied array replaces its list wholesale |
| Jobseeker.ThrownListEmptied | backend/src/controllers/jobseeker.controller.ts:67-106 | a truthy non-array list ends empty and the answer is a TypeError, unless an earlier step threw |
| Jobseeker.UpdateProfileSucceeds | backend/src/controllers/jobseeker.controller.ts:67-117 | the update answers exactly when no supplied list is a non-array truthy value; otherwise a TypeError |
| Jobseeker.UpdateProfileIdempotent | backend/src/controllers/jobseeker.controller.ts:33-117 | repeating the same update leaves the profiles as the first left them |
| Jobseeker.IfSupplied | backend/src/controllers/jobseeker.controller.ts:137-151 | an optional criterion is present exactly when the query value is non-empty, and then it is that value |
| Jobseeker.SearchFilterOf | backend/src/controllers/jobseeker.controller.ts:133-165 | status ACTIVE always; title, location, jobType, experienceLevel and salary present exactly when supplied, with the supplied value; the skills list present exactly when supplied, its comma-free parts joining back to the query value |
| Jobseeker.SalaryFilterOf | backend/src/controllers/jobseeker.controller.ts:153-159 | the lower bound is `Number` of the part before the first `-`; the upper bound exists exactly when there is a second part, and is its `Number` |
| Jobseeker.SalaryMatches | backend/src/controllers/jobseeker.controller.ts:153-159 | a match needs a finite lower bound and a numeric `min` at least that bound; a `NaN` upper bound matches nothing |
| Jobseeker.Selects | backend/src/controllers/jobseeker.controller.ts:133-165 | a selected job has the filter's status and, under a salary criterion, a finite lower bound; with no criteria exactly the status decides |
| Jobseeker.SearchJobs | backend/src/controllers/jobseeker.controller.ts:120-202 | a validation error exactly when a skills list is supplied or page is 0 with a positive limit; otherwise exactly the skip/take window of the table's jobs that are ACTIVE and selected by the filter, with the pagination of all of them |
| Jobseeker.SearchFilterCriteria | backend/src/controllers/jobseeker.controller.ts:133-165 | status ACTIVE is always required; each other criterion is present exactly when supplied |
| Jobseeker.EmptySearchSelectsActive | backend/src/controllers/jobseeker.controller.ts:133-135 | with no criteria, exactly the ACTIVE jobs are selected |
| Jobseeker.SalaryRangeBounds | backend/src/controllers/jobseeker.controller.ts:153-159 | `a-b` gives min ≥ a and max ≤ b |
| Jobseeker.SalaryRangeLowerOnly | backend/src/controllers/jobseeker.controller.ts:153-159 | a range without `-` gives only the lower bound |
| Jobseeker.SkillsListSplit | backend/src/controllers/jobseeker.controller.ts:161-165 | `x,y,…` becomes the ordered list of its comma-free parts |
| Jobseeker.SkillsListJoins | backend/src/controllers/jobseeker.controller.ts:161-165 | joining the skills list with `,` gives back the query value |
| Jobseeker.ApplyForJob | backend/src/controllers/jobseeker.controller.ts:236-280 | a missing job fails 404, an existing (job, seeker) pair fails 400 "You have already applied for this job", both with no change; otherwise exactly one PENDING application is added (201); no pair is ever duplicated |
| Jobseeker.HasApplied | backend/src/controllers/jobseeker.controller.ts:250-255 | no application matches in an empty table; any row with the job and seeker ids makes it true |
| Jobseeker.AppliedAfterInsert | backend/src/controllers/jobseeker.controller.ts:250-269 | after inserting a row at a fresh id, a pair has applied exactly when it had before or the new row is that pair |
| Jobseeker.ApplyTwice | backend/src/controllers/jobseeker.controller.ts:241-269 | applying twice in a row to the same job, the second attempt fails 400 and at most one row is added |
| Jobseeker.ApplicationFilterOf | backend/src/controllers/jobseeker.controller.ts:286-292 | the filter always names the caller, and names a status exactly when one is supplied |
| Jobseeker.GetApplications | backend/src/controllers/jobseeker.controller.ts:282-332 | a validation error exactly for a negative skip; otherwise exactly the skip/take window of the caller's applications with the supplied status, with the pagination of all of them |
| Jobseeker.OthersApplicationsHidden | backend/src/controllers/jobseeker.controller.ts:286-292 | another seeker's application is never listed |
| Jobseeker.UpdateJobPreferences | backend/src/controllers/jobseeker.controller.ts:367-408 | the caller's preferences become the merge of the listed columns, created if absent; other users' preferences are unchanged; the table invariant is kept |
| Recruiter.TotalApplicationsAppend | backend/src/controllers/recruiter.controller.ts:29-32 | the application total of two job lists together is the sum of their totals |
| Recruiter.TotalApplicationsBounds | backend/src/controllers/recruiter.controller.ts:29-32 | each job's count is at most the total; the total is 0 exactly when no job has applications |
| Recruiter.TotalApplications | backend/src/controllers/recruiter.controller.ts:29-32 | no jobs sum to 0; a single job sums to its own application count |
| Recruiter.DashboardMetrics | backend/src/controllers/recruiter.controller.ts:28-35 | totalJobs is the number of jobs; activeJobs is the number of PUBLISHED ones and is at most totalJobs; totalApplications is the sum of the application counts |
| Recruiter.SearchableJobsNotActive | backend/src/controllers/recruiter.controller.ts:33 | when every job has status ACTIVE, the dashboard reports no active jobs |
| Recruiter.ApplicationsTo | backend/src/controllers/recruiter.controller.ts:16-18 | exactly the applications whose job is the given one, unchanged |
| Recruiter.CompanyJobs | backend/src/controllers/recruiter.controller.ts:12-21 | one entry per listed job, in order, each with exactly its applications |
| Recruiter.PublishedJobs | backend/src/controllers/recruiter.controller.ts:33-35 | exactly the ids of the company's jobs with status PUBLISHED |
| Recruiter.PublishedCount | backend/src/controllers/recruiter.controller.ts:33-35 | the PUBLISHED entries are as many as the PUBLISHED listed jobs |
| Recruiter.ApplicationCount | backend/src/controllers/recruiter.controller.ts:29-32 | the summed application counts are the number of applications to listed jobs |
| Recruiter.DashboardCounts | backend/src/controllers/recruiter.controller.ts:12-35 | over the company's jobs, totalJobs counts its jobs, activeJobs its PUBLISHED jobs and totalApplications the applications to its jobs |
| Recruiter.GetDashboard | backend/src/controllers/recruiter.controller.ts:7-51 | 404 "Company not found" exactly when the caller has no company; otherwise the company, its jobs from the store with their applications, and metrics equal to the number of its jobs, of its PUBLISHED jobs and of the applications to them |
| Recruiter.GetCompanyProfile | backend/src/controllers/recruiter.controller.ts:54-76 | 404 "Company not found" exactly for a missing company; otherwise the company |
| Recruiter.ChildRows | backend/src/controllers/recruiter.controller.ts:105-116 | an omitted list creates no rows, an array of objects its items in order, an object one row; anything else, an array with a non-object element included, is refused |
| Recruiter.StringListNotCreatable | backend/src/controllers/recruiter.controller.ts:105-116 | a non-empty list of strings, the shape the `updateCompany` schema prescribes, is refused |
| Recruiter.UpdatedCompany | backend/src/controllers/recruiter.controller.ts:94-123 | the listed columns are merged and values, benefits and locations are replaced by the given rows, all objects; refused exactly when one list is not creatable |
| Recruiter.UpdateCompanyProfile | backend/src/controllers/recruiter.controller.ts:78-132 | a list that is not creatable is a validation error; otherwise a missing company is Prisma's not-found error; otherwise only the caller's company changes, to the updated record; the table invariant is kept |
| Recruiter.OmittedCompanyListsEmptied | backend/src/controllers/recruiter.controller.ts:105-116 | a body without the three lists empties them |
| Recruiter.CompanyListsReplacedWholesale | backend/src/controllers/recruiter.controller.ts:105-116 | the new lists do not depend on the old ones |
| Recruiter.GetJobs | backend/src/controllers/recruiter.controller.ts:135-156 | exactly the caller's jobs |
| Recruiter.SkillRow | backend/src/controllers/recruiter.controller.ts:182-188 | an object maps to `{skillId: id, importanceLevel}`; `null` throws; any other value maps to an empty row |
| Recruiter.RequiredSkillsOf | backend/src/controllers/recruiter.controller.ts:182-188 | the skills map one to one and in order, exactly for an array without `null` |
| Recruiter.MapSkills | backend/src/controllers/recruiter.controller.ts:182-188 | the mapped list has one row per item, in order, unless an item is `null` |
| Recruiter.SkillWithoutIdRefused | backend/src/controllers/recruiter.controller.ts:182-188 | an object skill without `id` maps, but the row cannot be created |
| Recruiter.CreateJob | backend/src/controllers/recruiter.controller.ts:158-206 | unusable skills are a TypeError; a skill without a numeric id is a Prisma validation error; a caller without a company row is a foreign-key error; each with no change; otherwise exactly one new job owned by the caller with the mapped skills, answered 201 |
| Recruiter.GetJobDetails | backend/src/controllers/recruiter.controller.ts:208-246 | 404 "Job not found" exactly for a missing id; otherwise the job with exactly its applications |
| Recruiter.UpdateJob | backend/src/controllers/recruiter.controller.ts:248-299 | unusable skills are a TypeError; a skill without a numeric id is a Prisma validation error; a missing job is Prisma's not-found error; each with no change; otherwise only that job changes, to `UpdatedJob` |
| Recruiter.UpdatedJob | backend/src/controllers/recruiter.controller.ts:263-281 | the id and owner are kept, the listed columns are merged from the body and the required skills become the new list |
| Recruiter.UpdatedJobReplacesSkills | backend/src/controllers/recruiter.controller.ts:275-281 | the required skills become the new list; id, owner and unlisted columns are kept |
| Recruiter.DeleteJob | backend/src/controllers/recruiter.controller.ts:301-314 | only the job with the given id is removed, answered 204; a missing id is Prisma's not-found error |
| Recruiter.GetCandidates | backend/src/controllers/recruiter.controller.ts:317-347 | exactly the applications to the caller's jobs |
| Recruiter.GetCandidateDetails | backend/src/controllers/recruiter.controller.ts:349-379 | 404 "Candidate not found" exactly for a missing id; otherwise the application |
| Recruiter.UpdateCandidateStatus | backend/src/controllers/recruiter.controller.ts:381-404 | a non-string status is a validation error; a missing id is Prisma's not-found error; an omitted status changes nothing; otherwise only that application's status changes; the table invariant is kept |
| Admin.UserFilterOf | backend/src/controllers/admin.controller.ts:11-19 | role and status are filtered on exactly when supplied, with the supplied values |
| Admin.Summary | backend/src/controllers/admin.controller.ts:22-36 | the selected columns of the user; the application count is present exactly when it is requested |
| Admin.ApplicationCount | backend/src/controllers/admin.controller.ts:33 | the count is at most the number of applications and is 0 exactly when the user has none |
| Admin.OwnApplicationsCard | backend/src/controllers/admin.controller.ts:33 | the user's applications are no more than all applications, and none exactly when no application is the user's |
| Admin.Summaries | backend/src/controllers/admin.controller.ts:21-42 | one summary per listed user, in order |
| Admin.GetUsers | backend/src/controllers/admin.controller.ts:7-61 | a validation error exactly for a negative skip; otherwise exactly the summaries of the skip/take window of the matching users, with the count present exactly for role `jobseeker`; the pagination counts all matching users |
| Admin.ApplicationCountsNeverListed | backend/src/controllers/admin.controller.ts:33 | when every role is uppercase, the query that asks for application counts lists nobody |
| Admin.UnfilteredCountsEveryone | backend/src/controllers/admin.controller.ts:45 | without filters the total is the number of users |
| Admin.GetUserDetails | backend/src/controllers/admin.controller.ts:63-115 | 404 "User not found" exactly for a missing id; company and created jobs are included exactly for RECRUITER; applications exactly for JOBSEEKER, each with exactly the user's rows |
| Admin.DetailsIncludesDisjoint | backend/src/controllers/admin.controller.ts:91-97 | no user gets both the recruiter and the job-seeker relations |
| Admin.UpdateUserStatus | backend/src/controllers/admin.controller.ts:117-136 | a non-string status is a validation error; a missing id is Prisma's not-found error; an omitted status changes nothing; otherwise only that user's status changes |
| Admin.AnalyticsOffset | backend/src/controllers/admin.controller.ts:141-161 | `7d` → 7 days, `90d` → 90 days, `1y` → one year, and every other value, the default `30d` included, → 30 days |
| Admin.AnalyticsOffsetsFour | backend/src/controllers/admin.controller.ts:146-161 | the offset is one of four; no range and an empty range both give 30 days |
| Admin.Param | backend/src/controllers/admin.controller.ts:292-295 | an `undefined` parameter binds as NULL |
| Admin.CreateContent | backend/src/controllers/admin.controller.ts:286-306 | one new row with the body's name and description and status ACTIVE, at a fresh id; answered 201 with the row count 1 |
| Admin.ContentUpdate | backend/src/controllers/admin.controller.ts:313-322 | all three columns are written; an omitted one becomes NULL |
| Admin.UpdateContent | backend/src/controllers/admin.controller.ts:308-333 | an existing row is overwritten (count 1); a missing one changes nothing (count 0) |
| Admin.SettingRowOf | backend/src/controllers/admin.controller.ts:529-535 | `null` throws a TypeError; an object with a string key upserts its value; anything else is a failing statement |
| Admin.SettingRows | backend/src/controllers/admin.controller.ts:528 | one statement per element, in order |
| Admin.Iterated | backend/src/controllers/admin.controller.ts:528 | `for…of` walks an array's elements or a string's characters; nothing else is iterable |
| Admin.ApplySettings | backend/src/controllers/admin.controller.ts:528-537 | upserting never removes a key |
| Admin.ApplySettingsStops | backend/src/controllers/admin.controller.ts:528-537 | the upserts succeed exactly when no element fails; a failure is that of the first failing element, and every earlier element has stored its key |
| Admin.UpdateSettings | backend/src/controllers/admin.controller.ts:522-548 | a non-iterable `settings` is a TypeError with no change; otherwise the settings are the in-order upserts up to the first failure; on success the response has one count of 1 per element; the table invariant is kept |
| Admin.StringSettingsFail | backend/src/controllers/admin.controller.ts:528-535 | a non-empty string stores nothing and fails; the empty string succeeds with nothing stored |
| Admin.SettingsLastWins | backend/src/controllers/admin.controller.ts:528-537 | when every element upserts, each listed key ends with its last listed value, unlisted keys are unchanged, and no other key appears |

## Left out

- **Cryptography and library checks.** JWT signing and verification, bcrypt hashing and comparison, and the e-mail and URL checks are parameters. So are the salt and the clock. Token expiry is inside `verify`.
- **Database and I/O plumbing.** Response envelopes, `include`/`select` shapes beyond the modelled relations (the `updateProfile` upsert, which has no `include`, answers with the scalar row only), ordering (tables are given in `createdAt`-descending order) and raw SQL text are not modelled. The Prisma schema is not part of this model: column types are not checked, so, for example, a `salaryRange` filter is read against whatever the column holds. Enum columns are strings, so an out-of-enum string is stored rather than refused.
- **Prisma error order.** Argument checks come before the record lookup.
- **Numbers.** JavaScript numbers are integers:
  - `Number` of a non-digit string is `NaN`;
  - a `NaN` salary bound is taken to match no job (`Jobseeker.SalaryMatches`), as a comparison with `NaN` is false; what Prisma sends to the database for a `NaN` filter value is not part of this model;
  - `page` and `limit` arrive already converted;
  - a non-numeric `:id` is not modelled;
  - float division in `Math.ceil` is `Pages`, with `None` for a limit of 0.
- **Query strings** are single strings; repeated query keys (arrays) are not modelled.
- **Unreachable branch.** The non-zod branch of `validate`, which forwards other exceptions, is not modelled: a `parse` of the modelled schemas throws only zod errors.
- **Analytics aggregations.** The counts, `groupBy` and `$transaction` calls of `getSystemAnalytics` and of the recruiter `getAnalytics` are left out, and so is the calendar arithmetic of `setDate`/`setFullYear`. Only the range selection is modelled.
- **Plain reads.** `getJobAlerts` (jobseeker.controller.ts:335-365) and `getCategories`, `getIndustries`, `getLocations` and `getSettings` are single reads returning a table. They are left out.
- **Wiring and process handling.** Rate limiting, CORS and helmet configuration, the route files, `app.ts` and `server.ts` configure libraries and wire routes. None of them holds decision logic; the "Route wiring" note below says where the route files disagree with the controllers.
- **Concurrency.** The check-then-insert races in `register` and `applyForJob` are not modelled. Every handler runs alone.
- **Foreign keys.** Deleting a job with applications would be refused by the database. `DeleteJob` does not model the constraint. `CreateJob` models the job's company key: a caller without a company row gets the foreign-key error.
- CreateJob: a skill row's `skillId` is not checked against a skills table, which is not part of this model. A numeric id naming no skill is stored rather than refused. The same holds for `UpdateJob`.
- RegistrationErrors: email, password and role are typed as strings, as the client sends them. A non-string value there, which express-validator converts to a string before it checks it, is not modelled.
- Register: with the string-typed password, the `bcrypt.hash` that throws on a non-string password is not modelled.
- Login: the login body is typed as strings. A non-string password that passes `notEmpty` and makes `bcrypt.compare` throw, with the exception passed to `next`, is not modelled.
- XssProtection: a request body is an object or absent. A top-level JSON array, which `express.json()` accepts and whose string elements `xssProtection` would strip, is not modelled.
- RequestSizeLimit: `parseInt`'s leading whitespace, sign and `0x` prefix are not modelled. Node's HTTP parser delivers only digit `Content-Length` values.
- Admin.SettingRowOf: a numeric or other non-string key is modelled as a failing statement. Whether PostgreSQL would coerce it depends on the table definition, which is not part of this model.
- Admin.UpdateContent: the affected-row count stands for the `$executeRaw` result. Whether `RETURNING` is accepted with `$executeRaw` depends on the driver.

## Code and design notes

These are places where the code differs from what its surroundings suggest. The model follows the code.

- **Suspended users.** A user whose status is not ACTIVE can no longer log in, but a token issued earlier still passes `protect`, which checks only that the user exists (`AuthGate.InactiveUserStillAuthenticates`).
- **Signing key.** Tokens are signed with the fallback `secret_key` when `JWT_SECRET` is unset, but verified with the unset variable (`Tokens.KeysAgreeIffSecretSet`).
- **Role spelling.** The zod `register` schema lists lowercase roles, while the express-validator rules and the stored roles are uppercase. No role passes both (`Validation.RegisterRolesDisagree`). For the same reason, the admin user list shows application counts only for the lowercase query `jobseeker`, which matches no stored user (`Admin.ApplicationCountsNeverListed`).
- **PUBLISHED vs ACTIVE.** The recruiter dashboard counts jobs with status PUBLISHED as active, while the job search lists only ACTIVE jobs (`Recruiter.SearchableJobsNotActive`).
- **Job id from the body.** `applyForJob` takes the job id from the body, not from the route.
- **Password hash exposed.** The admin user details return the full user row, password hash included.
- **No ownership checks.** `updateJob` and `deleteJob` do not check that the job belongs to the caller.
- **Child lists emptied.** `updateCompanyProfile` empties a list that the body omits (`Recruiter.OmittedCompanyListsEmptied`).
- **Company lists cannot be saved.** The `updateCompany` schema prescribes string arrays for values, benefits and locations, but a nested `create` needs objects, so such a body fails with a Prisma validation error (`Recruiter.StringListNotCreatable`). The schema is not attached to the company route.
- **Skills search refused.** `requiredSkills` is a relation and `hasSome` filters scalar lists only, so a search that supplies `skills` is refused by Prisma (`Jobseeker.SearchJobs`).
- **Lists emptied on a throw.** In `updateProfile` a truthy list that is not an array has its old rows deleted before `map` throws, so the answer is an error and the list is gone (`Jobseeker.ThrownListEmptied`).
- **Two application tables.** Job seekers write and list `prisma.application` (jobseeker.controller.ts:250-315), while recruiters read and update `prisma.jobApplication` (recruiter.controller.ts:319-385). The model keeps them as two tables. An application made through `applyForJob` is therefore never among a recruiter's candidates.
- **Salary range column.** `createJob` stores `salaryRange` as a plain object (recruiter.controller.ts:178), which Prisma accepts only for a JSON column. `searchJobs` filters it with `{min: {gte}}` (jobseeker.controller.ts:155-158), a filter on a related record. No single PostgreSQL schema accepts both. The model reads the filter against the stored object.
- **Route wiring.** The route files import `jobseekerGuard`, `recruiterGuard` and `adminGuard` from `auth.middleware`, which exports only `protect` and `restrictTo`; the guards are defined in `role.middleware`. Some routes name handlers the controllers do not define, such as the admin `getDashboard`, `deleteUser`, `getAnalytics` and `getSystemLogs` and the job-seeker `getDashboard` and saved-job handlers. Other handlers are not routed: `searchJobs`, `getJobDetails`, `getJobAlerts` and `updateJobPreferences` of the job seeker, and `getSystemAnalytics` (the route names `getAnalytics`, admin.routes.ts:30) and the location and settings handlers of the administrator.
