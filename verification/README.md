# Hire_hub job board: a Dafny model of its request handlers

Hire_hub is a job board. Job seekers sign in through an identity provider, keep a profile with a resume, browse
visible job postings and apply; recruiters register with a hashed password and an optional logo, log in for a
signed token, and post jobs. The server is an Express application over four MongoDB collections (users,
recruiters, jobs, job applications) and an S3 bucket.

This project models the decision rules under that glue as pure transitions. Each handler takes a request and an
in-memory store and returns a reply together with the new store:

| module | models |
|---|---|
| `Models` (models.dfy) | the Job, JobApplication and Recruiter schemas: fields, defaults, `required` paths, the status enum; the User record |
| `Store` (store.dfy) | the four collections, `findById`/`findOne`, `create` with validation and unique indexes, the store invariant `Valid` |
| `Uploads` (uploads.dfy) | the two multer uploaders of `server.js`: MIME filters, the 5 MiB cap, temp file names, object keys and S3 URLs |
| `JobController` | `getAllJobs`, `getJob`, `createJob` |
| `UserController` | `getUserProfile`, `updateUserProfile`, `uploadResume`, `applyForJob`, `getUserApplications` |
| `RecruiterController` | `registerRecruiter`, `loginRecruiter`, with hashing, comparison and signing as opaque functions |
| `Routes` (routes.dfy) | upload middleware in front of its handler; the server as a state machine over request sequences |
| `ApplyPage` (apply_page.dfy) | the apply page's derived state: shown job, `hasApplied`, button state, apply guards and body, related jobs |
| `Seqs`, `Decimal`, `Wrappers` | `Array.filter`, a stable newest-first sort, decimal rendering of `Date.now()`, `Option` |

Conventions:
- A request string field is a Dafny `string`. The empty string stands for a missing or empty field. This matches
  JavaScript truthiness (`name && email && image`, `if (resume)`) and Mongoose's `required` check on String paths.
- `Date.now()`, the ObjectId the driver generates, the bcrypt salt and the outcome of the S3 upload are
  parameters. A generated id that is already taken gives a 500, as the `_id` unique index would.
- Every 4xx reply carries the source's exact message. A 500 carries a `Fault` naming its cause: failed validation,
  a duplicate key, a failed upload, or a file the upload middleware refused. Express's default error handler
  answers a refused file with 500.
- Handlers run one at a time and each is atomic.

The central property is `Routes.AtMostOneApplicationPerPair`. Start from an empty store and handle any sequence of
requests, with any clocks, ids and upload outcomes. The result never holds two applications for the same
(user, job) pair. The same holds for recruiter emails, and `Step` preserves the whole invariant `Store.Valid`.

In these places the model follows the code rather than the obvious reading:
- `salary` has no lower bound in the schema, so a negative salary is accepted.
- `getJob` does not check visibility (`JobController.InvisibleJobStillFetchable`).
- `uploadResume` may create the user as `getUserProfile` does. The user stays created when the S3 upload then fails.

## Model

| member | source | states |
|---|---|---|
| `Models.NewJob` | server/models/Job.js:3-18 | a new job copies the supplied fields; `date` defaults to the creation time and `visible` to true when not supplied |
| `Models.ParseStatus` | server/models/JobApplication.js:11 | a status string is accepted exactly when it is "Pending", "Accepted" or "Rejected", and then names that status |
| `Models.StatusRoundTrip` | server/models/JobApplication.js:11 | every status value is accepted by the enum validator under its own name |
| `Models.NewApplication` | server/models/JobApplication.js:3-12 | a new application copies the six supplied fields; `appliedDate` defaults to the creation time and `status` to Pending |
| `Models.NewRecruiter` | server/models/Recruiter.js:3-9 | a new recruiter keeps name, email, password and image; `createdAt` defaults to the creation time |
| `Seqs.FindFirst` | server/controllers/recruiterController.js:29 | `findOne` finds nothing exactly when no element matches the query, otherwise a stored element that matches |
| `Seqs.FindFirstIsEarliest` | server/controllers/recruiterController.js:29 | the element found is the earliest stored one that matches |
| `Seqs.FindFirstAppended` | server/controllers/recruiterController.js:115 | after appending a match to a collection with none, `findOne` finds the appended element |
| `Store.FindJob` | server/controllers/jobController.js:17 | lookup by id finds nothing exactly when no job has that id, otherwise a stored job with that id |
| `Store.FindApplication` | server/controllers/userController.js:191 | finds nothing exactly when no application has that (userId, jobId) pair, otherwise one with that pair |
| `Store.FindRecruiterByEmail` | server/controllers/recruiterController.js:29 | finds nothing exactly when no recruiter has that email, otherwise a stored recruiter with that email |
| `Store.FoundRecruiterIsEarliest` | server/controllers/recruiterController.js:29 | the recruiter found is the earliest stored one with that email |
| `Store.InsertJob` | server/models/Job.js:4-15 | `Job.create` succeeds exactly when every required string, including the four company fields, is present and the id is new; then one job is appended, otherwise nothing changes; the invariant is kept |
| `Store.InsertApplication` | server/models/JobApplication.js:4-9 | `JobApplication.create` succeeds exactly when the six required fields are present and the id is new; then one application is appended, otherwise nothing changes |
| `Store.InsertRecruiter` | server/models/Recruiter.js:4-7 | `Recruiter.create` succeeds exactly when name, email and password are present, the id is new and the email unused; then one recruiter is appended; email uniqueness is kept |
| `Uploads.AdmitResume` | server/server.js:40-50 | a resume is admitted exactly when its MIME type is `application/pdf` and its size is at most 5·1024·1024 bytes; the type is checked first, with the source's messages |
| `Uploads.AdmitImage` | server/server.js:52-62 | a logo is admitted exactly when its MIME type starts with `image/` and its size is at most 5·1024·1024 bytes |
| `Uploads.OversizedFilesRefused` | server/server.js:42-54 | both uploaders refuse any file over the cap |
| `Uploads.FiltersDisjoint` | server/server.js:43-60 | no file is admitted by both the resume and the logo uploader |
| `Uploads.UnstampStamped` | server/server.js:36 | from `{millis}-{name}` both the timestamp and the original name can be read back, even when the name contains dashes |
| `Uploads.TempFileName` | server/server.js:35-37 | the temporary file name is `{timestamp}-{originalname}`: it starts with the timestamp's plain decimal form, and splitting it gives back exactly that timestamp and name |
| `Uploads.ObjectUrl` | server/controllers/userController.js:153 | the URL is the bucket's `https://{bucket}.s3.{region}.amazonaws.com/` prefix followed by exactly the object key |
| `Uploads.ObjectUrlInjective` | server/controllers/userController.js:153 | within one bucket, distinct keys give distinct URLs |
| `Uploads.ResumeKey` | server/controllers/userController.js:129 | a resume key is `resumes/{userId}-` followed by the upload time's plain decimal form, and splitting the tail gives back that time and the original name |
| `Uploads.LogoKey` | server/controllers/recruiterController.js:41 | a logo key is `recruiter-logos/` followed by the upload time's plain decimal form, and splitting the tail gives back that time and the original name |
| `Decimal.Render` | server/controllers/userController.js:129 | `Date.now()` is printed as a non-empty string of digits without a leading zero |
| `Decimal.ParseRender` | server/controllers/userController.js:129 | reading the printed timestamp back gives the same number |
| `Decimal.RenderInjective` | server/controllers/userController.js:129 | distinct timestamps print differently |
| `Seqs.Filter` | server/controllers/userController.js:221 | `filter` keeps exactly the elements satisfying the predicate, and no more copies than the input has |
| `Seqs.FilterMultiplicity` | server/controllers/userController.js:221 | every element satisfying the predicate keeps all its copies; every other element has none |
| `Seqs.FilterKeepsOrder` | server/controllers/userController.js:221 | the result is a subsequence of the input: kept elements appear in their original order |
| `Seqs.FilterCountPermutation` | server/controllers/userController.js:219-224 | a filter count is the same for any reordering of the list |
| `Seqs.SortDesc` | server/controllers/jobController.js:6 | `sort({field: -1})` returns a reordering of its input with the key never increasing |
| `JobController.GetAllJobs` | server/controllers/jobController.js:4-7 | the listing holds exactly the visible jobs, each as often as stored, newest `date` first; nothing is written |
| `JobController.GetJob` | server/controllers/jobController.js:14-23 | the reply is a stored job with the requested id when one exists, otherwise 404 "Job not found"; nothing is written |
| `JobController.InvisibleJobStillFetchable` | server/controllers/jobController.js:17-23 | an invisible job is missing from the listing but is returned by lookup by id |
| `JobController.CreateJob` | server/controllers/jobController.js:30-44 | success adds exactly one job with the supplied fields, dated now and visible, and leaves the other jobs as they were; a failure writes nothing |
| `JobController.CreatedJobIsListed` | server/controllers/jobController.js:34-42 | a job just created appears in the listing |
| `UserController.ResolveUser` | server/controllers/userController.js:105-126 | an existing user is returned unchanged; a missing one is created with an empty resume exactly when name, email and image are all present |
| `UserController.GetUserProfile` | server/controllers/userController.js:26-57 | an existing user is returned and nothing is created; a missing user with full identity data is created once with `_id = userId` and an empty resume; otherwise 404 and no change |
| `UserController.UpdateUserProfile` | server/controllers/userController.js:65-80 | sets `name` always and `resume` only when one is given; id, email, image and phone stay; a missing user gives 404 and no change |
| `UserController.UploadResume` | server/controllers/userController.js:99-164 | no file gives 400 before any lookup; no user and too little data gives 404 with no write; a failed upload gives a 500 and leaves any newly created user in place; otherwise `resume` becomes the S3 URL of `resumes/{userId}-{ts}-{originalname}`, replacing any earlier value |
| `UserController.ApplyForJob` | server/controllers/userController.js:180-207 | refuses with 400 when the user has no resume (checked first) or already applied for that job, writing nothing; otherwise `JobApplication.create` runs: it appends exactly one Pending application with the given fields when the six fields are present and the id is new, and a failure is a 500 with no write; pair uniqueness is kept |
| `UserController.ApplyTwiceFails` | server/controllers/userController.js:190-194 | after a successful application, the same request again is refused with "You have already applied for this job" and writes nothing |
| `UserController.StatsOf` | server/controllers/userController.js:219-224 | `total` is the list length; pending, accepted and rejected are the number of applications with that status, and add up to the total |
| `UserController.FilterCountsStatus` | server/controllers/userController.js:221-223 | filtering by a status test counts exactly the applications carrying that status |
| `UserController.StatusCountsPartition` | server/controllers/userController.js:221-223 | every application falls in exactly one of the three status counts |
| `UserController.StatsOfPermutation` | server/controllers/userController.js:216-224 | the statistics do not depend on the order of the list |
| `UserController.GetUserApplications` | server/controllers/userController.js:212-226 | the list holds exactly that user's applications, newest `appliedDate` first, and the statistics count them by status |
| `UserController.AppendPendingCounts` | server/controllers/userController.js:219-224 | adding one pending application to a list raises the total and pending counts by one and leaves accepted and rejected unchanged |
| `UserController.ApplyCountsAsPending` | server/controllers/userController.js:196-224 | a successful application raises the user's total and pending counts by one and leaves accepted and rejected as they were |
| `RecruiterController.SessionFor` | server/controllers/recruiterController.js:73-88 | the token is signed over `{id, email}` of the recruiter, and the summary holds its id, name, email and image and no password |
| `RecruiterController.RegisterRecruiter` | server/controllers/recruiterController.js:17-89 | an already used email gives 400 and no record; on success exactly one recruiter is added, storing `hash(password)` and the logo URL or "" without a logo; a failure writes nothing; the logo key's clock reading is separate from the record's creation time |
| `RecruiterController.LoginRecruiter` | server/controllers/recruiterController.js:107-145 | login succeeds exactly when a recruiter has that email and the password matches its stored hash; every failure is 400 "Invalid email or password"; nothing is written |
| `RecruiterController.LoginFailuresIndistinguishable` | server/controllers/recruiterController.js:116-124 | an unknown email and a wrong password get identical replies |
| `RecruiterController.LoginAfterRegister` | server/controllers/recruiterController.js:115-124 | when a password matches its own hash, logging in right after registering returns the session registration returned |
| `RecruiterController.StoresOnlyTheHash` | server/controllers/recruiterController.js:35-67 | the stored password is the hash and differs from the plaintext whenever the hash does |
| `Routes.UploadResumeRoute` | server/server.js:90 | a refused resume file ends the request with the uploader's message and leaves the store unchanged; otherwise the handler runs |
| `Routes.RegisterRoute` | server/server.js:95 | a refused logo ends the request and leaves the store unchanged; otherwise registration runs |
| `Routes.NonPdfResumeWritesNothing` | server/server.js:43-90 | a non-PDF resume is refused before the handler and nothing is written |
| `Routes.Step` | server/server.js:87-101 | every route keeps the store invariant, never removes or alters a stored application, and only the apply route changes the applications |
| `Routes.RunKeepsValid` | server/server.js:87-101 | any sequence of requests keeps the store invariant |
| `Routes.AtMostOneApplicationPerPair` | server/controllers/userController.js:190-203 | from an empty store, no request sequence ever produces two applications for one (user, job) pair |
| `Routes.RecruiterEmailsStayUnique` | server/controllers/recruiterController.js:29-32 | from an empty store, no request sequence ever produces two recruiters with one email |
| `Routes.ApplicationsOnlyGrowByApply` | server/controllers/userController.js:196-203 | the stored applications stay a prefix of the list after any request sequence (never updated or deleted), growing by at most one per apply request |
| `ApplyPage.FetchJob` | client/src/pages/ApplyJob.jsx:26-31 | the shown job is the first in the list with the route id; with no such job the previous choice (initially none) is kept |
| `ApplyPage.HasApplied` | client/src/pages/ApplyJob.jsx:62 | true exactly when some fetched application's `jobId` equals the route id |
| `ApplyPage.ApplyButton` | client/src/pages/ApplyJob.jsx:189-201 | disabled exactly when applying, already applied or signed out; caption "Already Applied", else "Applying...", else "Apply Now" |
| `ApplyPage.EnabledButtonInvitesApplying` | client/src/pages/ApplyJob.jsx:191-200 | an enabled button reads "Apply Now", and a button reading "Apply Now" is disabled only for a signed-out visitor |
| `ApplyPage.HandleApply` | client/src/pages/ApplyJob.jsx:72-96 | without a user, or without a profile holding a resume, an error is shown and nothing is sent; otherwise the body copies the job's id, company id, title, company name and location |
| `ApplyPage.SameCompany` | client/src/pages/ApplyJob.jsx:232-237 | exactly the listed jobs other than the shown one from the same company |
| `ApplyPage.RelatedJobs` | client/src/pages/ApplyJob.jsx:232-238 | the first at most four of those, in list order: a prefix of them of length min(4, count) |
| `ApplyPage.RelatedJobsExcludeCurrent` | client/src/pages/ApplyJob.jsx:235 | the shown job is never among its related jobs |
| `ApplyPage.AppliedJobShowsAsApplied` | client/src/pages/ApplyJob.jsx:54-63 | after the server accepts the page's apply request, the user's application list marks the job as applied |
| `ApplyPage.ClientGuardImpliesServerResumeCheck` | client/src/pages/ApplyJob.jsx:79-85 | when the page's profile is the stored record, any request the page sends passes the server's resume check |

## Left out

- Concurrency: the check-then-create races in `applyForJob` and recruiter registration are not modelled. Handlers are sequential and atomic.
- MongoDB and Mongoose: the connection, queries, and CastErrors for malformed ObjectIds are not modelled. Ids are plain strings.
- Number handling: `salary` is an integer, and Mongoose's casting of strings to numbers is not modelled.
- User schema: the User schema file is not part of this model, so User validation is not modelled at all: neither required paths in `User.create` nor in `user.save()` (for example `uploadResume` after `name` was set to ""), nor a unique index on user email.
- Absent fields: an absent request field is not told apart from `""`. This matters where bcrypt would throw on `undefined`, or Mongoose would drop an `undefined` filter or update key.
- Object storage and files: S3 streaming, the temp directory, and unlinking on success or error are not modelled. The upload outcome is a boolean and the URL comes from a URL builder. An orphaned logo, left when registration fails after the upload, is not tracked.
- Tokens: bcrypt and `jwt.sign` are opaque functions. The secret, the `'your-secret-key'` fallback and the 7-day expiry are not modelled.
- Error messages: a 500 carries a `Fault` naming its cause rather than the library's exact `error.message` text.
- `createJob` input: the handler passes a flat `companyId` to the embedded `companyId` record. The model takes the company record as input instead of modelling Mongoose's cast of that mismatch.
- Other routes: Express path matching (case-insensitivity, trailing slashes), the `/`, `/api/test` and `/webhooks` routes, logging, CORS, Sentry and the static single-page-app fallback are not modelled.
- Client UI: React state plumbing, toasts, navigation timers and rendering are not modelled. App.jsx, Profile.jsx and Applications.jsx are not part of this model. Profile.jsx sends a `phone` field that `updateUserProfile` ignores; the model follows the server.
- Operational scripts: fix-index.js, create-sample-recruiter.js and test-resume-upload.js are one-off scripts that do database and S3 I/O.
- Seqs.SortDesc: the sort is stable, but the contract promises only order by key and the same elements. MongoDB leaves the order of equal dates unspecified.
