/**
  The in-memory stand-in for the document database: one collection per model,
  the lookups the controllers use, and the `create` calls with the checks the
  database and Mongoose make on insert (required fields, unique `_id`, and the
  unique index on recruiter email).
 */
module Store {
  import opened Wrappers
  import opened Models
  import Seqs

  /** Users are keyed by their `_id`; the other collections keep insertion order. */
  datatype Store = Store(
    users: map<string, User>,
    recruiters: seq<Recruiter>,
    jobs: seq<Job>,
    applications: seq<JobApplication>)

  const Empty: Store := Store(map[], [], [], [])

  /** Causes of a 500 response: an exception caught at the handler boundary or
      an upload refused by the multipart middleware. */
  datatype Fault =
    | ValidationFailed(model: string)
    | DuplicateKey(collection: string)
    | StorageUnavailable
    | FileRejected(message: string)

  /** The JSON reply: `success: true` with a payload, a 4xx with a message, or a 500. */
  datatype Response<T> =
    | Success(value: T)
    | ClientError(status: nat, message: string)
    | ServerError(fault: Fault)

  /** What one handler produces: its reply and the store after it. */
  datatype Outcome<T> = Outcome(response: Response<T>, store: Store)

  // ---- Invariants the database holds ----

  predicate UsersKeyedById(users: map<string, User>) {
    forall k :: k in users ==> users[k].id == k
  }

  predicate JobIdsDistinct(jobs: seq<Job>) {
    forall i, j :: 0 <= i < j < |jobs| ==> jobs[i].id != jobs[j].id
  }

  predicate ApplicationIdsDistinct(apps: seq<JobApplication>) {
    forall i, j :: 0 <= i < j < |apps| ==> apps[i].id != apps[j].id
  }

  /** At most one application per (user, job) pair. */
  predicate OneApplicationPerPair(apps: seq<JobApplication>) {
    forall i, j :: 0 <= i < j < |apps| ==>
      apps[i].userId != apps[j].userId || apps[i].jobId != apps[j].jobId
  }

  predicate RecruiterIdsDistinct(rs: seq<Recruiter>) {
    forall i, j :: 0 <= i < j < |rs| ==> rs[i].id != rs[j].id
  }

  predicate RecruiterEmailsDistinct(rs: seq<Recruiter>) {
    forall i, j :: 0 <= i < j < |rs| ==> rs[i].email != rs[j].email
  }

  predicate Valid(s: Store) {
    && UsersKeyedById(s.users)
    && JobIdsDistinct(s.jobs)
    && ApplicationIdsDistinct(s.applications)
    && OneApplicationPerPair(s.applications)
    && RecruiterIdsDistinct(s.recruiters)
    && RecruiterEmailsDistinct(s.recruiters)
  }

  lemma EmptyIsValid()
    ensures Valid(Empty)
  {
  }

  // ---- Lookups (`findById`, `findOne`) ----

  /** `Job.findById(id)`: the first job with that id, or nothing. */
  function FindJob(jobs: seq<Job>, id: string): (r: Option<Job>)
    ensures r.None? <==> forall k :: 0 <= k < |jobs| ==> jobs[k].id != id
    ensures r.Some? ==> r.value in jobs && r.value.id == id
  {
    Seqs.FindFirst(jobs, (j: Job) => j.id == id)
  }

  /** `JobApplication.findOne({userId, jobId})`. */
  function FindApplication(apps: seq<JobApplication>, userId: string, jobId: string): (r: Option<JobApplication>)
    ensures r.None? <==> forall k :: 0 <= k < |apps| ==> apps[k].userId != userId || apps[k].jobId != jobId
    ensures r.Some? ==> r.value in apps && r.value.userId == userId && r.value.jobId == jobId
  {
    Seqs.FindFirst(apps, (a: JobApplication) => a.userId == userId && a.jobId == jobId)
  }

  /** `Recruiter.findOne({email})`: the first recruiter with that email, or nothing. */
  function FindRecruiterByEmail(rs: seq<Recruiter>, email: string): (r: Option<Recruiter>)
    ensures r.None? <==> forall k :: 0 <= k < |rs| ==> rs[k].email != email
    ensures r.Some? ==> r.value in rs && r.value.email == email
  {
    Seqs.FindFirst(rs, (rec: Recruiter) => rec.email == email)
  }

  /** The recruiter found is the earliest stored one with that email. */
  lemma FoundRecruiterIsEarliest(rs: seq<Recruiter>, email: string)
    requires FindRecruiterByEmail(rs, email).Some?
    ensures exists k :: 0 <= k < |rs| && rs[k] == FindRecruiterByEmail(rs, email).value &&
                        forall m :: 0 <= m < k ==> rs[m].email != email
  {
    Seqs.FindFirstIsEarliest(rs, (rec: Recruiter) => rec.email == email);
  }

  predicate RecruiterIdTaken(rs: seq<Recruiter>, id: string) {
    exists k :: 0 <= k < |rs| && rs[k].id == id
  }

  predicate ApplicationIdTaken(apps: seq<JobApplication>, id: string) {
    exists k :: 0 <= k < |apps| && apps[k].id == id
  }

  // ---- Inserts (`Model.create`) ----

  /** `Job.create`: validation, then the unique `_id` index. */
  function InsertJob(s: Store, j: Job): (r: Outcome<Job>)
    ensures r.response.Success? <==> JobComplete(j) && FindJob(s.jobs, j.id).None?
    ensures r.response.Success? ==> r.response.value == j && r.store == s.(jobs := s.jobs + [j])
    ensures !r.response.Success? ==> r.response.ServerError? && r.store == s
    ensures Valid(s) ==> Valid(r.store)
  {
    if !JobComplete(j) then Outcome(ServerError(ValidationFailed("Job")), s)
    else if FindJob(s.jobs, j.id).Some? then Outcome(ServerError(DuplicateKey("jobs")), s)
    else Outcome(Success(j), s.(jobs := s.jobs + [j]))
  }

  /** `JobApplication.create`: validation, then the unique `_id` index.
      No index covers (userId, jobId); the handler checks that pair itself. */
  function InsertApplication(s: Store, a: JobApplication): (r: Outcome<JobApplication>)
    ensures r.response.Success? <==> ApplicationComplete(a) && !ApplicationIdTaken(s.applications, a.id)
    ensures r.response.Success? ==> r.response.value == a && r.store == s.(applications := s.applications + [a])
    ensures !r.response.Success? ==> r.response.ServerError? && r.store == s
  {
    if !ApplicationComplete(a) then Outcome(ServerError(ValidationFailed("JobApplication")), s)
    else if ApplicationIdTaken(s.applications, a.id) then Outcome(ServerError(DuplicateKey("jobapplications")), s)
    else Outcome(Success(a), s.(applications := s.applications + [a]))
  }

  /** `Recruiter.create`: validation, then the unique indexes on `_id` and `email`. */
  function InsertRecruiter(s: Store, rec: Recruiter): (r: Outcome<Recruiter>)
    ensures r.response.Success? <==>
              && RecruiterComplete(rec)
              && !RecruiterIdTaken(s.recruiters, rec.id)
              && FindRecruiterByEmail(s.recruiters, rec.email).None?
    ensures r.response.Success? ==> r.response.value == rec && r.store == s.(recruiters := s.recruiters + [rec])
    ensures !r.response.Success? ==> r.response.ServerError? && r.store == s
    ensures Valid(s) ==> Valid(r.store)
  {
    if !RecruiterComplete(rec) then Outcome(ServerError(ValidationFailed("Recruiter")), s)
    else if RecruiterIdTaken(s.recruiters, rec.id) || FindRecruiterByEmail(s.recruiters, rec.email).Some? then
      Outcome(ServerError(DuplicateKey("recruiters")), s)
    else Outcome(Success(rec), s.(recruiters := s.recruiters + [rec]))
  }
}
