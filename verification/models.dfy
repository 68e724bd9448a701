/**
  The document shapes of the four collections (the schema files under server/models), with the
  defaults the schemas supply and the `required` checks Mongoose runs on create.
  The User schema file is not part of this model; its shape follows the fields
  the controllers read and write.
 */
module Models {
  import opened Wrappers

  /** JavaScript truthiness of a string, which is also what Mongoose's
      `required` validator demands of a String path: present and non-empty. */
  predicate Present(s: string) {
    s != ""
  }

  // ---- Job (server/models/Job.js) ----

  /** The company snapshot embedded in a job as `companyId`. */
  datatype Company = Company(id: string, name: string, email: string, image: string)

  datatype Job = Job(
    id: string,
    title: string,
    description: string,
    location: string,
    category: string,
    level: string,
    salary: int,
    company: Company,
    date: int,
    visible: bool)

  /** The fields a caller supplies when creating a job. */
  datatype JobFields = JobFields(
    title: string,
    description: string,
    location: string,
    category: string,
    level: string,
    salary: int,
    company: Company)

  /** Every String path marked `required` in the Job schema is present. */
  predicate JobComplete(j: Job) {
    && Present(j.title) && Present(j.description) && Present(j.location)
    && Present(j.category) && Present(j.level)
    && Present(j.company.id) && Present(j.company.name)
    && Present(j.company.email) && Present(j.company.image)
  }

  /** A new Job document: `date` defaults to the creation time and `visible` to true. */
  function NewJob(id: string, f: JobFields, date: Option<int>, visible: Option<bool>, now: int): (j: Job)
    ensures j.id == id
    ensures j.title == f.title && j.description == f.description && j.location == f.location
    ensures j.category == f.category && j.level == f.level && j.salary == f.salary
    ensures j.company == f.company
    ensures j.date == (if date.Some? then date.value else now)
    ensures j.visible == (visible.None? || visible.value)
  {
    Job(id, f.title, f.description, f.location, f.category, f.level, f.salary, f.company,
        match date case Some(d) => d case None => now,
        match visible case Some(v) => v case None => true)
  }

  // ---- JobApplication (server/models/JobApplication.js) ----

  /** The `status` enumeration; no other value can be stored. */
  datatype Status = Pending | Accepted | Rejected

  function StatusName(st: Status): string {
    match st
    case Pending => "Pending"
    case Accepted => "Accepted"
    case Rejected => "Rejected"
  }

  /** The enum validator: a string is a status exactly when it is one of the three names. */
  function ParseStatus(s: string): (r: Option<Status>)
    ensures r.Some? <==> s == "Pending" || s == "Accepted" || s == "Rejected"
    ensures r.Some? ==> StatusName(r.value) == s
  {
    if s == "Pending" then Some(Pending)
    else if s == "Accepted" then Some(Accepted)
    else if s == "Rejected" then Some(Rejected)
    else None
  }

  lemma StatusRoundTrip(st: Status)
    ensures ParseStatus(StatusName(st)) == Some(st)
  {
  }

  datatype JobApplication = JobApplication(
    id: string,
    userId: string,
    jobId: string,
    companyId: string,
    jobTitle: string,
    companyName: string,
    location: string,
    appliedDate: int,
    status: Status)

  /** The fields of an application the caller supplies. */
  datatype ApplicationFields = ApplicationFields(
    userId: string,
    jobId: string,
    companyId: string,
    jobTitle: string,
    companyName: string,
    location: string)

  predicate ApplicationComplete(a: JobApplication) {
    && Present(a.userId) && Present(a.jobId) && Present(a.companyId)
    && Present(a.jobTitle) && Present(a.companyName) && Present(a.location)
  }

  /** A new application: `appliedDate` defaults to the creation time, `status` to Pending. */
  function NewApplication(id: string, f: ApplicationFields, appliedDate: Option<int>, status: Option<Status>, now: int)
    : (a: JobApplication)
    ensures a.id == id
    ensures a.userId == f.userId && a.jobId == f.jobId && a.companyId == f.companyId
    ensures a.jobTitle == f.jobTitle && a.companyName == f.companyName && a.location == f.location
    ensures a.appliedDate == (if appliedDate.Some? then appliedDate.value else now)
    ensures status.None? ==> a.status == Pending
    ensures status.Some? ==> a.status == status.value
  {
    JobApplication(id, f.userId, f.jobId, f.companyId, f.jobTitle, f.companyName, f.location,
      match appliedDate case Some(d) => d case None => now,
      match status case Some(st) => st case None => Pending)
  }

  // ---- Recruiter (server/models/Recruiter.js) ----

  /** `image` is optional; the empty string stands for "no logo". */
  datatype Recruiter = Recruiter(
    id: string,
    name: string,
    email: string,
    password: string,
    image: string,
    createdAt: int)

  predicate RecruiterComplete(r: Recruiter) {
    Present(r.name) && Present(r.email) && Present(r.password)
  }

  /** A new recruiter: `createdAt` defaults to the creation time. */
  function NewRecruiter(id: string, name: string, email: string, password: string, image: string,
                        createdAt: Option<int>, now: int): (r: Recruiter)
    ensures r.id == id && r.name == name && r.email == email
    ensures r.password == password && r.image == image
    ensures r.createdAt == (if createdAt.Some? then createdAt.value else now)
  {
    Recruiter(id, name, email, password, image, match createdAt case Some(t) => t case None => now)
  }

  // ---- User ----

  /** A job seeker, keyed by the identity provider's user id; `resume` is "" until an upload. */
  datatype User = User(id: string, name: string, email: string, image: string, resume: string, phone: string)
}
