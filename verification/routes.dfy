/**
  The API routes of server/server.js, with the upload middleware placed in
  front of its handler, and the whole server as a state machine: any sequence
  of requests, handled one after another, keeps the store's invariants, and
  in particular at most one application per (user, job) pair.
 */
module Routes {
  import opened Wrappers
  import opened Models
  import opened Store
  import Uploads
  import JobController
  import UserController
  import RecruiterController

  /** `upload.single('resume')` then `uploadResume`: a refused file ends the
      request with a 500 before the handler runs. */
  function UploadResumeRoute(s: Store, file: Option<Uploads.UploadedFile>, req: UserController.ProfileRequest,
                             cfg: Uploads.StorageConfig, now: nat, uploaded: bool)
    : (r: Outcome<UserController.ResumeUploaded>)
    ensures file.Some? && Uploads.AdmitResume(file.value).Refused? ==>
              r == Outcome(ServerError(FileRejected(Uploads.AdmitResume(file.value).message)), s)
    ensures file.None? || Uploads.AdmitResume(file.value).Admitted? ==>
              r == UserController.UploadResume(s, file, req, cfg, now, uploaded)
  {
    if file.Some? && Uploads.AdmitResume(file.value).Refused? then
      Outcome(ServerError(FileRejected(Uploads.AdmitResume(file.value).message)), s)
    else UserController.UploadResume(s, file, req, cfg, now, uploaded)
  }

  /** `uploadImage.single('image')` then `registerRecruiter`. */
  function RegisterRoute(s: Store, req: RecruiterController.RegisterRequest, logo: Option<Uploads.UploadedFile>,
                         c: RecruiterController.Crypto, salt: nat, cfg: Uploads.StorageConfig, logoMillis: nat, now: nat,
                         newId: string, uploaded: bool)
    : (r: Outcome<RecruiterController.Session>)
    ensures logo.Some? && Uploads.AdmitImage(logo.value).Refused? ==>
              r == Outcome(ServerError(FileRejected(Uploads.AdmitImage(logo.value).message)), s)
    ensures logo.None? || Uploads.AdmitImage(logo.value).Admitted? ==>
              r == RecruiterController.RegisterRecruiter(s, req, logo, c, salt, cfg, logoMillis, now, newId, uploaded)
  {
    if logo.Some? && Uploads.AdmitImage(logo.value).Refused? then
      Outcome(ServerError(FileRejected(Uploads.AdmitImage(logo.value).message)), s)
    else RecruiterController.RegisterRecruiter(s, req, logo, c, salt, cfg, logoMillis, now, newId, uploaded)
  }

  /** A non-PDF resume never reaches the store: no user is created and no resume is written. */
  lemma NonPdfResumeWritesNothing(s: Store, f: Uploads.UploadedFile, req: UserController.ProfileRequest,
                                  cfg: Uploads.StorageConfig, now: nat, uploaded: bool)
    requires f.mimeType != "application/pdf"
    ensures UploadResumeRoute(s, Some(f), req, cfg, now, uploaded).store == s
    ensures !UploadResumeRoute(s, Some(f), req, cfg, now, uploaded).response.Success?
  {
  }

  /** The configuration the server reads from its environment. */
  datatype Config = Config(storage: Uploads.StorageConfig, crypto: RecruiterController.Crypto)

  /** One API request, with the values the server draws from its clock, its id
      generator, the hashing salt and the object store's answer. */
  datatype Request =
    | FetchProfile(profile: UserController.ProfileRequest)
    | UpdateProfile(update: UserController.UpdateRequest)
    | UploadResume(file: Option<Uploads.UploadedFile>, profile: UserController.ProfileRequest, now: nat, uploaded: bool)
    | Apply(apply: UserController.ApplyRequest, newId: string, now: nat)
    | ListApplications(userId: string)
    | Register(register: RecruiterController.RegisterRequest, logo: Option<Uploads.UploadedFile>,
               salt: nat, logoMillis: nat, now: nat, newId: string, uploaded: bool)
    | Login(login: RecruiterController.LoginRequest)
    | ListJobs
    | FetchJob(id: string)
    | CreateJob(fields: JobFields, newId: string, now: nat)

  /** The store after handling one request. */
  function Step(cfg: Config, s: Store, req: Request): (s': Store)
    ensures Valid(s) ==> Valid(s')
    ensures !req.Apply? ==> s'.applications == s.applications
    ensures s.applications <= s'.applications
    ensures OneApplicationPerPair(s.applications) ==> OneApplicationPerPair(s'.applications)
  {
    match req
    case FetchProfile(p) => UserController.GetUserProfile(s, p).store
    case UpdateProfile(u) => UserController.UpdateUserProfile(s, u).store
    case UploadResume(file, p, now, uploaded) => UploadResumeRoute(s, file, p, cfg.storage, now, uploaded).store
    case Apply(a, newId, now) => UserController.ApplyForJob(s, a, newId, now).store
    case ListApplications(userId) => UserController.GetUserApplications(s, userId).store
    case Register(r, logo, salt, logoMillis, now, newId, uploaded) =>
      RegisterRoute(s, r, logo, cfg.crypto, salt, cfg.storage, logoMillis, now, newId, uploaded).store
    case Login(l) => RecruiterController.LoginRecruiter(s, l, cfg.crypto).store
    case ListJobs => JobController.GetAllJobs(s).store
    case FetchJob(id) => JobController.GetJob(s, id).store
    case CreateJob(f, newId, now) => JobController.CreateJob(s, f, newId, now).store
  }

  /** The store after handling the requests in order. */
  function Run(cfg: Config, s: Store, reqs: seq<Request>): Store
    decreases |reqs|
  {
    if |reqs| == 0 then s else Run(cfg, Step(cfg, s, reqs[0]), reqs[1..])
  }

  lemma {:induction false} RunKeepsValid(cfg: Config, s: Store, reqs: seq<Request>)
    requires Valid(s)
    ensures Valid(Run(cfg, s, reqs))
    decreases |reqs|
  {
    if |reqs| > 0 {
      RunKeepsValid(cfg, Step(cfg, s, reqs[0]), reqs[1..]);
    }
  }

  /** However many requests are handled in sequence, starting from an empty
      store, no (user, job) pair ever has two applications. */
  lemma {:induction false} AtMostOneApplicationPerPair(cfg: Config, reqs: seq<Request>)
    ensures var apps := Run(cfg, Empty, reqs).applications;
            forall i, j :: 0 <= i < j < |apps| ==> apps[i].userId != apps[j].userId || apps[i].jobId != apps[j].jobId
  {
    EmptyIsValid();
    RunKeepsValid(cfg, Empty, reqs);
  }

  /** The same for recruiter emails. */
  lemma {:induction false} RecruiterEmailsStayUnique(cfg: Config, reqs: seq<Request>)
    ensures var rs := Run(cfg, Empty, reqs).recruiters;
            forall i, j :: 0 <= i < j < |rs| ==> rs[i].email != rs[j].email
  {
    EmptyIsValid();
    RunKeepsValid(cfg, Empty, reqs);
  }

  /** Applications are never updated or removed; only an apply request can add one,
      and it adds at most one. */
  lemma {:induction false} ApplicationsOnlyGrowByApply(cfg: Config, s: Store, reqs: seq<Request>)
    ensures s.applications <= Run(cfg, s, reqs).applications
    ensures |Run(cfg, s, reqs).applications| <= |s.applications| + |Applies(reqs)|
    decreases |reqs|
  {
    if |reqs| > 0 {
      var s1 := Step(cfg, s, reqs[0]);
      ApplicationsOnlyGrowByApply(cfg, s1, reqs[1..]);
      assert reqs == [reqs[0]] + reqs[1..];
    }
  }

  function Applies(reqs: seq<Request>): seq<Request> {
    if |reqs| == 0 then [] else (if reqs[0].Apply? then [reqs[0]] else []) + Applies(reqs[1..])
  }
}
