/**
  The job-seeker handlers of server/controllers/userController.js, each a pure
  transition from a request and a store to a reply and a new store. Handlers
  run one at a time; the object-storage call of a resume upload is reduced to
  its outcome, passed in as `uploaded`.
 */
module UserController {
  import opened Wrappers
  import opened Models
  import opened Store
  import Seqs
  import Uploads

  const ProfileNotFound := "User not found. Please try logging out and logging in again."
  const UserNotFound := "User not found"
  const NoFileUploaded := "No file uploaded"
  const CannotCreateUser := "User not found in database and insufficient data to create user."
  const ResumeRequired := "Please upload your resume before applying"
  const AlreadyApplied := "You have already applied for this job"

  /** The identity fields the client forwards from the identity provider. */
  datatype ProfileRequest = ProfileRequest(userId: string, name: string, email: string, image: string)

  /** The user with that id, creating it from the identity fields when it is
      missing and all three are present; nothing when it is missing and they are not. */
  function ResolveUser(s: Store, req: ProfileRequest): (r: Option<(User, Store)>)
    ensures req.userId in s.users ==> r == Some((s.users[req.userId], s))
    ensures req.userId !in s.users ==>
              (r.Some? <==> Present(req.name) && Present(req.email) && Present(req.image))
    ensures req.userId !in s.users && r.Some? ==>
              var u := User(req.userId, req.name, req.email, req.image, "", "");
              r.value == (u, s.(users := s.users[req.userId := u]))
  {
    if req.userId in s.users then Some((s.users[req.userId], s))
    else if Present(req.name) && Present(req.email) && Present(req.image) then
      var u := User(req.userId, req.name, req.email, req.image, "", "");
      Some((u, s.(users := s.users[req.userId := u])))
    else None
  }

  /** `POST /api/user/profile`. */
  function GetUserProfile(s: Store, req: ProfileRequest): (r: Outcome<User>)
    ensures req.userId in s.users ==> r == Outcome(Success(s.users[req.userId]), s)
    ensures req.userId !in s.users && Present(req.name) && Present(req.email) && Present(req.image) ==>
              && r.response == Success(User(req.userId, req.name, req.email, req.image, "", ""))
              && r.store == s.(users := s.users[req.userId := r.response.value])
    ensures req.userId !in s.users && !(Present(req.name) && Present(req.email) && Present(req.image)) ==>
              r == Outcome(ClientError(404, ProfileNotFound), s)
    ensures Valid(s) ==> Valid(r.store)
  {
    match ResolveUser(s, req)
    case Some((u, s')) => Outcome(Success(u), s')
    case None => Outcome(ClientError(404, ProfileNotFound), s)
  }

  datatype UpdateRequest = UpdateRequest(userId: string, name: string, resume: string)

  /** `POST /api/user/update-profile`: sets `name`, and `resume` only when one is given. */
  function UpdateUserProfile(s: Store, req: UpdateRequest): (r: Outcome<User>)
    ensures req.userId !in s.users ==> r == Outcome(ClientError(404, UserNotFound), s)
    ensures req.userId in s.users ==>
              var prior := s.users[req.userId];
              && r.response.Success?
              && var u := r.response.value;
              && u.name == req.name
              && u.resume == (if Present(req.resume) then req.resume else prior.resume)
              && u.id == prior.id && u.email == prior.email && u.image == prior.image && u.phone == prior.phone
              && r.store == s.(users := s.users[req.userId := u])
    ensures Valid(s) ==> Valid(r.store)
  {
    if req.userId !in s.users then Outcome(ClientError(404, UserNotFound), s)
    else
      var u := s.users[req.userId];
      var u' := if Present(req.resume) then u.(name := req.name, resume := req.resume) else u.(name := req.name);
      Outcome(Success(u'), s.(users := s.users[req.userId := u']))
  }

  datatype ResumeUploaded = ResumeUploaded(resumeUrl: string, user: User)

  /** `POST /api/user/upload-resume`, after the upload middleware. `now` is the
      handler's clock and `uploaded` whether the object store accepted the file. */
  function UploadResume(s: Store, file: Option<Uploads.UploadedFile>, req: ProfileRequest,
                        cfg: Uploads.StorageConfig, now: nat, uploaded: bool): (r: Outcome<ResumeUploaded>)
    ensures file.None? ==> r == Outcome(ClientError(400, NoFileUploaded), s)
    ensures file.Some? && ResolveUser(s, req).None? ==> r == Outcome(ClientError(404, CannotCreateUser), s)
    ensures file.Some? && ResolveUser(s, req).Some? && !uploaded ==>
              r == Outcome(ServerError(StorageUnavailable), ResolveUser(s, req).value.1)
    ensures r.response.Success? <==> file.Some? && ResolveUser(s, req).Some? && uploaded
    ensures r.response.Success? ==>
              var url := Uploads.ObjectUrl(cfg, Uploads.ResumeKey(req.userId, now, file.value.originalName));
              var before := ResolveUser(s, req).value;
              && r.response.value.resumeUrl == url
              && r.response.value.user == before.0.(resume := url)
              && r.store == s.(users := s.users[req.userId := before.0.(resume := url)])
    ensures Valid(s) ==> Valid(r.store)
  {
    if file.None? then Outcome(ClientError(400, NoFileUploaded), s)
    else
      match ResolveUser(s, req)
      case None => Outcome(ClientError(404, CannotCreateUser), s)
      case Some((u, s1)) =>
        if !uploaded then Outcome(ServerError(StorageUnavailable), s1)
        else
          var url := Uploads.ObjectUrl(cfg, Uploads.ResumeKey(req.userId, now, file.value.originalName));
          var u' := u.(resume := url);
          Outcome(Success(ResumeUploaded(url, u')), s1.(users := s1.users[req.userId := u']))
  }

  datatype ApplyRequest = ApplyRequest(
    userId: string, jobId: string, companyId: string,
    jobTitle: string, companyName: string, location: string)

  function FieldsOf(req: ApplyRequest): ApplicationFields {
    ApplicationFields(req.userId, req.jobId, req.companyId, req.jobTitle, req.companyName, req.location)
  }

  predicate HasResume(s: Store, userId: string) {
    userId in s.users && Present(s.users[userId].resume)
  }

  /** `POST /api/user/apply`. The resume check comes first, then the duplicate
      check; only then is one Pending application created. */
  function ApplyForJob(s: Store, req: ApplyRequest, newId: string, now: int): (r: Outcome<JobApplication>)
    ensures !HasResume(s, req.userId) ==> r == Outcome(ClientError(400, ResumeRequired), s)
    ensures HasResume(s, req.userId) && FindApplication(s.applications, req.userId, req.jobId).Some? ==>
              r == Outcome(ClientError(400, AlreadyApplied), s)
    ensures r.response.Success? ==>
              var a := r.response.value;
              && r.store == s.(applications := s.applications + [a])
              && a.id == newId && a.userId == req.userId && a.jobId == req.jobId
              && a.companyId == req.companyId && a.jobTitle == req.jobTitle
              && a.companyName == req.companyName && a.location == req.location
              && a.appliedDate == now && a.status == Pending
    ensures !r.response.Success? ==> r.store == s
    ensures HasResume(s, req.userId) && FindApplication(s.applications, req.userId, req.jobId).None? ==>
              r.response.Success? || r.response.ServerError?
    ensures r.response.Success? <==>
              && HasResume(s, req.userId)
              && FindApplication(s.applications, req.userId, req.jobId).None?
              && ApplicationComplete(NewApplication(newId, FieldsOf(req), None, None, now))
              && !ApplicationIdTaken(s.applications, newId)
    ensures OneApplicationPerPair(s.applications) ==> OneApplicationPerPair(r.store.applications)
    ensures Valid(s) ==> Valid(r.store)
  {
    if !HasResume(s, req.userId) then Outcome(ClientError(400, ResumeRequired), s)
    else if FindApplication(s.applications, req.userId, req.jobId).Some? then
      Outcome(ClientError(400, AlreadyApplied), s)
    else
      InsertApplication(s, NewApplication(newId, FieldsOf(req), None, None, now))
  }

  /** Applying twice for the same job: the second call is refused and writes nothing. */
  lemma ApplyTwiceFails(s: Store, req: ApplyRequest, id1: string, id2: string, t1: int, t2: int)
    requires ApplyForJob(s, req, id1, t1).response.Success?
    ensures var s1 := ApplyForJob(s, req, id1, t1).store;
            ApplyForJob(s1, req, id2, t2) == Outcome(ClientError(400, AlreadyApplied), s1)
  {
    var s1 := ApplyForJob(s, req, id1, t1).store;
    var a := ApplyForJob(s, req, id1, t1).response.value;
    assert s1.applications[|s.applications|] == a;
  }

  // ---- Listing ----

  datatype Stats = Stats(total: nat, pending: nat, accepted: nat, rejected: nat)

  datatype ApplicationsPage = ApplicationsPage(applications: seq<JobApplication>, stats: Stats)

  function AppliedDate(a: JobApplication): int {
    a.appliedDate
  }

  function IsPending(a: JobApplication): bool {
    a.status == Pending
  }

  function IsAccepted(a: JobApplication): bool {
    a.status == Accepted
  }

  function IsRejected(a: JobApplication): bool {
    a.status == Rejected
  }

  /** The status of each application, in list order. */
  function Statuses(apps: seq<JobApplication>): (sts: seq<Status>)
    ensures |sts| == |apps|
    ensures forall i :: 0 <= i < |apps| ==> sts[i] == apps[i].status
  {
    seq(|apps|, i requires 0 <= i < |apps| => apps[i].status)
  }

  /** The status counts of a list of applications, as `filter(...).length`: each
      count is the number of applications holding that status. */
  function StatsOf(apps: seq<JobApplication>): (st: Stats)
    ensures st.total == |apps|
    ensures st.pending == multiset(Statuses(apps))[Pending]
    ensures st.accepted == multiset(Statuses(apps))[Accepted]
    ensures st.rejected == multiset(Statuses(apps))[Rejected]
    ensures st.pending + st.accepted + st.rejected == st.total
  {
    StatusCountsPartition(apps);
    FilterCountsStatus(apps, Pending, IsPending);
    FilterCountsStatus(apps, Accepted, IsAccepted);
    FilterCountsStatus(apps, Rejected, IsRejected);
    Stats(|apps|, |Seqs.Filter(apps, IsPending)|, |Seqs.Filter(apps, IsAccepted)|, |Seqs.Filter(apps, IsRejected)|)
  }

  /** Filtering by one status keeps as many applications as hold that status. */
  lemma {:induction false} FilterCountsStatus(apps: seq<JobApplication>, st: Status, p: JobApplication -> bool)
    requires forall a :: p(a) <==> a.status == st
    ensures |Seqs.Filter(apps, p)| == multiset(Statuses(apps))[st]
  {
    if |apps| > 0 {
      FilterCountsStatus(apps[1..], st, p);
      assert Statuses(apps) == [apps[0].status] + Statuses(apps[1..]);
    }
  }

  /** Every application has exactly one of the three statuses, so the three counts add up to the total. */
  lemma {:induction false} StatusCountsPartition(apps: seq<JobApplication>)
    ensures |Seqs.Filter(apps, IsPending)| + |Seqs.Filter(apps, IsAccepted)| + |Seqs.Filter(apps, IsRejected)| == |apps|
  {
    if |apps| > 0 {
      StatusCountsPartition(apps[1..]);
    }
  }

  /** Statistics depend only on which applications there are, not on their order. */
  lemma StatsOfPermutation(a: seq<JobApplication>, b: seq<JobApplication>)
    requires multiset(a) == multiset(b)
    ensures StatsOf(a) == StatsOf(b)
  {
    Seqs.FilterCountPermutation(a, b, IsPending);
    Seqs.FilterCountPermutation(a, b, IsAccepted);
    Seqs.FilterCountPermutation(a, b, IsRejected);
  }

  /** The applications of one user, in store order. */
  function ApplicationsOf(apps: seq<JobApplication>, userId: string): seq<JobApplication> {
    Seqs.Filter(apps, (a: JobApplication) => a.userId == userId)
  }

  /** `POST /api/user/applications`: the user's applications, newest first, with status counts. */
  function GetUserApplications(s: Store, userId: string): (r: Outcome<ApplicationsPage>)
    ensures r.store == s && r.response.Success?
    ensures forall a :: a in r.response.value.applications <==> a in s.applications && a.userId == userId
    ensures Seqs.SortedDesc(r.response.value.applications, AppliedDate)
    ensures multiset(r.response.value.applications) == multiset(ApplicationsOf(s.applications, userId))
    ensures r.response.value.stats == StatsOf(ApplicationsOf(s.applications, userId))
  {
    var mine := ApplicationsOf(s.applications, userId);
    var sorted := Seqs.SortDesc(mine, AppliedDate);
    assert forall a :: a in sorted <==> a in mine by {
      forall a ensures a in sorted <==> a in mine {
        Seqs.SortKeepsMembers(mine, AppliedDate, a);
      }
    }
    StatsOfPermutation(sorted, mine);
    Outcome(Success(ApplicationsPage(sorted, StatsOf(sorted))), s)
  }

  /** Appending one pending application adds one to the total and to Pending only. */
  lemma {:induction false} AppendPendingCounts(apps: seq<JobApplication>, a: JobApplication)
    requires a.status == Pending
    ensures var before := StatsOf(apps);
            StatsOf(apps + [a]) == Stats(before.total + 1, before.pending + 1, before.accepted, before.rejected)
  {
    Seqs.FilterConcat(apps, [a], IsPending);
    Seqs.FilterConcat(apps, [a], IsAccepted);
    Seqs.FilterConcat(apps, [a], IsRejected);
  }

  /** A successful application adds one to the user's total and one to Pending,
      and leaves the Accepted and Rejected counts as they were. */
  lemma {:induction false} ApplyCountsAsPending(s: Store, req: ApplyRequest, newId: string, now: int)
    requires ApplyForJob(s, req, newId, now).response.Success?
    ensures var before := StatsOf(ApplicationsOf(s.applications, req.userId));
            var after := StatsOf(ApplicationsOf(ApplyForJob(s, req, newId, now).store.applications, req.userId));
            after == Stats(before.total + 1, before.pending + 1, before.accepted, before.rejected)
  {
    var r := ApplyForJob(s, req, newId, now);
    var a := r.response.value;
    var p := (x: JobApplication) => x.userId == req.userId;
    Seqs.FilterConcat(s.applications, [a], p);
    var mine := ApplicationsOf(s.applications, req.userId);
    assert ApplicationsOf(r.store.applications, req.userId) == mine + [a];
    AppendPendingCounts(mine, a);
  }
}
