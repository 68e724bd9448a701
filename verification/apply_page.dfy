/**
  The derivations of the apply page (client/src/pages/ApplyJob.jsx): which job
  it shows, whether the user has already applied, the apply button, the guards
  of the apply handler with the request it sends, and the related-jobs panel.
 */
module ApplyPage {
  import opened Wrappers
  import opened Models
  import Seqs
  import Store
  import UserController

  const PleaseLogin := "Please login to apply for jobs"
  const PleaseUploadResume := "Please upload your resume in the Profile page before applying"
  const LabelApplied := "Already Applied"
  const LabelApplying := "Applying..."
  const LabelApply := "Apply Now"

  /** The signed-in user as the identity provider's client library reports it. */
  datatype SessionUser = SessionUser(id: string, fullName: string, email: string, imageUrl: string)

  /** `fetchJob`: the first job in the list with the route's id; when there is
      none, the page keeps the job it had (initially none). */
  function FetchJob(current: Option<Job>, jobs: seq<Job>, routeId: string): (r: Option<Job>)
    ensures (forall k :: 0 <= k < |jobs| ==> jobs[k].id != routeId) ==> r == current
    ensures (exists k :: 0 <= k < |jobs| && jobs[k].id == routeId) ==>
              exists k :: 0 <= k < |jobs| && r == Some(jobs[k]) && jobs[k].id == routeId &&
                          forall m :: 0 <= m < k ==> jobs[m].id != routeId
  {
    var found := Seqs.Filter(jobs, (j: Job) => j.id == routeId);
    if |found| != 0 then
      FirstMatchIsEarliest(jobs, routeId);
      Some(found[0])
    else
      assert forall k :: 0 <= k < |jobs| ==> jobs[k].id == routeId ==> jobs[k] in found;
      current
  }

  /** The head of the id filter is the earliest job with that id. */
  lemma {:induction false} FirstMatchIsEarliest(jobs: seq<Job>, routeId: string)
    requires |Seqs.Filter(jobs, (j: Job) => j.id == routeId)| != 0
    ensures exists k :: 0 <= k < |jobs| && Seqs.Filter(jobs, (j: Job) => j.id == routeId)[0] == jobs[k] &&
                        jobs[k].id == routeId && forall m :: 0 <= m < k ==> jobs[m].id != routeId
  {
    if jobs[0].id != routeId {
      FirstMatchIsEarliest(jobs[1..], routeId);
      var k :| 0 <= k < |jobs[1..]| && Seqs.Filter(jobs[1..], (j: Job) => j.id == routeId)[0] == jobs[1..][k] &&
               jobs[1..][k].id == routeId && forall m :: 0 <= m < k ==> jobs[1..][m].id != routeId;
      assert jobs[k + 1] == jobs[1..][k];
    }
  }

  /** `applications.some(app => app.jobId === id)`. */
  function HasApplied(apps: seq<JobApplication>, routeId: string): (r: bool)
    ensures r <==> exists k :: 0 <= k < |apps| && apps[k].jobId == routeId
  {
    if |apps| == 0 then false
    else apps[0].jobId == routeId || HasApplied(apps[1..], routeId)
  }

  /** The state of both apply buttons. */
  datatype Button = Button(disabled: bool, caption: string)

  function ApplyButton(applying: bool, hasApplied: bool, signedIn: bool): (b: Button)
    ensures b.disabled <==> applying || hasApplied || !signedIn
    ensures b.caption == (if hasApplied then LabelApplied else if applying then LabelApplying else LabelApply)
  {
    Button(applying || hasApplied || !signedIn,
           if hasApplied then LabelApplied else if applying then LabelApplying else LabelApply)
  }

  /** A clickable button always reads "Apply Now", and a button reading
      "Apply Now" is clickable exactly when a user is signed in. */
  lemma EnabledButtonInvitesApplying(applying: bool, hasApplied: bool, signedIn: bool)
    ensures !ApplyButton(applying, hasApplied, signedIn).disabled ==> ApplyButton(applying, hasApplied, signedIn).caption == LabelApply
    ensures ApplyButton(applying, hasApplied, signedIn).caption == LabelApply ==>
              (ApplyButton(applying, hasApplied, signedIn).disabled <==> !signedIn)
  {
  }

  /** What a click on the apply button does. */
  datatype ApplyClick =
    | ShowError(message: string)
    | Send(body: UserController.ApplyRequest)

  /** The request body copied from the shown job. */
  function ApplyBody(user: SessionUser, job: Job): UserController.ApplyRequest {
    UserController.ApplyRequest(user.id, job.id, job.company.id, job.title, job.company.name, job.location)
  }

  /** `handleApply`: a signed-in user whose fetched profile has a resume sends
      an apply request for the shown job; anyone else sees an error and nothing is sent. */
  function HandleApply(user: Option<SessionUser>, profile: Option<User>, job: Job): (c: ApplyClick)
    ensures user.None? ==> c == ShowError(PleaseLogin)
    ensures user.Some? && (profile.None? || !Present(profile.value.resume)) ==> c == ShowError(PleaseUploadResume)
    ensures c.Send? <==> user.Some? && profile.Some? && Present(profile.value.resume)
    ensures c.Send? ==>
              && c.body.userId == user.value.id
              && c.body.jobId == job.id
              && c.body.companyId == job.company.id
              && c.body.jobTitle == job.title
              && c.body.companyName == job.company.name
              && c.body.location == job.location
  {
    if user.None? then ShowError(PleaseLogin)
    else if profile.None? || !Present(profile.value.resume) then ShowError(PleaseUploadResume)
    else Send(ApplyBody(user.value, job))
  }

  predicate IsRelated(j: Job, current: Job) {
    j.id != current.id && j.company.id == current.company.id
  }

  /** The other jobs of the same company. Being a `Seqs.Filter`, it keeps them in
      list order (`Seqs.FilterKeepsOrder`) with all their copies (`Seqs.FilterMultiplicity`). */
  function SameCompany(jobs: seq<Job>, current: Job): (r: seq<Job>)
    ensures forall j :: j in r <==> j in jobs && IsRelated(j, current)
  {
    Seqs.Filter(jobs, (j: Job) => IsRelated(j, current))
  }

  /** The related-jobs panel: the first four other jobs of the same company. */
  function RelatedJobs(jobs: seq<Job>, current: Job): (r: seq<Job>)
    ensures |r| <= 4
    ensures forall j :: j in r ==> j in jobs && IsRelated(j, current)
    ensures r <= SameCompany(jobs, current)
    ensures |r| == if |SameCompany(jobs, current)| < 4 then |SameCompany(jobs, current)| else 4
  {
    var all := SameCompany(jobs, current);
    if |all| <= 4 then all else all[..4]
  }

  /** The shown job never lists itself among its related jobs. */
  lemma RelatedJobsExcludeCurrent(jobs: seq<Job>, current: Job)
    ensures current !in RelatedJobs(jobs, current)
  {
  }

  /** After a successful apply, re-deriving `hasApplied` from the server's
      application list for that user marks the job as applied. */
  lemma AppliedJobShowsAsApplied(s: Store.Store, user: SessionUser, job: Job, newId: string, now: int)
    requires UserController.ApplyForJob(s, ApplyBody(user, job), newId, now).response.Success?
    ensures var s1 := UserController.ApplyForJob(s, ApplyBody(user, job), newId, now).store;
            var page := UserController.GetUserApplications(s1, user.id).response.value;
            HasApplied(page.applications, job.id)
  {
  }

  /** The client's resume guard agrees with the server's: when the page's
      profile is the stored user record, a request the page sends passes the
      server's resume check. */
  lemma ClientGuardImpliesServerResumeCheck(s: Store.Store, user: SessionUser, job: Job)
    requires user.id in s.users
    requires HandleApply(Some(user), Some(s.users[user.id]), job).Send?
    ensures UserController.HasResume(s, HandleApply(Some(user), Some(s.users[user.id]), job).body.userId)
  {
  }
}
