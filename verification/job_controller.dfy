/** The job handlers of server/controllers/jobController.js. */
module JobController {
  import opened Wrappers
  import opened Models
  import opened Store
  import Seqs

  const JobNotFound := "Job not found"

  function IsVisible(j: Job): bool {
    j.visible
  }

  function JobDate(j: Job): int {
    j.date
  }

  /** `GET /api/jobs`: the visible jobs, newest first. */
  function GetAllJobs(s: Store): (r: Outcome<seq<Job>>)
    ensures r.store == s && r.response.Success?
    ensures forall j :: j in r.response.value <==> j in s.jobs && j.visible
    ensures Seqs.SortedDesc(r.response.value, JobDate)
    ensures multiset(r.response.value) == multiset(Seqs.Filter(s.jobs, IsVisible))
    ensures forall j :: multiset(r.response.value)[j] == if j.visible then multiset(s.jobs)[j] else 0
  {
    var visible := Seqs.Filter(s.jobs, IsVisible);
    var listed := Seqs.SortDesc(visible, JobDate);
    assert forall j :: j in listed <==> j in visible by {
      forall j ensures j in listed <==> j in visible {
        Seqs.SortKeepsMembers(visible, JobDate, j);
      }
    }
    assert forall j :: multiset(listed)[j] == if j.visible then multiset(s.jobs)[j] else 0 by {
      forall j ensures multiset(listed)[j] == if j.visible then multiset(s.jobs)[j] else 0 {
        Seqs.FilterMultiplicity(s.jobs, IsVisible, j);
      }
    }
    Outcome(Success(listed), s)
  }

  /** `GET /api/jobs/:id`: the job with that id, or a 404; visibility is not consulted. */
  function GetJob(s: Store, id: string): (r: Outcome<Job>)
    ensures r.store == s
    ensures r.response.Success? <==> exists k :: 0 <= k < |s.jobs| && s.jobs[k].id == id
    ensures r.response.Success? ==> r.response.value in s.jobs && r.response.value.id == id
    ensures !r.response.Success? ==> r.response == ClientError(404, JobNotFound)
  {
    match FindJob(s.jobs, id)
    case Some(j) => Outcome(Success(j), s)
    case None => Outcome(ClientError(404, JobNotFound), s)
  }

  /** An invisible job is absent from the listing but still fetched by id. */
  lemma InvisibleJobStillFetchable(s: Store, k: nat)
    requires Valid(s)
    requires k < |s.jobs| && !s.jobs[k].visible
    ensures s.jobs[k] !in GetAllJobs(s).response.value
    ensures GetJob(s, s.jobs[k].id).response == Success(s.jobs[k])
  {
  }

  /** `POST /api/jobs/create`: one new job with the given fields, visible and dated now. */
  function CreateJob(s: Store, f: JobFields, newId: string, now: int): (r: Outcome<Job>)
    ensures r.response.Success? <==> JobComplete(NewJob(newId, f, None, None, now)) && FindJob(s.jobs, newId).None?
    ensures r.response.Success? ==>
              var j := r.response.value;
              && r.store == s.(jobs := s.jobs + [j])
              && j.id == newId && j.visible && j.date == now
              && j.title == f.title && j.description == f.description && j.location == f.location
              && j.category == f.category && j.level == f.level && j.salary == f.salary
              && j.company == f.company
    ensures !r.response.Success? ==> r.response.ServerError? && r.store == s
    ensures Valid(s) ==> Valid(r.store)
  {
    InsertJob(s, NewJob(newId, f, None, None, now))
  }

  /** A created job appears in the listing, because it is visible. */
  lemma CreatedJobIsListed(s: Store, f: JobFields, newId: string, now: int)
    requires CreateJob(s, f, newId, now).response.Success?
    ensures var r := CreateJob(s, f, newId, now);
            r.response.value in GetAllJobs(r.store).response.value
  {
  }
}
