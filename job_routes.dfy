/**
  Job postings: the public, filtered and paginated listing, the detail view,
  and the owner-only create, partial update and delete.
*/
module JobRoutes {
  import opened Wrappers
  import opened Domain
  import opened Seqs
  import opened Text
  import opened Paging
  import opened Database

  const JobNotFound := "Job not found."
  const MissingFields := "Title, description, budget, and category are required."
  const NotAuthorizedToUpdate := "Not authorized to update this job."
  const NotAuthorizedToDelete := "Not authorized to delete this job."
  const Deleted := "Job deleted successfully."

  /**
    The listing's `where` object: each condition is present only when its
    query parameter is truthy (`""` and `None` stand for absent). An unknown
    status string is rejected by the database and is not modelled.
  */
  datatype Where = Where(category: string, status: Option<JobStatus>, search: string)

  /** The jobs the `where` object selects. */
  function Matches(w: Where): Job -> bool
  {
    (j: Job) =>
      && (w.category != "" ==> j.category == w.category)
      && (w.status.Some? ==> j.status == w.status.value)
      && (w.search != "" ==> ContainsIgnoreCase(j.title, w.search) || ContainsIgnoreCase(j.description, w.search))
  }

  /** With no filter at all, every job is listed. */
  lemma {:induction false} EmptyWhereListsAll(jobs: seq<Job>)
    ensures Filter(jobs, Matches(Where("", None, ""))) == jobs
  {
    FilterAll(jobs, Matches(Where("", None, "")));
  }

  /** `GET /jobs`. */
  method ListJobs(db: Store, w: Where, rawPage: Option<int>, rawLimit: Option<int>) returns (r: Paged<Job>)
    requires db.Valid()
    ensures r.page == PageNumber(rawPage) && r.page >= 1
    ensures r.total == |Filter(db.jobs, Matches(w))|
    ensures r.totalPages == TotalPages(r.total, PageLimit(rawLimit))
    ensures |r.data| <= PageLimit(rawLimit)
    ensures r.data == PageOf(Reverse(Filter(db.jobs, Matches(w))), r.page, PageLimit(rawLimit))
    ensures forall j :: j in r.data ==>
      && j in db.jobs
      && (w.category != "" ==> j.category == w.category)
      && (w.status.Some? ==> j.status == w.status.value)
      && (w.search != "" ==> ContainsIgnoreCase(j.title, w.search) || ContainsIgnoreCase(j.description, w.search))
    ensures Descending(r.data, JobStamp)
  {
    r := NewestFirstPage(db.jobs, Matches(w), rawPage, rawLimit);
    NewestFirstPageSpec(db.jobs, Matches(w), JobStamp, rawPage, rawLimit);
  }

  /** A job with the applications made to it, as the detail route returns it. */
  datatype JobDetail = JobDetail(job: Job, applications: seq<Application>)

  /** `GET /jobs/:id`: the job with its milestones in `order` and its applications, or 404. */
  method GetJob(db: Store, jobId: Id) returns (reply: Reply<JobDetail>)
    requires db.Valid()
    ensures jobId !in KeySet(db.jobs, IdOfJob) <==> reply == Fail(404, JobNotFound)
    ensures reply.Ok? <==> jobId in KeySet(db.jobs, IdOfJob)
    ensures reply.Ok? ==>
      && reply.code == 200
      && reply.value.job in db.jobs && reply.value.job.id == jobId
      && (forall i :: 0 <= i < |reply.value.job.milestones| ==> reply.value.job.milestones[i].order == i)
      && (forall a :: a in reply.value.applications <==> a in db.applications && a.jobId == jobId)
  {
    var job := LookupJob(db.jobs, jobId);
    if job.None? {
      return Fail(404, JobNotFound);
    }
    var applications := Filter(db.applications, KeyIs(JobOfApplication, jobId));
    forall a | a in db.applications && a.jobId == jobId ensures a in applications {
      FilterKeeps(db.applications, KeyIs(JobOfApplication, jobId), a);
    }
    reply := Ok(200, JobDetail(job.value, applications));
  }

  /** A milestone as the create request carries it. */
  datatype MilestoneInput = MilestoneInput(title: string, description: string, amount: int)

  /** `milestones.map((m, index) => ({ ..., order: index }))`; new milestones start PENDING. */
  function NumberMilestones(inputs: seq<MilestoneInput>): (ms: seq<Milestone>)
    ensures |ms| == |inputs|
    ensures forall i :: 0 <= i < |ms| ==>
      && ms[i].title == inputs[i].title && ms[i].description == inputs[i].description
      && ms[i].amount == inputs[i].amount && ms[i].status == MilestonePending
    ensures Numbered(ms)
  {
    seq(|inputs|, i requires 0 <= i < |inputs| =>
      Milestone(inputs[i].title, inputs[i].description, inputs[i].amount, MilestonePending, i))
  }

  /** The positions 0 .. n-1. */
  function Positions(n: nat): (r: set<nat>)
    ensures forall i :: i in r <==> 0 <= i < n
  {
    if n == 0 then {} else Positions(n - 1) + {n - 1}
  }

  /** The orders of a job's new milestones are exactly 0 .. n-1, each used once. */
  lemma MilestoneOrdersArePositions(inputs: seq<MilestoneInput>)
    ensures var ms := NumberMilestones(inputs);
      && (set m | m in ms :: m.order) == Positions(|inputs|)
      && (forall i, j :: 0 <= i < j < |ms| ==> ms[i].order != ms[j].order)
  {
    var ms := NumberMilestones(inputs);
    forall i | i in Positions(|inputs|) ensures i in (set m | m in ms :: m.order) {
      assert ms[i] in ms;
    }
  }

  /**
    `POST /jobs`. Missing or falsy title, description, budget (0) or
    category gives 400; otherwise the caller becomes the client of a new OPEN
    job without a freelancer. An absent milestone list and an empty one both
    create no milestones.
  */
  method CreateJob(db: Store, caller: Id, title: string, description: string, budget: int, category: string,
                   milestones: seq<MilestoneInput>, newId: Id)
    returns (reply: Reply<Job>)
    requires db.Valid()
    requires newId !in KeySet(db.jobs, IdOfJob)
    modifies db
    ensures db.Valid()
    ensures (title == "" || description == "" || budget == 0 || category == "") <==> reply == Fail(400, MissingFields)
    ensures reply.Ok? <==> !(title == "" || description == "" || budget == 0 || category == "")
    ensures reply.Fail? ==> unchanged(db)
    ensures reply.Ok? ==>
      && reply == Ok(201, Job(newId, title, description, budget, category, Open, caller, None,
                              NumberMilestones(milestones), old(db.clock)))
      && db.jobs == old(db.jobs) + [reply.value]
      && db.applications == old(db.applications) && db.messages == old(db.messages)
  {
    if title == "" || description == "" || budget == 0 || category == "" {
      return Fail(400, MissingFields);
    }
    var job := Job(newId, title, description, budget, category, Open, caller, None, NumberMilestones(milestones), db.clock);
    CreateKeepsConsistent(db.jobs, db.applications, db.messages, db.clock, job);
    db.jobs := db.jobs + [job];
    db.clock := db.clock + 1;
    reply := Ok(201, job);
  }

  lemma CreateKeepsConsistent(jobs: seq<Job>, apps: seq<Application>, messages: seq<Message>, clock: int, job: Job)
    requires Consistent(jobs, apps, messages, clock)
    requires job.id !in KeySet(jobs, IdOfJob) && job.createdAt == clock && Numbered(job.milestones)
    ensures Consistent(jobs + [job], apps, messages, clock + 1)
  {
    InsertRow(jobs, job, IdOfJob, JobStamp, clock);
    TableLater(apps, IdOfApplication, ApplicationStamp, clock, clock + 1);
    TableLater(messages, IdOfMessage, MessageStamp, clock, clock + 1);
  }

  /** The fields of `PUT /jobs/:id`; `""`, 0 and `None` mean "not given". */
  datatype JobPatch = JobPatch(title: string, description: string, budget: int, category: string, status: Option<JobStatus>)

  /** The job after a partial update: each given field overwrites, the rest stay. */
  function Patched(j: Job, p: JobPatch): (r: Job)
    ensures r.id == j.id && r.clientId == j.clientId && r.freelancerId == j.freelancerId
    ensures r.milestones == j.milestones && r.createdAt == j.createdAt
    ensures r.title == (if p.title != "" then p.title else j.title)
    ensures r.description == (if p.description != "" then p.description else j.description)
    ensures r.budget == (if p.budget != 0 then p.budget else j.budget)
    ensures r.category == (if p.category != "" then p.category else j.category)
    ensures r.status == (if p.status.Some? then p.status.value else j.status)
  {
    j.(title := if p.title != "" then p.title else j.title,
       description := if p.description != "" then p.description else j.description,
       budget := if p.budget != 0 then p.budget else j.budget,
       category := if p.category != "" then p.category else j.category,
       status := if p.status.Some? then p.status.value else j.status)
  }

  function PatchWith(p: JobPatch): Job -> Job
  {
    (j: Job) => Patched(j, p)
  }

  /** Applying the same partial update twice is applying it once. */
  lemma PatchIdempotent(j: Job, p: JobPatch)
    ensures Patched(Patched(j, p), p) == Patched(j, p)
  {
  }

  /** An update with no truthy field leaves the job as it was. */
  lemma EmptyPatchIsIdentity(j: Job)
    ensures Patched(j, JobPatch("", "", 0, "", None)) == j
  {
  }

  /**
    `PUT /jobs/:id`: 404 for an unknown job, 403 unless the caller is its
    client; otherwise the given fields overwrite. Any status may be written,
    whatever the current one and whether or not a freelancer is assigned.
  */
  method UpdateJob(db: Store, caller: Id, jobId: Id, patch: JobPatch) returns (reply: Reply<Job>)
    requires db.Valid()
    modifies db
    ensures db.Valid()
    ensures var job := LookupJob(old(db.jobs), jobId);
      && (job.None? <==> reply == Fail(404, JobNotFound))
      && (job.Some? && job.value.clientId != caller <==> reply == Fail(403, NotAuthorizedToUpdate))
      && (reply.Ok? <==> job.Some? && job.value.clientId == caller)
      && (reply.Ok? ==> reply == Ok(200, Patched(job.value, patch)) && job.value.clientId == caller)
    ensures reply.Fail? ==> unchanged(db)
    ensures reply.Ok? ==>
      && db.jobs == UpdateWhere(old(db.jobs), KeyIs(IdOfJob, jobId), PatchWith(patch))
      && db.applications == old(db.applications) && db.messages == old(db.messages) && db.clock == old(db.clock)
  {
    var job := LookupJob(db.jobs, jobId);
    if job.None? {
      return Fail(404, JobNotFound);
    }
    if job.value.clientId != caller {
      return Fail(403, NotAuthorizedToUpdate);
    }
    UpdateKeepsConsistent(db.jobs, db.applications, db.messages, db.clock, jobId, patch);
    db.jobs := UpdateWhere(db.jobs, KeyIs(IdOfJob, jobId), PatchWith(patch));
    reply := Ok(200, Patched(job.value, patch));
  }

  lemma UpdateKeepsConsistent(jobs: seq<Job>, apps: seq<Application>, messages: seq<Message>, clock: int,
                              jobId: Id, patch: JobPatch)
    requires Consistent(jobs, apps, messages, clock)
    ensures Consistent(UpdateWhere(jobs, KeyIs(IdOfJob, jobId), PatchWith(patch)), apps, messages, clock)
  {
    UpdateRows(jobs, KeyIs(IdOfJob, jobId), PatchWith(patch), IdOfJob, JobStamp, clock);
    UpdateKeepsNumbered(jobs, KeyIs(IdOfJob, jobId), PatchWith(patch));
  }

  /**
    `DELETE /jobs/:id`: 404 for an unknown job, 403 unless the caller is its
    client; otherwise the job goes, and with it its applications (the
    database cascades). Messages that mention the job are kept.
  */
  method DeleteJob(db: Store, caller: Id, jobId: Id) returns (reply: Reply<string>)
    requires db.Valid()
    modifies db
    ensures db.Valid()
    ensures var job := LookupJob(old(db.jobs), jobId);
      && (job.None? <==> reply == Fail(404, JobNotFound))
      && (job.Some? && job.value.clientId != caller <==> reply == Fail(403, NotAuthorizedToDelete))
      && (reply.Ok? <==> job.Some? && job.value.clientId == caller)
    ensures reply.Fail? ==> unchanged(db)
    ensures reply.Ok? ==>
      && reply == Ok(200, Deleted)
      && db.jobs == Filter(old(db.jobs), KeyIsNot(IdOfJob, jobId))
      && KeySet(db.jobs, IdOfJob) == KeySet(old(db.jobs), IdOfJob) - {jobId}
      && db.applications == Filter(old(db.applications), KeyIsNot(JobOfApplication, jobId))
      && db.messages == old(db.messages) && db.clock == old(db.clock)
  {
    var job := LookupJob(db.jobs, jobId);
    if job.None? {
      return Fail(404, JobNotFound);
    }
    if job.value.clientId != caller {
      return Fail(403, NotAuthorizedToDelete);
    }
    RemoveJob(db, jobId);
    reply := Ok(200, Deleted);
  }

  /** `prisma.job.delete`: the job's row goes, and the database cascades to its applications. */
  method RemoveJob(db: Store, jobId: Id)
    requires db.Valid()
    modifies db
    ensures db.Valid()
    ensures db.jobs == Filter(old(db.jobs), KeyIsNot(IdOfJob, jobId))
    ensures KeySet(db.jobs, IdOfJob) == KeySet(old(db.jobs), IdOfJob) - {jobId}
    ensures db.applications == Filter(old(db.applications), KeyIsNot(JobOfApplication, jobId))
    ensures db.messages == old(db.messages) && db.clock == old(db.clock)
  {
    DeleteKeepsConsistent(db.jobs, db.applications, db.messages, db.clock, jobId);
    db.jobs := Filter(db.jobs, KeyIsNot(IdOfJob, jobId));
    db.applications := Filter(db.applications, KeyIsNot(JobOfApplication, jobId));
  }

  lemma DeleteKeepsConsistent(jobs: seq<Job>, apps: seq<Application>, messages: seq<Message>, clock: int, jobId: Id)
    requires Consistent(jobs, apps, messages, clock)
    ensures KeySet(Filter(jobs, KeyIsNot(IdOfJob, jobId)), IdOfJob) == KeySet(jobs, IdOfJob) - {jobId}
    ensures Consistent(Filter(jobs, KeyIsNot(IdOfJob, jobId)), Filter(apps, KeyIsNot(JobOfApplication, jobId)), messages, clock)
  {
    var jobs', apps' := Filter(jobs, KeyIsNot(IdOfJob, jobId)), Filter(apps, KeyIsNot(JobOfApplication, jobId));
    FilterRows(jobs, KeyIsNot(IdOfJob, jobId), IdOfJob, JobStamp, clock);
    FilterRows(apps, KeyIsNot(JobOfApplication, jobId), IdOfApplication, ApplicationStamp, clock);
    FilterKeepsUnique(apps, KeyIsNot(JobOfApplication, jobId), ApplicantPair);
    RemoveKey(jobs, IdOfJob, jobId);
  }
}
