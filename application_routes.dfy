/**
  The application workflow: a freelancer applies to an open job, anyone
  authenticated lists a job's applications, and the job's client accepts or
  rejects an application. Accepting also assigns the freelancer to the job
  and moves the job to IN_PROGRESS. Each handler is one sequential step on
  the store; the caller id is the authenticated user.
*/
module ApplicationRoutes {
  import opened Wrappers
  import opened Domain
  import opened Seqs
  import opened Paging
  import opened Database

  const JobNotFound := "Job not found."
  const NotAcceptingApplications := "Job is not accepting applications."
  const OwnJob := "Cannot apply to your own job."
  const AlreadyApplied := "You have already applied to this job."
  const BadStatus := "Status must be ACCEPTED or REJECTED."
  const ApplicationNotFound := "Application not found."
  const NotAuthorized := "Not authorized."

  function SetStatus(status: ApplicationStatus): Application -> Application
  {
    (a: Application) => a.(status := status)
  }

  /** The job update that acceptance performs. */
  function Assign(freelancerId: Id): Job -> Job
  {
    (j: Job) => j.(freelancerId := Some(freelancerId), status := InProgress)
  }

  /** `POST /jobs/:jobId/apply`. */
  method Apply(db: Store, caller: Id, jobId: Id, coverLetter: string, proposedBudget: int, newId: Id)
    returns (reply: Reply<Application>)
    requires db.Valid()
    requires newId !in KeySet(db.applications, IdOfApplication)
    modifies db
    ensures db.Valid()
    ensures var job := LookupJob(old(db.jobs), jobId);
      && (job.None? ==> reply == Fail(404, JobNotFound))
      && (job.Some? && job.value.status != Open ==> reply == Fail(400, NotAcceptingApplications))
      && (job.Some? && job.value.status == Open && job.value.clientId == caller ==> reply == Fail(400, OwnJob))
      && ((job.Some? && job.value.status == Open && job.value.clientId != caller
           && (jobId, caller) in KeySet(old(db.applications), ApplicantPair)) ==> reply == Fail(409, AlreadyApplied))
      && (reply.Ok? <==> job.Some? && job.value.status == Open && job.value.clientId != caller
                         && (jobId, caller) !in KeySet(old(db.applications), ApplicantPair))
    ensures reply.Fail? ==> unchanged(db)
    ensures reply.Ok? ==>
      && reply == Ok(201, Application(newId, jobId, caller, coverLetter, proposedBudget, Pending, old(db.clock)))
      && db.applications == old(db.applications) + [reply.value]
      && db.jobs == old(db.jobs) && db.messages == old(db.messages)
  {
    var job := LookupJob(db.jobs, jobId);
    if job.None? {
      return Fail(404, JobNotFound);
    }
    if job.value.status != Open {
      return Fail(400, NotAcceptingApplications);
    }
    if job.value.clientId == caller {
      return Fail(400, OwnJob);
    }
    var existing := Find(db.applications, KeyIs(ApplicantPair, (jobId, caller)));
    if existing.Some? {
      assert ApplicantPair(db.applications[existing.value]) == (jobId, caller);
      return Fail(409, AlreadyApplied);
    }
    var application := Application(newId, jobId, caller, coverLetter, proposedBudget, Pending, db.clock);
    var before := db.applications;
    assert (jobId, caller) !in KeySet(before, ApplicantPair);
    InsertRow(before, application, IdOfApplication, ApplicationStamp, db.clock);
    TableLater(db.jobs, IdOfJob, JobStamp, db.clock, db.clock + 1);
    TableLater(db.messages, IdOfMessage, MessageStamp, db.clock, db.clock + 1);
    db.applications := before + [application];
    db.clock := db.clock + 1;
    assert Unique(db.applications, ApplicantPair) by {
      var t := db.applications;
      forall i, j | 0 <= i < j < |t| ensures ApplicantPair(t[i]) != ApplicantPair(t[j]) {
        if j == |before| {
          assert t[i] in before;
        }
      }
    }
    assert job.value.id == jobId;
    reply := Ok(201, application);
  }

  /**
    `GET /jobs/:jobId/applications`: a job's applications, newest first, one
    page at a time. Any authenticated caller may list them, and an unknown
    job gives an empty list rather than 404.
  */
  method ListApplications(db: Store, jobId: Id, rawPage: Option<int>, rawLimit: Option<int>)
    returns (r: Paged<Application>)
    requires db.Valid()
    ensures r.page == PageNumber(rawPage)
    ensures r.total == |Filter(db.applications, KeyIs(JobOfApplication, jobId))|
    ensures r.totalPages == TotalPages(r.total, PageLimit(rawLimit))
    ensures |r.data| <= PageLimit(rawLimit)
    ensures r.data == PageOf(Reverse(Filter(db.applications, KeyIs(JobOfApplication, jobId))), r.page, PageLimit(rawLimit))
    ensures forall a :: a in r.data ==> a in db.applications && a.jobId == jobId
    ensures Descending(r.data, ApplicationStamp)
  {
    r := NewestFirstPage(db.applications, KeyIs(JobOfApplication, jobId), rawPage, rawLimit);
    NewestFirstPageSpec(db.applications, KeyIs(JobOfApplication, jobId), ApplicationStamp, rawPage, rawLimit);
  }

  /**
    `PUT /applications/:id/status`. The status is checked before any lookup,
    then the application must exist and the caller must own its job. The
    application's current status is not checked, so an accepted or rejected
    application can be decided again, and other applications to the same job
    are left as they are.
  */
  method UpdateStatus(db: Store, caller: Id, applicationId: Id, status: string)
    returns (reply: Reply<Application>)
    requires db.Valid()
    modifies db
    ensures db.Valid()
    ensures status != "ACCEPTED" && status != "REJECTED" ==> reply == Fail(400, BadStatus)
    ensures var app := LookupApplication(old(db.applications), applicationId);
      && ((status == "ACCEPTED" || status == "REJECTED") && app.None? ==> reply == Fail(404, ApplicationNotFound))
      && (((status == "ACCEPTED" || status == "REJECTED") && app.Some?
           && LookupJob(old(db.jobs), app.value.jobId).Some?
           && LookupJob(old(db.jobs), app.value.jobId).value.clientId != caller) ==> reply == Fail(403, NotAuthorized))
      && (app.Some? ==> LookupJob(old(db.jobs), app.value.jobId).Some?)
      && (reply.Ok? <==> (status == "ACCEPTED" || status == "REJECTED") && app.Some?
                         && LookupJob(old(db.jobs), app.value.jobId).Some?
                         && LookupJob(old(db.jobs), app.value.jobId).value.clientId == caller)
    ensures reply.Fail? ==> unchanged(db)
    ensures reply.Ok? ==>
      var app := LookupApplication(old(db.applications), applicationId).value;
      var decided := if status == "ACCEPTED" then Accepted else Rejected;
      && LookupJob(old(db.jobs), app.jobId).value.clientId == caller
      && reply == Ok(200, app.(status := decided))
      && db.applications == UpdateWhere(old(db.applications), KeyIs(IdOfApplication, applicationId), SetStatus(decided))
      && db.jobs == (if decided == Accepted then UpdateWhere(old(db.jobs), KeyIs(IdOfJob, app.jobId), Assign(app.freelancerId))
                     else old(db.jobs))
      && db.messages == old(db.messages) && db.clock == old(db.clock)
  {
    if status != "ACCEPTED" && status != "REJECTED" {
      return Fail(400, BadStatus);
    }
    var app := LookupApplication(db.applications, applicationId);
    if app.None? {
      return Fail(404, ApplicationNotFound);
    }
    var application := app.value;
    var job := LookupJob(db.jobs, application.jobId);
    assert job.Some?;
    if job.value.clientId != caller {
      return Fail(403, NotAuthorized);
    }
    var decided := if status == "ACCEPTED" then Accepted else Rejected;
    RecordDecision(db, applicationId, decided, application);
    reply := Ok(200, application.(status := decided));
  }

  /** The two writes of a decision: the application's status, then, on acceptance, the job's assignment. */
  method RecordDecision(db: Store, applicationId: Id, decided: ApplicationStatus, application: Application)
    requires db.Valid()
    modifies db
    ensures db.Valid()
    ensures db.applications == UpdateWhere(old(db.applications), KeyIs(IdOfApplication, applicationId), SetStatus(decided))
    ensures db.jobs == (if decided == Accepted then UpdateWhere(old(db.jobs), KeyIs(IdOfJob, application.jobId), Assign(application.freelancerId))
                        else old(db.jobs))
    ensures db.messages == old(db.messages) && db.clock == old(db.clock)
  {
    DecisionKeepsConsistent(db.jobs, db.applications, db.messages, db.clock, applicationId, decided, application);
    db.applications := UpdateWhere(db.applications, KeyIs(IdOfApplication, applicationId), SetStatus(decided));
    if decided == Accepted {
      db.jobs := UpdateWhere(db.jobs, KeyIs(IdOfJob, application.jobId), Assign(application.freelancerId));
    }
  }

  /** Recording a decision, and assigning the freelancer on acceptance, keeps the store consistent. */
  lemma DecisionKeepsConsistent(jobs: seq<Job>, apps: seq<Application>, messages: seq<Message>, clock: int,
                                applicationId: Id, decided: ApplicationStatus, application: Application)
    requires Consistent(jobs, apps, messages, clock)
    ensures var apps' := UpdateWhere(apps, KeyIs(IdOfApplication, applicationId), SetStatus(decided));
      && Consistent(jobs, apps', messages, clock)
      && Consistent(UpdateWhere(jobs, KeyIs(IdOfJob, application.jobId), Assign(application.freelancerId)), apps', messages, clock)
  {
    var apps' := UpdateWhere(apps, KeyIs(IdOfApplication, applicationId), SetStatus(decided));
    UpdateRows(apps, KeyIs(IdOfApplication, applicationId), SetStatus(decided), IdOfApplication, ApplicationStamp, clock);
    UpdateKeepsUnique(apps, KeyIs(IdOfApplication, applicationId), SetStatus(decided), ApplicantPair);
    forall a | a in apps' ensures a.jobId in KeySet(jobs, IdOfJob) {
      var k :| 0 <= k < |apps'| && apps'[k] == a;
      assert a.jobId == apps[k].jobId && apps[k] in apps;
    }
    UpdateRows(jobs, KeyIs(IdOfJob, application.jobId), Assign(application.freelancerId), IdOfJob, JobStamp, clock);
    UpdateKeepsNumbered(jobs, KeyIs(IdOfJob, application.jobId), Assign(application.freelancerId));
  }
}
