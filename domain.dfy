/**
  The records of the marketplace's tables, reduced to what the route handlers
  decide on: ids, owners, statuses, read flags and creation stamps. Status
  values follow the string unions of the frontend's shared types.
*/
module Domain {
  import opened Wrappers

  /** Database ids and user ids are opaque strings. */
  type Id = string

  datatype JobStatus = Open | InProgress | Completed | Cancelled | Disputed

  datatype ApplicationStatus = Pending | Accepted | Rejected

  datatype MilestoneStatus = MilestonePending | MilestoneInProgress | Submitted | Approved | MilestoneRejected

  /** A milestone as stored inside its job; `order` is its position among the job's milestones. */
  datatype Milestone = Milestone(
    title: string,
    description: string,
    amount: int,
    status: MilestoneStatus,
    order: nat)

  datatype Job = Job(
    id: Id,
    title: string,
    description: string,
    budget: int,
    category: string,
    status: JobStatus,
    clientId: Id,
    freelancerId: Option<Id>,
    milestones: seq<Milestone>,
    createdAt: int)

  datatype Application = Application(
    id: Id,
    jobId: Id,
    freelancerId: Id,
    coverLetter: string,
    proposedBudget: int,
    status: ApplicationStatus,
    createdAt: int)

  datatype Message = Message(
    id: Id,
    senderId: Id,
    receiverId: Id,
    jobId: Option<Id>,
    content: string,
    read: bool,
    createdAt: int)

  /** What a handler sends back: a status code with a body, or a status code with `{ error }`. */
  datatype Reply<T> = Ok(code: int, value: T) | Fail(code: int, error: string)

  /** The `{ data, total, page, totalPages }` envelope of every list endpoint. */
  datatype Paged<T> = Paged(data: seq<T>, total: nat, page: int, totalPages: nat)

  function JobStamp(j: Job): int { j.createdAt }
  function ApplicationStamp(a: Application): int { a.createdAt }
  function MessageStamp(m: Message): int { m.createdAt }

  function IdOfJob(j: Job): Id { j.id }
  function IdOfApplication(a: Application): Id { a.id }
  function IdOfMessage(m: Message): Id { m.id }

  function JobOfApplication(a: Application): Id { a.jobId }

  /** The compound unique key `jobId_freelancerId` of the applications table. */
  function ApplicantPair(a: Application): (Id, Id) { (a.jobId, a.freelancerId) }

  /** A string field taken from a request: `""` stands for a missing or falsy value. */
  function OptionalId(raw: string): (r: Option<Id>)
    ensures r.None? <==> raw == ""
    ensures r.Some? ==> r.value == raw
  {
    if raw == "" then None else Some(raw)
  }
}
