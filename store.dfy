/**
  The database behind the route handlers, reduced to three tables kept in
  insertion order. Creation stamps come from a counter that every insert
  advances, so "ordered by createdAt" is insertion order and "newest first"
  is its reversal. The invariant `Valid` collects the constraints the
  database itself enforces: unique primary keys, the unique
  (jobId, freelancerId) pair of applications, and every application pointing
  at an existing job.
*/
module Database {
  import opened Wrappers
  import opened Domain
  import opened Seqs

  /** No two rows share a key. */
  ghost predicate Unique<T, K>(s: seq<T>, key: T -> K)
  {
    forall i, j :: 0 <= i < j < |s| ==> key(s[i]) != key(s[j])
  }

  /** The keys present in a table. */
  ghost function KeySet<T, K>(s: seq<T>, key: T -> K): set<K>
  {
    set x | x in s :: key(x)
  }

  /** Every row was stamped before `clock`. */
  ghost predicate StampedBefore<T>(s: seq<T>, stamp: T -> int, clock: int)
  {
    forall x :: x in s ==> stamp(x) < clock
  }

  /** A well-formed table: unique ids, creation stamps increasing and all below `clock`. */
  ghost predicate Table<T>(s: seq<T>, id: T -> Id, stamp: T -> int, clock: int)
  {
    Unique(s, id) && Ascending(s, stamp) && StampedBefore(s, stamp, clock)
  }

  /** Inserting a row with a fresh key, stamped `clock`, keeps a table well-formed under `clock + 1`. */
  lemma InsertRow<T>(s: seq<T>, x: T, id: T -> Id, stamp: T -> int, clock: int)
    requires Table(s, id, stamp, clock)
    requires id(x) !in KeySet(s, id) && stamp(x) == clock
    ensures Table(s + [x], id, stamp, clock + 1)
    ensures KeySet(s + [x], id) == KeySet(s, id) + {id(x)}
  {
    var t := s + [x];
    forall i, j | 0 <= i < j < |t| ensures id(t[i]) != id(t[j]) && stamp(t[i]) < stamp(t[j]) {
      if j == |s| {
        assert t[i] in s;
      }
    }
  }

  /** Dropping rows keeps a table well-formed. */
  lemma FilterRows<T>(s: seq<T>, p: T -> bool, id: T -> Id, stamp: T -> int, clock: int)
    requires Table(s, id, stamp, clock)
    ensures Table(Filter(s, p), id, stamp, clock)
    ensures KeySet(Filter(s, p), id) <= KeySet(s, id)
  {
    FilterAscending(s, p, stamp);
    FilterKeepsUnique(s, p, id);
  }

  /** Dropping rows keeps any key unique. */
  lemma FilterKeepsUnique<T, K>(s: seq<T>, p: T -> bool, key: T -> K)
    requires Unique(s, key)
    ensures Unique(Filter(s, p), key)
  {
    var idx := FilterPositions(s, p);
    var r := Filter(s, p);
    forall i, j | 0 <= i < j < |r| ensures key(r[i]) != key(r[j]) {
      assert r[i] == s[idx[i]] && r[j] == s[idx[j]] && idx[i] < idx[j];
    }
  }

  /** A job's milestones carry `order` 0, 1, 2, ... in the order they are stored. */
  ghost predicate Numbered(milestones: seq<Milestone>)
  {
    forall i :: 0 <= i < |milestones| ==> milestones[i].order == i
  }

  /** An update of jobs that leaves milestones alone keeps them numbered. */
  lemma UpdateKeepsNumbered(jobs: seq<Job>, p: Job -> bool, f: Job -> Job)
    requires forall j :: j in jobs ==> Numbered(j.milestones)
    requires forall j :: f(j).milestones == j.milestones
    ensures forall j :: j in UpdateWhere(jobs, p, f) ==> Numbered(j.milestones)
  {
    var t := UpdateWhere(jobs, p, f);
    forall j | j in t ensures Numbered(j.milestones) {
      var k :| 0 <= k < |t| && t[k] == j;
      assert jobs[k] in jobs;
    }
  }

  /** Table invariants survive the clock moving forward. */
  lemma TableLater<T>(s: seq<T>, id: T -> Id, stamp: T -> int, clock: int, later: int)
    requires Table(s, id, stamp, clock) && clock <= later
    ensures Table(s, id, stamp, later)
  {
  }

  /**
    `update`/`updateMany` with a `where` condition: every row satisfying `p`
    is replaced by `f` of it, the others are kept, positions do not move.
  */
  function UpdateWhere<T>(s: seq<T>, p: T -> bool, f: T -> T): (r: seq<T>)
    ensures |r| == |s|
    ensures forall k :: 0 <= k < |s| ==> r[k] == if p(s[k]) then f(s[k]) else s[k]
  {
    seq(|s|, k requires 0 <= k < |s| => if p(s[k]) then f(s[k]) else s[k])
  }

  /** An update that keeps ids and stamps keeps a table well-formed, with the same keys. */
  lemma UpdateRows<T>(s: seq<T>, p: T -> bool, f: T -> T, id: T -> Id, stamp: T -> int, clock: int)
    requires Table(s, id, stamp, clock)
    requires forall x :: id(f(x)) == id(x) && stamp(f(x)) == stamp(x)
    ensures Table(UpdateWhere(s, p, f), id, stamp, clock)
    ensures KeySet(UpdateWhere(s, p, f), id) == KeySet(s, id)
  {
    UpdateKeepsStamps(s, p, f, id, stamp, clock);
    UpdateKeepsUnique(s, p, f, id);
    UpdateKeepsKeys(s, p, f, id);
  }

  /** An update that keeps stamps keeps them increasing and below `clock`. */
  lemma UpdateKeepsStamps<T>(s: seq<T>, p: T -> bool, f: T -> T, id: T -> Id, stamp: T -> int, clock: int)
    requires Ascending(s, stamp) && StampedBefore(s, stamp, clock)
    requires forall x :: stamp(f(x)) == stamp(x)
    ensures Ascending(UpdateWhere(s, p, f), stamp) && StampedBefore(UpdateWhere(s, p, f), stamp, clock)
  {
    var t := UpdateWhere(s, p, f);
    forall y | y in t ensures stamp(y) < clock {
      var k :| 0 <= k < |t| && t[k] == y;
      assert s[k] in s;
    }
    forall i, j | 0 <= i < j < |t| ensures stamp(t[i]) < stamp(t[j]) {
      assert stamp(t[i]) == stamp(s[i]) && stamp(t[j]) == stamp(s[j]);
    }
  }

  /** An update that keeps a key keeps the set of keys. */
  lemma UpdateKeepsKeys<T, K>(s: seq<T>, p: T -> bool, f: T -> T, key: T -> K)
    requires forall x :: key(f(x)) == key(x)
    ensures KeySet(UpdateWhere(s, p, f), key) == KeySet(s, key)
  {
    var t := UpdateWhere(s, p, f);
    forall k | k in KeySet(t, key) ensures k in KeySet(s, key) {
      var y :| y in t && key(y) == k;
      var n :| 0 <= n < |t| && t[n] == y;
      assert key(s[n]) == k;
    }
    forall k | k in KeySet(s, key) ensures k in KeySet(t, key) {
      var y :| y in s && key(y) == k;
      var n :| 0 <= n < |s| && s[n] == y;
      assert key(t[n]) == k;
    }
  }

  /** An update that keeps a secondary key keeps that key unique. */
  lemma UpdateKeepsUnique<T, K>(s: seq<T>, p: T -> bool, f: T -> T, key: T -> K)
    requires Unique(s, key)
    requires forall x :: key(f(x)) == key(x)
    ensures Unique(UpdateWhere(s, p, f), key)
  {
    var t := UpdateWhere(s, p, f);
    forall i, j | 0 <= i < j < |t| ensures key(t[i]) != key(t[j]) {
      assert key(t[i]) == key(s[i]) && key(t[j]) == key(s[j]);
    }
  }

  /** Holds of the rows whose key is `k`. */
  function KeyIs<T, K(==)>(key: T -> K, k: K): T -> bool
  {
    x => key(x) == k
  }

  /** Holds of the rows whose key is not `k`. */
  function KeyIsNot<T, K(==)>(key: T -> K, k: K): T -> bool
  {
    x => key(x) != k
  }

  /** Removing the rows with key `k` removes exactly that key. */
  lemma RemoveKey<T>(s: seq<T>, id: T -> Id, k: Id)
    ensures KeySet(Filter(s, KeyIsNot(id, k)), id) == KeySet(s, id) - {k}
  {
    var p := KeyIsNot(id, k);
    forall y | y in KeySet(s, id) - {k} ensures y in KeySet(Filter(s, p), id) {
      var x :| x in s && id(x) == y;
      FilterKeeps(s, p, x);
    }
  }

  /** The row of `jobs` with id `id` (`prisma.job.findUnique({ where: { id } })`). */
  function LookupJob(jobs: seq<Job>, id: Id): (r: Option<Job>)
    ensures r.Some? ==> r.value in jobs && r.value.id == id
    ensures r.None? ==> id !in KeySet(jobs, IdOfJob)
  {
    match Find(jobs, KeyIs(IdOfJob, id))
    case None => None
    case Some(i) => Some(jobs[i])
  }

  function LookupApplication(applications: seq<Application>, id: Id): (r: Option<Application>)
    ensures r.Some? ==> r.value in applications && r.value.id == id
    ensures r.None? ==> id !in KeySet(applications, IdOfApplication)
  {
    match Find(applications, KeyIs(IdOfApplication, id))
    case None => None
    case Some(i) => Some(applications[i])
  }

  /** The database's integrity constraints over the three tables and the clock. */
  ghost predicate Consistent(jobs: seq<Job>, applications: seq<Application>, messages: seq<Message>, clock: int)
  {
    && Table(jobs, IdOfJob, JobStamp, clock)
    && Table(applications, IdOfApplication, ApplicationStamp, clock)
    && Table(messages, IdOfMessage, MessageStamp, clock)
    && Unique(applications, ApplicantPair)
    && (forall a :: a in applications ==> a.jobId in KeySet(jobs, IdOfJob))
    && (forall j :: j in jobs ==> Numbered(j.milestones))
  }

  class Store {
    var jobs: seq<Job>
    var applications: seq<Application>
    var messages: seq<Message>
    /** The stamp the next inserted row receives. */
    var clock: int

    ghost predicate Valid()
      reads this
    {
      Consistent(jobs, applications, messages, clock)
    }

    constructor ()
      ensures Valid()
      ensures jobs == [] && applications == [] && messages == []
    {
      jobs, applications, messages := [], [], [];
      clock := 0;
    }
  }
}
