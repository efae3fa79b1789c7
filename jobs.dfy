/** The job record: one entry of the static list the application loads at start-up. */
module Jobs {

  datatype Job = Job(
    companyId: int,
    companyName: string,
    firstName: string,
    lastName: string,
    address: string,
    phoneNumber: string,
    email: string,
    state: string,
    industry: string)

  /** Some job of `s` carries the identifier `id`. */
  ghost predicate HasId(s: seq<Job>, id: int)
  {
    exists j :: j in s && j.companyId == id
  }

  /** No two entries of the list share a `companyId`. */
  ghost predicate UniqueIds(jobs: seq<Job>)
  {
    forall i, k :: 0 <= i < k < |jobs| ==> jobs[i].companyId != jobs[k].companyId
  }

  /**
   * With unique identifiers, finding a job's identifier in a sub-list of the
   * full list means finding that very job there.
   */
  lemma IdLocatesJob(jobs: seq<Job>, part: seq<Job>, job: Job)
    requires UniqueIds(jobs)
    requires job in jobs
    requires forall j :: j in part ==> j in jobs
    requires HasId(part, job.companyId)
    ensures job in part
  {
    var j :| j in part && j.companyId == job.companyId;
    var a :| 0 <= a < |jobs| && jobs[a] == j;
    var b :| 0 <= b < |jobs| && jobs[b] == job;
    assert a == b;
  }
}
