/** The backend's in-memory job store: a map from job id to job record. Every
    operation is a function from the old map to the new one. */
module Jobs {
  import opened Wrappers
  import opened Schemas

  /** One record of `JOBS`; `result == None` is the stored `None`. */
  datatype Job = Job(jobId: string, filename: string, path: string, status: string, result: Option<JobResult>)

  type Store = map<string, Job>

  const Queued := "QUEUED"

  /** `create_job(job_id, filename, path)`: a fresh QUEUED record, replacing any record
      already under that id. */
  function CreateJob(s: Store, jobId: string, filename: string, path: string): (s': Store)
    ensures s'.Keys == s.Keys + {jobId}
    ensures s'[jobId] == Job(jobId, filename, path, Queued, None)
    ensures forall k | k in s && k != jobId :: s'[k] == s[k]
  {
    s[jobId := Job(jobId, filename, path, Queued, None)]
  }

  /** `get_job(job_id)`: `JOBS.get(job_id)`. */
  function GetJob(s: Store, jobId: string): (r: Option<Job>)
    ensures r.Some? <==> jobId in s
    ensures r.Some? ==> r.value == s[jobId]
  {
    if jobId in s then Some(s[jobId]) else None
  }

  /** `update_job_status(job_id, status)`: any status string, from any status. */
  function UpdateJobStatus(s: Store, jobId: string, status: string): (s': Store)
    ensures jobId !in s ==> s' == s
    ensures s'.Keys == s.Keys
    ensures jobId in s ==> s'[jobId] == s[jobId].(status := status)
    ensures forall k | k in s && k != jobId :: s'[k] == s[k]
  {
    if jobId in s then s[jobId := s[jobId].(status := status)] else s
  }

  /** `set_job_result(job_id, result)`: the status is left as it was. */
  function SetJobResult(s: Store, jobId: string, result: JobResult): (s': Store)
    ensures jobId !in s ==> s' == s
    ensures s'.Keys == s.Keys
    ensures jobId in s ==> s'[jobId] == s[jobId].(result := Some(result))
    ensures jobId in s ==> s'[jobId].status == s[jobId].status
    ensures forall k | k in s && k != jobId :: s'[k] == s[k]
  {
    if jobId in s then s[jobId := s[jobId].(result := Some(result))] else s
  }

  /** Reading a job just created gives the fresh record. */
  lemma GetAfterCreate(s: Store, jobId: string, filename: string, path: string)
    ensures GetJob(CreateJob(s, jobId, filename, path), jobId) == Some(Job(jobId, filename, path, Queued, None))
  {
  }

  /** Creating over an existing id forgets the previous record entirely. */
  lemma CreateOverwrites(s: Store, jobId: string, f1: string, p1: string, f2: string, p2: string)
    ensures CreateJob(CreateJob(s, jobId, f1, p1), jobId, f2, p2) == CreateJob(s, jobId, f2, p2)
  {
  }

  /** Setting a status and setting a result touch different fields, so their order does not matter. */
  lemma StatusAndResultCommute(s: Store, jobId: string, status: string, result: JobResult)
    ensures UpdateJobStatus(SetJobResult(s, jobId, result), jobId, status)
            == SetJobResult(UpdateJobStatus(s, jobId, status), jobId, result)
  {
  }

  /** The store enforces no order on statuses: a finished job can be put back to QUEUED. */
  lemma AnyTransitionAccepted(s: Store, jobId: string, status: string)
    requires jobId in s
    ensures GetJob(UpdateJobStatus(s, jobId, status), jobId).value.status == status
  {
  }
}
