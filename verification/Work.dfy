/** What running code asks of the scheduler. */
module Work {

  /** A schedule_job call, with the clock reading of that call. */
  datatype Request = Request(at: real, interval: int, job: nat)

  /** A submit_task call. */
  datatype TaskRequest = TaskRequest(priority: int, work: nat)
}
