/**
 * The process-wide state the middleware inspects on each request: which
 * libraries are loaded, the configured Delayed Job backend, the job table
 * and the Resque statistics, and the current time.
 */
module Host {
  import opened Wrappers

  /** Which constants `defined?` finds in the running process. */
  datatype Libraries = Libraries(
    delayedWorker: bool,          // Delayed::Worker
    delayedJob: bool,             // Delayed::Job
    resque: bool,                 // Resque
    redis: bool,                  // Redis
    activeRecord: bool,           // ActiveRecord
    activeRecordRelation: bool,   // ActiveRecord::Relation (absent in ActiveRecord 2)
    mongoid: bool)                // Mongoid

  /** A row of the Delayed::Job table; times are abstract instants, `None` is NULL. */
  datatype JobRow = JobRow(failedAt: Option<int>, runAt: Option<int>)

  /** A value in the statistics hash returned by `Resque.info`. */
  datatype InfoValue = Nil | Int(i: int) | Str(s: string)

  /**
   * The exception a query against a backend raised: a `StandardError`, the
   * kind `rescue => error` catches.
   */
  datatype QueryError = QueryError(message: string)

  datatype Runtime = Runtime(
    libs: Libraries,
    backend: string,                                        // Delayed::Worker.backend.to_s
    jobs: Result<seq<JobRow>, QueryError>,                  // reading the Delayed::Job table
    resqueInfo: Result<map<string, InfoValue>, QueryError>, // Resque.info
    now: int)                                               // Time.now
}
