/**
 * `job_count` and its two sources: the Delayed Job table (`count_delayed_job`)
 * and the Resque statistics (`count_resque`). A query that raises makes the
 * count nil.
 */
module Counter {
  import opened Wrappers
  import opened Host
  import opened Text
  import opened Detector

  /** `failed_at` is NULL. */
  predicate Unfailed(r: JobRow)
  {
    r.failedAt.None?
  }

  /** `run_at <= now`; a NULL `run_at` compares as unknown and is not selected. */
  predicate DueBy(r: JobRow, now: int)
  {
    r.runAt.Some? && r.runAt.value <= now
  }

  /** A job that is waiting to be run. */
  predicate IsPending(r: JobRow, now: int)
  {
    Unfailed(r) && DueBy(r, now)
  }

  /** `where(:failed_at => nil)`. */
  function WhereUnfailed(rows: seq<JobRow>): seq<JobRow>
  {
    if rows == [] then []
    else (if Unfailed(rows[0]) then [rows[0]] else []) + WhereUnfailed(rows[1..])
  }

  /** `where('run_at <= ?', now)`. */
  function WhereDue(rows: seq<JobRow>, now: int): seq<JobRow>
  {
    if rows == [] then []
    else (if DueBy(rows[0], now) then [rows[0]] else []) + WhereDue(rows[1..], now)
  }

  /**
   * The one-condition query, `'failed_at IS NULL and run_at <= ?'` in Active
   * Record 2 and `failed_at: nil, :run_at.lte => now` in Mongoid. It never
   * selects more rows than the table has.
   */
  function WherePending(rows: seq<JobRow>, now: int): (sel: seq<JobRow>)
    ensures |sel| <= |rows|
  {
    if rows == [] then []
    else (if IsPending(rows[0], now) then [rows[0]] else []) + WherePending(rows[1..], now)
  }

  /** The selection holds exactly the pending rows of the table, each as often as the table has it. */
  lemma {:induction false} WherePendingSelects(rows: seq<JobRow>, now: int)
    ensures forall r :: multiset(WherePending(rows, now))[r] == if IsPending(r, now) then multiset(rows)[r] else 0
  {
    if rows != [] {
      WherePendingSelects(rows[1..], now);
      assert rows == [rows[0]] + rows[1..];
    }
  }

  /** The number of pending jobs in the table. */
  function PendingCount(rows: seq<JobRow>, now: int): nat
  {
    |WherePending(rows, now)|
  }

  /** Chaining the two `where` calls of the Active Record 3 query selects the same rows as the one condition. */
  lemma {:induction false} ChainedWhereIsPending(rows: seq<JobRow>, now: int)
    ensures WhereDue(WhereUnfailed(rows), now) == WherePending(rows, now)
  {
    if rows != [] {
      ChainedWhereIsPending(rows[1..], now);
      var rest := WhereUnfailed(rows[1..]);
      if Unfailed(rows[0]) {
        var chained := [rows[0]] + rest;
        assert WhereUnfailed(rows) == chained;
        assert chained[0] == rows[0] && chained[1..] == rest;
      } else {
        assert WhereUnfailed(rows) == rest;
      }
    }
  }

  /** A job that is due stays due: the pending count never falls as time passes. */
  lemma {:induction false} PendingCountMonotone(rows: seq<JobRow>, earlier: int, later: int)
    requires earlier <= later
    ensures PendingCount(rows, earlier) <= PendingCount(rows, later)
  {
    if rows != [] {
      PendingCountMonotone(rows[1..], earlier, later);
    }
  }

  lemma WherePendingCons(r: JobRow, rest: seq<JobRow>, now: int)
    ensures WherePending([r] + rest, now) == (if IsPending(r, now) then [r] else []) + WherePending(rest, now)
  {
  }

  /** Five rows: two failed, one scheduled an hour ahead, two runnable. */
  lemma PendingCountExample(now: int)
    ensures var rows := [
        JobRow(Some(now - 10), Some(now - 100)),
        JobRow(Some(now - 5), Some(now - 50)),
        JobRow(None, Some(now + 3600)),
        JobRow(None, Some(now - 1)),
        JobRow(None, Some(now))];
      PendingCount(rows, now) == 2
  {
    var a, b, c, d, e := JobRow(Some(now - 10), Some(now - 100)), JobRow(Some(now - 5), Some(now - 50)),
      JobRow(None, Some(now + 3600)), JobRow(None, Some(now - 1)), JobRow(None, Some(now));
    WherePendingCons(e, [], now);
    WherePendingCons(d, [e], now);
    WherePendingCons(c, [d, e], now);
    WherePendingCons(b, [c, d, e], now);
    WherePendingCons(a, [b, c, d, e], now);
    assert [a] + [b, c, d, e] == [a, b, c, d, e];
    assert [b] + [c, d, e] == [b, c, d, e];
    assert [c] + [d, e] == [c, d, e];
    assert [d] + [e] == [d, e];
    assert [e] + [] == [e];
  }

  /** The query each branch of `count_delayed_job` issues. */
  datatype Query = RelationQuery | ConditionsQuery | MongoidQuery

  /** Which query is issued: Active Record (Relation or 2.x conditions) before Mongoid, or none. */
  function QueryFor(libs: Libraries, backend: string): (q: Option<Query>)
    ensures q.None? <==> StoreOf(libs, backend).None?
    ensures q == Some(MongoidQuery) <==> StoreOf(libs, backend) == Some(MongoidStore)
  {
    match StoreOf(libs, backend)
    case Some(ActiveRecordStore) => Some(if libs.activeRecordRelation then RelationQuery else ConditionsQuery)
    case Some(MongoidStore) => Some(MongoidQuery)
    case None => None
  }

  /** `.count` of the query: every branch counts exactly the pending rows. */
  function RunQuery(q: Query, rows: seq<JobRow>, now: int): (n: nat)
    ensures n == PendingCount(rows, now)
  {
    match q
    case RelationQuery =>
      ChainedWhereIsPending(rows, now);
      |WhereDue(WhereUnfailed(rows), now)|
    case ConditionsQuery => |WherePending(rows, now)|
    case MongoidQuery => |WherePending(rows, now)|
  }

  /** What `Delayed::Job` raises when the constant is not defined. */
  const MissingDelayedJob := QueryError("NameError: uninitialized constant Delayed::Job")

  /**
   * `count_delayed_job`: nil when no store is recognised. Otherwise the query
   * names `Delayed::Job`, which raises when that constant is not defined; the
   * table read may raise too; else the result is the number of pending rows.
   */
  function CountDelayedJob(rt: Runtime): (r: Result<Option<nat>, QueryError>)
    ensures r == Success(None) <==> StoreOf(rt.libs, rt.backend).None?
    ensures r.Failure? <==>
      StoreOf(rt.libs, rt.backend).Some? && (!rt.libs.delayedJob || rt.jobs.Failure?)
    ensures r.Success? && r.value.Some? ==>
      rt.libs.delayedJob && rt.jobs.Success? &&
      r.value.value == PendingCount(rt.jobs.value, rt.now) <= |rt.jobs.value|
  {
    match QueryFor(rt.libs, rt.backend)
    case None => Success(None)
    case Some(q) =>
      if !rt.libs.delayedJob then Failure(MissingDelayedJob)
      else
        match rt.jobs
        case Failure(e) => Failure(e)
        case Success(rows) => Success(Some(RunQuery(q, rows, rt.now)))
  }

  /** `nil.to_i`, `Integer#to_i` and `String#to_i`: nil reads as 0, a string of digits as its value. */
  function ToI(v: InfoValue): (r: int)
    ensures v.Nil? ==> r == 0
    ensures v.Int? ==> r == v.i
    ensures v.Str? && AllDigits(v.s) ==> r == DigitsValue(v.s)
  {
    match v
    case Nil => 0
    case Int(i) => i
    case Str(s) => StringToInt(s)
  }

  /** Hash lookup: a missing key reads as nil. */
  function Lookup(info: map<string, InfoValue>, key: string): InfoValue
  {
    if key in info then info[key] else Nil
  }

  /** `count_resque`: pending plus working from `Resque.info`, or the exception it raised. */
  function CountResque(rt: Runtime): (r: Result<int, QueryError>)
    ensures r.Failure? <==> rt.resqueInfo.Failure?
  {
    match rt.resqueInfo
    case Failure(e) => Failure(e)
    case Success(info) => Success(ToI(Lookup(info, "pending")) + ToI(Lookup(info, "working")))
  }

  /**
   * `job_count`: Delayed Job when `Delayed::Worker` is loaded, otherwise
   * Resque when it is loaded, otherwise nil; an exception from either
   * count is rescued as nil. A number it reports comes from a source that is
   * loaded and was read without raising.
   */
  function JobCount(rt: Runtime): (c: Option<int>)
    ensures c.Some? ==> rt.libs.delayedWorker || rt.libs.resque
    ensures c.Some? && rt.libs.delayedWorker ==>
      rt.libs.delayedJob && rt.jobs.Success? && 0 <= c.value <= |rt.jobs.value|
    ensures c.Some? && !rt.libs.delayedWorker ==> rt.resqueInfo.Success?
  {
    if rt.libs.delayedWorker then
      match CountDelayedJob(rt)
      case Success(Some(n)) => Some(n)
      case Success(None) => None
      case Failure(_) => None
    else if rt.libs.resque then
      match CountResque(rt)
      case Success(n) => Some(n)
      case Failure(_) => None
    else None
  }

  /**
   * With `Delayed::Worker` loaded the table is counted, whether or not Resque
   * is loaded too; the count is nil when no store matches, when
   * `Delayed::Job` is not defined, or when reading the table raises.
   */
  lemma JobCountPrefersDelayedJob(rt: Runtime)
    requires rt.libs.delayedWorker
    ensures JobCount(rt) ==
      if StoreOf(rt.libs, rt.backend).Some? && rt.libs.delayedJob && rt.jobs.Success?
      then Some(PendingCount(rt.jobs.value, rt.now) as int) else None
  {
  }

  /** Without `Delayed::Worker`, Resque's pending and working figures are added. */
  lemma JobCountFallsBackToResque(rt: Runtime)
    requires !rt.libs.delayedWorker && rt.libs.resque
    ensures JobCount(rt) ==
      match rt.resqueInfo
      case Success(info) => Some(ToI(Lookup(info, "pending")) + ToI(Lookup(info, "working")))
      case Failure(_) => None
  {
  }

  /** The count is nil exactly when no source is recognised or counting raised. */
  lemma JobCountNilIff(rt: Runtime)
    ensures JobCount(rt).None? <==>
      (rt.libs.delayedWorker &&
        (StoreOf(rt.libs, rt.backend).None? || !rt.libs.delayedJob || rt.jobs.Failure?)) ||
      (!rt.libs.delayedWorker && (!rt.libs.resque || rt.resqueInfo.Failure?))
  {
  }

  /** A count taken from the table lies between zero and the number of rows. */
  lemma DelayedJobCountBounded(rt: Runtime)
    requires rt.libs.delayedWorker && rt.jobs.Success? && JobCount(rt).Some?
    ensures 0 <= JobCount(rt).value <= |rt.jobs.value|
  {
  }

  /** pending 3 and working 2 give 5. */
  lemma ResqueCountAddsFigures(libs: Libraries, backend: string, jobs: Result<seq<JobRow>, QueryError>, now: int)
    requires !libs.delayedWorker && libs.resque
    ensures JobCount(Runtime(libs, backend, jobs, Success(map["pending" := Int(3), "working" := Int(2)]), now)) == Some(5)
  {
  }

  /** A figure given as a string is read as a number; a nil figure adds nothing. */
  lemma ResqueCountReadsStrings(libs: Libraries, backend: string, jobs: Result<seq<JobRow>, QueryError>, now: int)
    requires !libs.delayedWorker && libs.resque
    ensures JobCount(Runtime(libs, backend, jobs, Success(map["pending" := Str("3"), "working" := Nil]), now)) == Some(3)
  {
    var info := map["pending" := Str("3"), "working" := Nil];
    assert Lookup(info, "pending") == Str("3") && Lookup(info, "working") == Nil;
    DigitStringValue("3");
    assert ToI(Str("3")) == 3;
    var rt := Runtime(libs, backend, jobs, Success(info), now);
    assert CountResque(rt) == Success(3);
  }

  /** A figure missing from the hash adds nothing. */
  lemma ResqueCountMissingFigure(libs: Libraries, backend: string, jobs: Result<seq<JobRow>, QueryError>, now: int)
    requires !libs.delayedWorker && libs.resque
    ensures JobCount(Runtime(libs, backend, jobs, Success(map["pending" := Int(3)]), now)) == Some(3)
  {
  }

  /**
   * With `Delayed::Worker` and a matching store but no `Delayed::Job`, the
   * NameError the query raises is rescued: the count is nil.
   */
  lemma MissingDelayedJobGivesNil(rows: seq<JobRow>, now: int)
    ensures var libs := Libraries(true, false, false, false, true, true, false);
      JobCount(Runtime(libs, "Delayed::Backend::ActiveRecord::Job", Success(rows), Success(map[]), now)).None?
  {
    var b := "Delayed::Backend::ActiveRecord::Job";
    assert b == "Delayed::Backend::" + "ActiveRecord" + "::Job";
    assert OccursAt(b, "ActiveRecord", 18);
    ContainsIffOccurs(b, "ActiveRecord");
  }
}
