/**
 * What the self-test reports about the installation: the `worker` and
 * `mapper` names and the `ok` summary, decided from which libraries are
 * loaded and from the configured Delayed Job backend.
 */
module Detector {
  import opened Wrappers
  import opened Host
  import opened Text

  const NotFound := "Not Found"

  /** The persistence layer behind Delayed Job. */
  datatype Store = ActiveRecordStore | MongoidStore

  /**
   * The store Delayed Job is using: Active Record when it is loaded and the
   * backend name mentions it, otherwise Mongoid under the same test, otherwise
   * none. `count_delayed_job` and `mapper` make this same decision.
   */
  function StoreOf(libs: Libraries, backend: string): Option<Store>
  {
    if libs.activeRecord && Contains(backend, "ActiveRecord") then Some(ActiveRecordStore)
    else if libs.mongoid && Contains(backend, "Mongoid") then Some(MongoidStore)
    else None
  }

  /**
   * The store is Active Record exactly when Active Record is loaded and its
   * name occurs in the backend name; Mongoid exactly when that fails and
   * Mongoid is loaded and named; otherwise there is none.
   */
  lemma StoreOfMatchesBackend(libs: Libraries, backend: string)
    ensures StoreOf(libs, backend) == Some(ActiveRecordStore) <==>
      libs.activeRecord && exists i :: OccursAt(backend, "ActiveRecord", i)
    ensures StoreOf(libs, backend) == Some(MongoidStore) <==>
      !(libs.activeRecord && exists i :: OccursAt(backend, "ActiveRecord", i)) &&
      libs.mongoid && exists i :: OccursAt(backend, "Mongoid", i)
  {
    ContainsIffOccurs(backend, "ActiveRecord");
    ContainsIffOccurs(backend, "Mongoid");
  }

  /** `worker`: Delayed Job is recognised by `Delayed::Job`, then Resque. */
  function Worker(libs: Libraries): (w: string)
    ensures w in {"Delayed Job", "Resque", NotFound}
    ensures w == "Delayed Job" <==> libs.delayedJob
    ensures w == "Resque" <==> !libs.delayedJob && libs.resque
  {
    if libs.delayedJob then "Delayed Job"
    else if libs.resque then "Resque"
    else NotFound
  }

  /** `mapper`: Redis when both Redis and Resque are loaded, otherwise Delayed Job's store. */
  function Mapper(libs: Libraries, backend: string): (m: string)
    ensures m in {"Redis", "Active Record", "Mongoid", NotFound}
    ensures m == "Redis" <==> libs.redis && libs.resque
    ensures m == NotFound <==>
      !(libs.redis && libs.resque) && (!libs.delayedWorker || StoreOf(libs, backend).None?)
    ensures m == "Active Record" <==>
      !(libs.redis && libs.resque) && libs.delayedWorker && StoreOf(libs, backend) == Some(ActiveRecordStore)
    ensures m == "Mongoid" <==>
      !(libs.redis && libs.resque) && libs.delayedWorker && StoreOf(libs, backend) == Some(MongoidStore)
  {
    if libs.redis && libs.resque then "Redis"
    else if libs.delayedWorker then
      match StoreOf(libs, backend)
      case Some(ActiveRecordStore) => "Active Record"
      case Some(MongoidStore) => "Mongoid"
      case None => NotFound
    else NotFound
  }

  /** A string without the letter c contains no pattern that starts with c. */
  lemma {:induction false} ContainsNeedsFirstChar(s: string, p: string)
    requires |p| > 0 && p[0] !in s
    ensures !Contains(s, p)
    decreases |s|
  {
    if |s| > 0 {
      assert s[0] != p[0];
      ContainsNeedsFirstChar(s[1..], p);
    }
  }

  /** Among the names `worker` and `mapper` produce, only "Not Found" matches /Not Found/. */
  lemma ReportedNameMatchesNotFound(name: string)
    requires name == "Delayed Job" || name == "Resque" || name == "Redis" ||
             name == "Active Record" || name == "Mongoid" || name == NotFound
    ensures Contains(name, NotFound) <==> name == NotFound
  {
    if name == NotFound {
      assert name[..|NotFound|] == NotFound;
    } else {
      assert 'N' !in name;
      ContainsNeedsFirstChar(name, NotFound);
    }
  }

  /** `ok`: "OK" unless either name matches /Not Found/. */
  function Ok(libs: Libraries, backend: string): (s: string)
    ensures s == "OK" || s == "Incomplete"
    ensures s == "OK" <==> Worker(libs) != NotFound && Mapper(libs, backend) != NotFound
  {
    ReportedNameMatchesNotFound(Worker(libs));
    ReportedNameMatchesNotFound(Mapper(libs, backend));
    if Contains(Mapper(libs, backend), NotFound) || Contains(Worker(libs), NotFound) then "Incomplete"
    else "OK"
  }

  /** The installation is reported complete exactly when these libraries are present. */
  lemma OkIffInstalled(libs: Libraries, backend: string)
    ensures Ok(libs, backend) == "OK" <==>
      (libs.delayedJob || libs.resque) &&
      ((libs.redis && libs.resque) || (libs.delayedWorker && StoreOf(libs, backend).Some?))
  {
  }

  /** Redis with Resque is named as the mapper even when Delayed Job is also loaded. */
  lemma MapperPrefersRedis(libs: Libraries, backend: string)
    requires libs.redis && libs.resque && libs.delayedWorker && StoreOf(libs, backend).Some?
    ensures Mapper(libs, backend) == "Redis"
  {
  }

  /**
   * `worker` looks at `Delayed::Job`, `mapper` at `Delayed::Worker`: with only
   * `Delayed::Worker` and Active Record loaded the mapper is found but the
   * worker is not.
   */
  lemma WorkerIgnoresDelayedWorker()
    ensures var libs := Libraries(true, false, false, false, true, true, false);
      Worker(libs) == NotFound && Mapper(libs, "Delayed::Backend::ActiveRecord::Job") == "Active Record" &&
      Ok(libs, "Delayed::Backend::ActiveRecord::Job") == "Incomplete"
  {
    var b := "Delayed::Backend::ActiveRecord::Job";
    assert b == "Delayed::Backend::" + "ActiveRecord" + "::Job";
    assert OccursAt(b, "ActiveRecord", 18);
    ContainsIffOccurs(b, "ActiveRecord");
  }

  /** With nothing loaded both names are "Not Found" and the summary is "Incomplete". */
  lemma NothingLoadedIsIncomplete(backend: string)
    ensures var libs := Libraries(false, false, false, false, false, false, false);
      Worker(libs) == NotFound && Mapper(libs, backend) == NotFound && Ok(libs, backend) == "Incomplete"
  {
  }
}
