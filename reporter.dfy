/** The two response bodies that `each` yields. */
module Reporter {
  import opened Wrappers
  import opened Host
  import opened Text
  import opened Detector

  const TestBodyPrefix := "[HireFireApp: "
  const InfoBodyPrefix := "{\"job_count\":"

  /**
   * The self-test line for a summary, a worker name and a mapper name: each
   * piece stands at its own place, between the fixed labels.
   */
  function Report(ok: string, worker: string, mapper: string): (r: string)
    ensures |r| == 35 + |ok| + |worker| + |mapper|
    ensures r[..14] == TestBodyPrefix && r[14..14 + |ok|] == ok
    ensures r[14 + |ok|..24 + |ok|] == "] Worker: "
    ensures r[24 + |ok|..] == worker + " - Mapper: " + mapper
    ensures r[24 + |ok|..24 + |ok| + |worker|] == worker
    ensures r[35 + |ok| + |worker|..] == mapper
  {
    var r := TestBodyPrefix + ok + "] Worker: " + worker + " - Mapper: " + mapper;
    assert r == TestBodyPrefix + (ok + ("] Worker: " + (worker + " - Mapper: " + mapper)));
    r
  }

  /** Two summaries, worker names and mapper names that give the same line are the same. */
  lemma ReportDeterminesNames(ok1: string, worker1: string, mapper1: string,
                              ok2: string, worker2: string, mapper2: string)
    requires ok1 == "OK" || ok1 == "Incomplete"
    requires ok2 == "OK" || ok2 == "Incomplete"
    requires worker1 == "Delayed Job" || worker1 == "Resque" || worker1 == NotFound
    requires worker2 == "Delayed Job" || worker2 == "Resque" || worker2 == NotFound
    requires Report(ok1, worker1, mapper1) == Report(ok2, worker2, mapper2)
    ensures ok1 == ok2 && worker1 == worker2 && mapper1 == mapper2
  {
    var r := Report(ok1, worker1, mapper1);
    assert r[14] == ok1[0] == ok2[0];
    var k := 24 + |ok1|;
    assert r[k] == worker1[0] == worker2[0];
  }

  lemma ReportShape(ok: string, worker: string, mapper: string)
    requires ok == "OK" || ok == "Incomplete"
    ensures var r := Report(ok, worker, mapper);
      |r| > 24 + |ok| && r[..14] == TestBodyPrefix && (r[14..16] == "OK" <==> ok == "OK") &&
      r[24 + |ok|..] == worker + " - Mapper: " + mapper
  {
    var r := Report(ok, worker, mapper);
    assert r[14..16] == ok[..2];
    assert "Incomplete"[..2] == "In";
  }

  /**
   * The self-test report, `[HireFireApp: <ok>] Worker: <worker> - Mapper: <mapper>`.
   * It opens with "[HireFireApp: OK" exactly when `ok` is "OK", and after the
   * summary it names the worker and then the mapper.
   */
  function TestBody(libs: Libraries, backend: string): (body: string)
    ensures |body| > 16 && body[..14] == TestBodyPrefix
    ensures body[14..16] == "OK" <==> Ok(libs, backend) == "OK"
    ensures |body| > 24 + |Ok(libs, backend)|
    ensures body[24 + |Ok(libs, backend)|..] == Worker(libs) + " - Mapper: " + Mapper(libs, backend)
  {
    var ok, worker, mapper := Ok(libs, backend), Worker(libs), Mapper(libs, backend);
    ReportShape(ok, worker, mapper);
    Report(ok, worker, mapper)
  }

  /** The self-test report determines the summary, the worker and the mapper it names. */
  lemma TestBodyDeterminesNames(libs1: Libraries, backend1: string, libs2: Libraries, backend2: string)
    requires TestBody(libs1, backend1) == TestBody(libs2, backend2)
    ensures Ok(libs1, backend1) == Ok(libs2, backend2)
    ensures Worker(libs1) == Worker(libs2) && Mapper(libs1, backend1) == Mapper(libs2, backend2)
  {
    ReportDeterminesNames(Ok(libs1, backend1), Worker(libs1), Mapper(libs1, backend1),
                          Ok(libs2, backend2), Worker(libs2), Mapper(libs2, backend2));
  }

  /** The JSON text of the count: its digits, or `null` for nil (0 is a number, not nil). */
  function CountText(count: Option<int>): (s: string)
    ensures |s| > 0 && (s[0] == 'n' <==> count.None?)
  {
    match count
    case None => "null"
    case Some(n) => IntToString(n)
  }

  /** Framing a count's text between the info prefix and `}`. */
  lemma InfoFrame(text: string)
    requires |text| > 0
    ensures var b := InfoBodyPrefix + text + "}";
      |b| > 14 && b[..13] == InfoBodyPrefix && b[|b| - 1] == '}' && b[13..|b| - 1] == text &&
      (b == "{\"job_count\":null}" <==> text == "null")
  {
    var b := InfoBodyPrefix + text + "}";
    assert b[13..|b| - 1] == text;
    assert "{\"job_count\":null}" == InfoBodyPrefix + "null" + "}";
  }

  /** The info body, `{"job_count":N}` or `{"job_count":null}`. */
  function InfoBody(count: Option<int>): (body: string)
    ensures |body| > 14 && body[..13] == InfoBodyPrefix && body[|body| - 1] == '}'
    ensures body[13..|body| - 1] == CountText(count)
    ensures body == "{\"job_count\":null}" <==> count.None?
  {
    var text := CountText(count);
    InfoFrame(text);
    assert text == "null" ==> count.None? by {
      if text == "null" {
        assert text[0] == 'n';
      }
    }
    InfoBodyPrefix + text + "}"
  }

  /** The info body determines the count it reports. */
  lemma InfoBodyInjective(a: Option<int>, b: Option<int>)
    requires InfoBody(a) == InfoBody(b)
    ensures a == b
  {
    if a.Some? && b.Some? {
      IntToStringInjective(a.value, b.value);
    }
  }

  /** A count of zero is reported as 0, not as null. */
  lemma ZeroIsReportedAsNumber()
    ensures InfoBody(Some(0)) == "{\"job_count\":0}"
  {
  }

  /** The report opens with "[HireFireApp: OK" exactly when both a worker and a mapper were found. */
  lemma ReportSaysOkIffFound(libs: Libraries, backend: string)
    ensures TestBody(libs, backend)[14..16] == "OK" <==>
      Worker(libs) != NotFound && Mapper(libs, backend) != NotFound
  {
  }

  /** With nothing installed the self-test names nothing and says it is incomplete. */
  lemma NothingInstalledReport(backend: string)
    ensures TestBody(Libraries(false, false, false, false, false, false, false), backend) ==
      "[HireFireApp: Incomplete] Worker: Not Found - Mapper: Not Found"
  {
    NothingLoadedIsIncomplete(backend);
    assert TestBodyPrefix + "Incomplete" == "[HireFireApp: Incomplete";
    assert "[HireFireApp: Incomplete" + "] Worker: " == "[HireFireApp: Incomplete] Worker: ";
    assert "[HireFireApp: Incomplete] Worker: " + NotFound == "[HireFireApp: Incomplete] Worker: Not Found";
    assert "[HireFireApp: Incomplete] Worker: Not Found" + " - Mapper: " ==
      "[HireFireApp: Incomplete] Worker: Not Found - Mapper: ";
    assert "[HireFireApp: Incomplete] Worker: Not Found - Mapper: " + NotFound ==
      "[HireFireApp: Incomplete] Worker: Not Found - Mapper: Not Found";
  }
}
