/**
 * The Rack middleware: `call` remembers the request environment and either
 * answers with itself as the body or hands the request to the wrapped
 * application; `each` then renders the body from the remembered request.
 */
module HireFireApp {
  import opened Wrappers
  import opened Host
  import opened Router
  import opened Counter
  import opened Reporter

  const TokenVariable := "HIREFIREAPP_TOKEN"

  /** What the wrapped application answers: status, headers and the chunks of its body. */
  datatype AppResponse = AppResponse(status: int, headers: map<string, string>, chunks: seq<string>)

  /**
   * The middleware's answer: `[status, headers, self]` for a request it
   * handles, or the application's answer passed on untouched.
   */
  datatype Response =
    | Handled(status: int, headers: map<string, string>, body: Middleware)
    | Forwarded(response: AppResponse)

  class Middleware {
    /** The wrapped application, seen through what it answers for an environment. */
    const app: Env -> AppResponse
    /** `ENV['HIREFIREAPP_TOKEN']` when the middleware was built; nil when unset. */
    const token: Option<string>
    /** The environment of the last request passed to `call`; nil before the first. */
    var env: Option<Env>

    constructor (app: Env -> AppResponse, processEnv: map<string, string>)
      ensures this.app == app && env.None?
      ensures token == if TokenVariable in processEnv then Some(processEnv[TokenVariable]) else None
    {
      this.app := app;
      token := if TokenVariable in processEnv then Some(processEnv[TokenVariable]) else None;
      env := None;
    }

    /**
     * `call(env)`: the test url gets a 200 html response and the info url a
     * 200 json response, both with this object as body; every other request
     * gets the application's own response.
     */
    method Call(e: Env) returns (r: Response)
      modifies this`env
      ensures env == Some(e)
      ensures PathOf(e) == Some(TestPath) ==>
        r == Handled(200, map["Content-Type" := "text/html"], this)
      ensures PathOf(e) == Some(InfoPath(token)) ==>
        r == Handled(200, map["Content-Type" := "application/json"], this)
      ensures PathOf(e) != Some(TestPath) && PathOf(e) != Some(InfoPath(token)) ==> r == Forwarded(app(e))
    {
      env := Some(e);
      match Classify(PathOf(e), token)
      case Test =>
        r := Handled(200, map["Content-Type" := "text/html"], this);
      case Info =>
        r := Handled(200, map["Content-Type" := "application/json"], this);
      case PassThrough =>
        r := Forwarded(app(e));
    }

    /**
     * `each`: the chunks yielded for the remembered request, given the state
     * of the host process: the self-test report, the job count as JSON, or
     * nothing when the request was not for this middleware.
     */
    function Each(rt: Runtime): (chunks: seq<string>)
      reads this
      requires env.Some?
      ensures PathOf(env.value) == Some(TestPath) ==> chunks == [TestBody(rt.libs, rt.backend)]
      ensures PathOf(env.value) == Some(InfoPath(token)) ==> chunks == [InfoBody(JobCount(rt))]
      ensures PathOf(env.value) != Some(TestPath) && PathOf(env.value) != Some(InfoPath(token)) ==> chunks == []
    {
      match Classify(PathOf(env.value), token)
      case Test => [TestBody(rt.libs, rt.backend)]
      case Info => [InfoBody(JobCount(rt))]
      case PassThrough => []
    }
  }

  /**
   * A Rack server's use of the middleware: `call`, then `each` on the body
   * when it is the middleware. A `StandardError` from the job query is
   * rescued, so the info request is still answered 200, with
   * `{"job_count":null}`.
   */
  method Serve(m: Middleware, e: Env, rt: Runtime) returns (status: int, chunks: seq<string>)
    modifies m`env
    ensures PathOf(e) != Some(TestPath) && PathOf(e) != Some(InfoPath(m.token)) ==>
      status == m.app(e).status && chunks == m.app(e).chunks
    ensures PathOf(e) == Some(InfoPath(m.token)) && rt.libs.delayedWorker && rt.jobs.Failure? ==>
      status == 200 && chunks == ["{\"job_count\":null}"]
    ensures PathOf(e) == Some(InfoPath(m.token)) ==>
      status == 200 && chunks == [InfoBody(JobCount(rt))]
    ensures PathOf(e) == Some(TestPath) ==> status == 200 && chunks == [TestBody(rt.libs, rt.backend)]
  {
    var r := m.Call(e);
    match r
    case Handled(s, _, body) =>
      status, chunks := s, body.Each(rt);
    case Forwarded(a) =>
      status, chunks := a.status, a.chunks;
    if PathOf(e) == Some(InfoPath(m.token)) && rt.libs.delayedWorker && rt.jobs.Failure? {
      JobCountNilIff(rt);
    }
  }
}
