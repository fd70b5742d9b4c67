/** Which requests the middleware answers itself (`test?` and `info?`). */
module Router {
  import opened Wrappers

  /** The Rack environment, reduced to its string-valued entries. */
  type Env = map<string, string>

  const TestPath := "/hirefireapp/test"

  datatype Route = Test | Info | PassThrough

  /** `env['REQUEST_PATH']`: nil when the entry is absent. */
  function PathOf(env: Env): (p: Option<string>)
    ensures p.None? <==> "REQUEST_PATH" !in env
    ensures p.Some? ==> p.value == env["REQUEST_PATH"]
  {
    if "REQUEST_PATH" in env then Some(env["REQUEST_PATH"]) else None
  }

  /** `"#{@token}"`: an unset token interpolates as the empty string. */
  function TokenText(token: Option<string>): string
  {
    match token
    case None => ""
    case Some(t) => t
  }

  /** The info url for a token. */
  function InfoPath(token: Option<string>): (p: string)
    ensures |p| == |TokenText(token)| + 18
    ensures p[..13] == "/hirefireapp/" && p[|p| - 5..] == "/info"
    ensures p[13..|p| - 5] == TokenText(token)
  {
    "/hirefireapp/" + TokenText(token) + "/info"
  }

  /**
   * The middleware's decision for a request path: `test?` is asked first,
   * then `info?`, both by whole-string equality.
   */
  function Classify(path: Option<string>, token: Option<string>): (r: Route)
    ensures r == Test <==> path == Some(TestPath)
    ensures r == Info <==> path == Some(InfoPath(token))
    ensures r == PassThrough <==> path != Some(TestPath) && path != Some(InfoPath(token))
  {
    if path == Some(TestPath) then Test
    else if path == Some(InfoPath(token)) then Info
    else PassThrough
  }

  /** No token makes the info url coincide with the test url. */
  lemma TestAndInfoDisjoint(token: Option<string>)
    ensures TestPath != InfoPath(token)
  {
  }

  /** The info url determines the token it was built from. */
  lemma InfoPathDeterminesToken(t1: Option<string>, t2: Option<string>)
    requires InfoPath(t1) == InfoPath(t2)
    ensures TokenText(t1) == TokenText(t2)
  {
  }

  /** A trailing slash is not ignored: both urls with a slash appended go to the app. */
  lemma TrailingSlashPassesThrough(token: Option<string>)
    ensures Classify(Some(TestPath + "/"), token) == PassThrough
    ensures Classify(Some(InfoPath(token) + "/"), token) == PassThrough
  {
    var p := InfoPath(token);
    assert p[|p| - 1] == p[|p| - 5..][4] == 'o';
  }

  /** Text before or after the test url (a prefix, a suffix in `REQUEST_PATH`) stops it from being the test route. */
  lemma ExtendedTestPathIsNotTest(pre: string, post: string, token: Option<string>)
    requires pre + post != ""
    ensures Classify(Some(pre + TestPath + post), token) != Test
  {
  }

  /** Likewise text before or after the info url stops it from being the info route. */
  lemma ExtendedInfoPathIsNotInfo(pre: string, post: string, token: Option<string>)
    requires pre + post != ""
    ensures Classify(Some(pre + InfoPath(token) + post), token) != Info
  {
  }

  /** A request without REQUEST_PATH is passed through. */
  lemma MissingPathPassesThrough(env: Env, token: Option<string>)
    requires "REQUEST_PATH" !in env
    ensures Classify(PathOf(env), token) == PassThrough
  {
  }

  /**
   * An unset token does not close the info url: the path with nothing between
   * the two slashes is answered, exactly as for a token set to "".
   */
  lemma UnsetTokenLeavesInfoOpen()
    ensures Classify(Some("/hirefireapp//info"), None) == Info
    ensures Classify(Some("/hirefireapp//info"), Some("")) == Info
  {
    assert InfoPath(None) == "/hirefireapp/" + "" + "/info" == "/hirefireapp//info";
  }
}
