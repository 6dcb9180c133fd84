/**
  The backend client's addressing: the base URL from the environment with its
  local fallback, normalised to end in `/api`, and the request each helper
  sends. The `fetch` itself and the JSON decoding of the reply are not modelled.
 */
module Api {
  import opened Lookup

  /** The fallback backend. */
  const DefaultBase: string := "http://localhost:3333/api"

  const ApiSuffix: string := "/api"

  predicate EndsWith(s: string, suffix: string) {
    |suffix| <= |s| && s[|s| - |suffix|..] == suffix
  }

  /** `process.env.NEXT_PUBLIC_API_URL || fallback`: an unset or empty variable falls back. */
  function Base(env: Option<string>): (b: string)
    ensures env.None? || env.value == "" ==> b == DefaultBase
    ensures env.Some? && env.value != "" ==> b == env.value
    ensures b != ""
  {
    match env
    case Some(s) => if s != "" then s else DefaultBase
    case None => DefaultBase
  }

  /** `base.endsWith("/api") ? base : base + "/api"` */
  function Normalize(base: string): (a: string)
    ensures EndsWith(a, ApiSuffix)
    ensures EndsWith(base, ApiSuffix) ==> a == base
    ensures !EndsWith(base, ApiSuffix) ==> |a| == |base| + |ApiSuffix| && a[..|base|] == base
  {
    if EndsWith(base, ApiSuffix) then base
    else
      var a := base + ApiSuffix;
      assert a[|a| - |ApiSuffix|..] == ApiSuffix;
      a
  }

  /** Normalising twice is normalising once. */
  lemma NormalizeIdempotent(base: string)
    ensures Normalize(Normalize(base)) == Normalize(base)
  {
  }

  /** The default base is already normalised. */
  lemma DefaultIsNormal()
    ensures Normalize(Base(None)) == DefaultBase
  {
    assert DefaultBase[|DefaultBase| - |ApiSuffix|..] == ApiSuffix;
  }

  datatype Verb = Get | Post | Delete

  /** What a helper hands to `fetch`: the HTTP method, the URL, and whether a JSON body is sent. */
  datatype Request = Request(httpMethod: string, url: string, jsonBody: bool, noCache: bool)

  /** `apiGet`, `apiPost` and `apiDelete`: the normalised base followed by the path, verbatim. */
  function RequestFor(env: Option<string>, verb: Verb, path: string): (r: Request)
    ensures |r.url| == |Normalize(Base(env))| + |path|
    ensures r.url[..|Normalize(Base(env))|] == Normalize(Base(env))
    ensures r.url[|Normalize(Base(env))|..] == path
    ensures r.jsonBody <==> verb == Post
    ensures r.noCache <==> verb == Get
    ensures r.httpMethod == (match verb case Get => "GET" case Post => "POST" case Delete => "DELETE")
  {
    var url := Normalize(Base(env)) + path;
    match verb
    case Get => Request("GET", url, false, true)
    case Post => Request("POST", url, true, false)
    case Delete => Request("DELETE", url, false, false)
  }
}
