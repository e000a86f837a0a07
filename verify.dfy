/** Verifying a positive assertion (src/openid/verify.go, after sections
    11.1 to 11.4 of OpenID Authentication 2.0). Four stages run in order and
    the first failure ends the run: the return_to URL must match the
    request, the asserted identifiers must agree with discovered
    information, the response nonce must be new, and the provider must
    confirm the signature through a check_authentication POST. URL and
    query parsing, the discovery cache, discovery, the nonce store and the
    POST are capabilities in an environment; what the run asks of the
    outside world is recorded as a call trace. */
module Verify {
  import opened Wrappers
  import opened Web
  import opened Strings
  import DiscoveryCache
  import Redirect
  import opened Protocol

  type DiscoveredInfo = DiscoveryCache.DiscoveredInfo


  /** Why an assertion is refused. */
  datatype VerifyError =
    | UrlError(msg: string)                                  // url.Parse or url.ParseQuery failed
    | ReturnToMismatch                                       // scheme, host or path differ
    | QueryParamMismatch(key: string, v1: string, v2: string)
    | BadProtocolVersion
    | MissingOpEndpoint
    | MissingIdentity
    | MissingClaimedId
    | ClaimedIdNotVerified                                   // discovery does not back the claim
    | LocalIdMismatch                                        // identity differs from the cached local id
    | NonceRejected(msg: string)                             // the nonce store's error
    | PostFailed(msg: string)                                // the check_authentication POST failed
    | AssertionNotConfirmed                                  // the provider did not confirm it

  /** The capabilities verification uses: `url.Parse`, `url.ParseQuery`,
      the discovery cache's `Get`, `discover`, the nonce store's `Accept`
      (an error message or nothing), and the form POST. */
  datatype Env = Env(
    parseUrl: string -> Result<Url>,
    parseQuery: string -> Result<Values>,
    cacheGet: string -> Option<DiscoveredInfo>,
    discover: Redirect.Discoverer,
    accept: (string, string) -> Option<string>,
    post: Poster)

  /** The outcome of a stage: its error, if any, and the calls it made. */
  datatype Stage = Stage(err: Option<VerifyError>, calls: seq<Call>)

  // ---------------------------------------------------------------------
  // 11.1: the return URL

  /** Every key of `q1` has the same first value in `q2` (a missing key reads
      as ""); `q2` may have more keys. */
  predicate QueryIncluded(q1: Values, q2: Values) {
    forall k :: k in q1 ==> Get(q1, k) == Get(q2, k)
  }

  /** `compareQueryParams`. Go visits the keys of a map in no fixed order, so
      which mismatching key is reported is left open. */
  method CompareQueryParams(q1: Values, q2: Values) returns (err: Option<VerifyError>)
    ensures err.None? <==> QueryIncluded(q1, q2)
    ensures err.Some? ==>
      && err.value.QueryParamMismatch? && err.value.key in q1
      && err.value.v1 == Get(q1, err.value.key) && err.value.v2 == Get(q2, err.value.key)
      && err.value.v1 != err.value.v2
  {
    var remaining := q1.Keys;
    while remaining != {}
      invariant remaining <= q1.Keys
      invariant forall k :: k in q1 && k !in remaining ==> Get(q1, k) == Get(q2, k)
      decreases remaining
    {
      var k :| k in remaining;
      var v1 := Get(q1, k);
      var v2 := Get(q2, k);
      if v1 != v2 {
        return Some(QueryParamMismatch(k, v1, v2));
      }
      remaining := remaining - {k};
    }
    return None;
  }

  /** The return_to check of section 11.1: return_to parses, has the
      request's scheme, host and path, its query parses, and each of its
      parameters has the same value in the request. */
  predicate ReturnToValid(u: Url, vals: Values, env: Env) {
    var rp := env.parseUrl(Get(vals, "openid.return_to"));
    && rp.Ok?
    && u.scheme == rp.value.scheme && u.host == rp.value.host && u.path == rp.value.path
    && env.parseQuery(rp.value.rawQuery).Ok?
    && QueryIncluded(env.parseQuery(rp.value.rawQuery).value, vals)
  }

  /** `e` is an error the return_to check can refuse with: the parse error
      of return_to, a scheme, host or path mismatch, the parse error of its
      query, or a parameter of that query whose value in the request differs
      (which one is left open, as Go's map order is). */
  predicate ReturnToRefusal(u: Url, vals: Values, env: Env, e: VerifyError) {
    var rp := env.parseUrl(Get(vals, "openid.return_to"));
    if rp.Err? then e == UrlError(rp.error)
    else if u.scheme != rp.value.scheme || u.host != rp.value.host || u.path != rp.value.path then e == ReturnToMismatch
    else
      var qp := env.parseQuery(rp.value.rawQuery);
      if qp.Err? then e == UrlError(qp.error)
      else
        && e.QueryParamMismatch? && e.key in qp.value
        && e.v1 == Get(qp.value, e.key) && e.v2 == Get(vals, e.key) && e.v1 != e.v2
  }

  /** `verifyReturnTo`. */
  method VerifyReturnTo(u: Url, vals: Values, env: Env) returns (err: Option<VerifyError>)
    ensures err.None? <==> ReturnToValid(u, vals, env)
    ensures err.Some? ==> ReturnToRefusal(u, vals, env, err.value)
    ensures var rp := env.parseUrl(Get(vals, "openid.return_to"));
      && (rp.Err? ==> err == Some(UrlError(rp.error)))
      && (rp.Ok? && (u.scheme != rp.value.scheme || u.host != rp.value.host || u.path != rp.value.path) ==>
            err == Some(ReturnToMismatch))
  {
    var returnTo := Get(vals, "openid.return_to");
    var rp := env.parseUrl(returnTo);
    if rp.Err? {
      return Some(UrlError(rp.error));
    }
    if u.scheme != rp.value.scheme || u.host != rp.value.host || u.path != rp.value.path {
      return Some(ReturnToMismatch);
    }
    var qp := env.parseQuery(rp.value.rawQuery);
    if qp.Err? {
      return Some(UrlError(qp.error));
    }
    err := CompareQueryParams(qp.value, vals);
  }

  // ---------------------------------------------------------------------
  // 11.2: discovered information

  /** The cache entry settles the claim without new discovery: it exists,
      its claimed id is not identifier_select, and it is the asserted claimed
      id with any fragment cut off. */
  predicate CacheConfirms(cached: Option<DiscoveredInfo>, claimedIdVerify: string) {
    cached.Some? && cached.value.claimedID != IdentifierSelect && claimedIdVerify == cached.value.claimedID
  }

  /** The fields section 11.2 needs are there and the protocol is 2.0. */
  predicate FieldsPresent(vals: Values) {
    && Get(vals, "openid.ns") == OpenIdNs
    && Get(vals, "openid.op_endpoint") != ""
    && Get(vals, "openid.identity") != ""
    && Get(vals, "openid.claimed_id") != ""
  }

  /** `verifyDiscovered`. The cache is looked up by the asserted endpoint and
      never written. It fails closed: it accepts only with every field
      present and either a cache entry for the claimed id whose local id is
      the asserted identity, or a discovery of the (unstripped) claimed id
      that finds the asserted endpoint; discovery runs only when the cache
      does not settle the claim. */
  function VerifyDiscovered(vals: Values, cacheGet: string -> Option<DiscoveredInfo>, discover: Redirect.Discoverer): (s: Stage)
    ensures s.err.None? ==> FieldsPresent(vals)
    ensures Get(vals, "openid.ns") != OpenIdNs ==> s.err == Some(BadProtocolVersion)
    ensures Get(vals, "openid.ns") == OpenIdNs && Get(vals, "openid.op_endpoint") == "" ==> s.err == Some(MissingOpEndpoint)
    ensures (Get(vals, "openid.ns") == OpenIdNs && Get(vals, "openid.op_endpoint") != ""
             && Get(vals, "openid.identity") == "") ==> s.err == Some(MissingIdentity)
    ensures (Get(vals, "openid.ns") == OpenIdNs && Get(vals, "openid.op_endpoint") != "" && Get(vals, "openid.identity") != ""
             && Get(vals, "openid.claimed_id") == "") ==> s.err == Some(MissingClaimedId)
    ensures s.err.None? ==>
      var endpoint := Get(vals, "openid.op_endpoint");
      var claimedId := Get(vals, "openid.claimed_id");
      || (CacheConfirms(cacheGet(endpoint), CutAt(claimedId, '#'))
          && Get(vals, "openid.identity") == cacheGet(endpoint).value.opLocalID)
      || (discover(claimedId).Ok? && discover(claimedId).value.opEndpoint == endpoint)
    ensures s.calls == [] || s.calls == [Discover(Get(vals, "openid.claimed_id"))]
    ensures s.calls != [] <==>
      FieldsPresent(vals)
      && !CacheConfirms(cacheGet(Get(vals, "openid.op_endpoint")), CutAt(Get(vals, "openid.claimed_id"), '#'))
  {
    var version := Get(vals, "openid.ns");
    var endpoint := Get(vals, "openid.op_endpoint");
    var localId := Get(vals, "openid.identity");
    var claimedId := Get(vals, "openid.claimed_id");
    if version != OpenIdNs then Stage(Some(BadProtocolVersion), [])
    else if |endpoint| == 0 then Stage(Some(MissingOpEndpoint), [])
    else if |localId| == 0 then Stage(Some(MissingIdentity), [])
    else if |claimedId| == 0 then Stage(Some(MissingClaimedId), [])
    else
      var claimedIdVerify := CutAt(claimedId, '#');
      var discovered := cacheGet(endpoint);
      if !CacheConfirms(discovered, claimedIdVerify) then
        var found := discover(claimedId);
        if found.Ok? && found.value.opEndpoint == endpoint then Stage(None, [Discover(claimedId)])
        else Stage(Some(ClaimedIdNotVerified), [Discover(claimedId)])
      else if localId != discovered.value.opLocalID then Stage(Some(LocalIdMismatch), [])
      else Stage(None, [])
  }

  /** When the cache settles the claim, the identity alone decides, and no
      discovery runs. */
  lemma CacheHitDecides(vals: Values, cacheGet: string -> Option<DiscoveredInfo>, discover: Redirect.Discoverer)
    requires FieldsPresent(vals)
    requires CacheConfirms(cacheGet(Get(vals, "openid.op_endpoint")), CutAt(Get(vals, "openid.claimed_id"), '#'))
    ensures var cached := cacheGet(Get(vals, "openid.op_endpoint")).value;
      VerifyDiscovered(vals, cacheGet, discover)
        == Stage(if Get(vals, "openid.identity") == cached.opLocalID then None else Some(LocalIdMismatch), [])
  {
  }

  /** Otherwise discovery of the claimed id, fragment included, decides: the
      assertion passes exactly when it finds the asserted endpoint. */
  lemma CacheMissDiscovers(vals: Values, cacheGet: string -> Option<DiscoveredInfo>, discover: Redirect.Discoverer)
    requires FieldsPresent(vals)
    requires !CacheConfirms(cacheGet(Get(vals, "openid.op_endpoint")), CutAt(Get(vals, "openid.claimed_id"), '#'))
    ensures var claimedId := Get(vals, "openid.claimed_id");
      var s := VerifyDiscovered(vals, cacheGet, discover);
      && s.calls == [Discover(claimedId)]
      && (s.err.None? <==> discover(claimedId).Ok? && discover(claimedId).value.opEndpoint == Get(vals, "openid.op_endpoint"))
      && (s.err.Some? ==> s.err == Some(ClaimedIdNotVerified))
  {
  }

  // ---------------------------------------------------------------------
  // 11.3: the nonce

  /** `verifyNonce`: hand the response nonce to the store under the value of
      the `openid.endpoint` parameter. */
  function VerifyNonce(vals: Values, accept: (string, string) -> Option<string>): (s: Stage)
    ensures var endpoint := Get(vals, "openid.endpoint");
      var nonce := Get(vals, "openid.response_nonce");
      && s.calls == [AcceptNonce(endpoint, nonce)]
      && (s.err.None? <==> accept(endpoint, nonce).None?)
      && (accept(endpoint, nonce).Some? ==> s.err == Some(NonceRejected(accept(endpoint, nonce).value)))
  {
    var nonce := Get(vals, "openid.response_nonce");
    var endpoint := Get(vals, "openid.endpoint");
    match accept(endpoint, nonce)
    case None => Stage(None, [AcceptNonce(endpoint, nonce)])
    case Some(msg) => Stage(Some(NonceRejected(msg)), [AcceptNonce(endpoint, nonce)])
  }

  /** The store is keyed by `openid.endpoint`, not by `openid.op_endpoint`:
      an assertion without that parameter files its nonce under "",
      whichever provider sent it. */
  lemma NonceKeyedByEndpointParameter(vals: Values, accept: (string, string) -> Option<string>)
    requires "openid.endpoint" !in vals
    ensures VerifyNonce(vals, accept).calls == [AcceptNonce("", Get(vals, "openid.response_nonce"))]
  {
  }

  // ---------------------------------------------------------------------
  // 11.4: the signature, checked by the provider

  /** The check_authentication parameters of section 11.4.2.1: mode is
      `check_authentication`, and every other parameter of the assertion is
      copied with all its values (a key with no values is not copied). */
  function CheckAuthParams(vals: Values): (p: Values)
    ensures "openid.mode" in p && p["openid.mode"] == ["check_authentication"]
    ensures forall k :: k != "openid.mode" ==> (k in p <==> k in vals && |vals[k]| > 0)
    ensures forall k :: k != "openid.mode" && k in p ==> p[k] == vals[k]
  {
    (map k | k in vals && k != "openid.mode" && |vals[k]| > 0 :: vals[k])["openid.mode" := ["check_authentication"]]
  }

  /** Append every value of `vs` to the key `k`, which `params` lacks. */
  method AddAll(params: Values, k: string, vs: seq<string>) returns (r: Values)
    requires k !in params
    ensures r == if |vs| == 0 then params else params[k := vs]
  {
    r := params;
    for j := 0 to |vs|
      invariant r == if j == 0 then params else params[k := vs[..j]]
    {
      assert vs[..j + 1] == vs[..j] + [vs[j]];
      r := Add(r, k, vs[j]);
    }
    assert vs[..|vs|] == vs;
  }

  /** The provider confirms the assertion: one line reads `is_valid:true` and
      one reads the 2.0 namespace. */
  predicate ConfirmsAssertion(lines: seq<string>) {
    IsValidLine in lines && NsLine in lines
  }

  /** The scan of the provider's response lines. */
  method ScanResponse(lines: seq<string>) returns (ok: bool)
    ensures ok <==> ConfirmsAssertion(lines)
  {
    var isValid, nsValid := false, false;
    for i := 0 to |lines|
      invariant isValid <==> IsValidLine in lines[..i]
      invariant nsValid <==> NsLine in lines[..i]
    {
      assert lines[..i + 1] == lines[..i] + [lines[i]];
      if lines[i] == IsValidLine {
        isValid := true;
      } else if lines[i] == NsLine {
        nsValid := true;
      }
    }
    assert lines[..|lines|] == lines;
    return isValid && nsValid;
  }

  /** The signature check passes: the POST succeeds and its body confirms. */
  predicate SignatureConfirmed(vals: Values, post: Poster) {
    var resp := post(Get(vals, "openid.op_endpoint"), CheckAuthParams(vals));
    resp.Ok? && ConfirmsAssertion(Split(resp.value, '\n'))
  }

  /** `verifySignature`: POST the check_authentication request to the
      asserted endpoint and scan the response body line by line. */
  method VerifySignature(vals: Values, post: Poster) returns (err: Option<VerifyError>, calls: seq<Call>)
    ensures calls == [HttpPost(Get(vals, "openid.op_endpoint"), CheckAuthParams(vals))]
    ensures err.None? <==> SignatureConfirmed(vals, post)
    ensures var resp := post(Get(vals, "openid.op_endpoint"), CheckAuthParams(vals));
      && (resp.Err? ==> err == Some(PostFailed(resp.error)))
      && (resp.Ok? && err.Some? ==> err == Some(AssertionNotConfirmed))
  {
    var params: Values := map[];
    params := Add(params, "openid.mode", "check_authentication");
    var remaining := vals.Keys;
    while remaining != {}
      invariant remaining <= vals.Keys
      invariant params == (map k | k in vals && k !in remaining && k != "openid.mode" && |vals[k]| > 0 :: vals[k])
                            ["openid.mode" := ["check_authentication"]]
      decreases remaining
    {
      var k :| k in remaining;
      remaining := remaining - {k};
      if k == "openid.mode" {
        continue;
      }
      params := AddAll(params, k, vals[k]);
    }
    assert params == CheckAuthParams(vals);
    var endpoint := Get(vals, "openid.op_endpoint");
    calls := [HttpPost(endpoint, params)];
    var resp := post(endpoint, params);
    if resp.Err? {
      return Some(PostFailed(resp.error)), calls;
    }
    var lines := Split(resp.value, '\n');
    var ok := ScanResponse(lines);
    if ok {
      return None, calls;
    }
    return Some(AssertionNotConfirmed), calls;
  }

  // ---------------------------------------------------------------------
  // The pipeline

  /** The request URL and its query parse. */
  predicate Parsed(uri: string, env: Env) {
    env.parseUrl(uri).Ok? && env.parseQuery(env.parseUrl(uri).value.rawQuery).Ok?
  }

  /** The query parameters of a parsed request. */
  function Params(uri: string, env: Env): Values
    requires Parsed(uri, env)
  {
    env.parseQuery(env.parseUrl(uri).value.rawQuery).value
  }

  /** All four conditions of section 11 hold. */
  predicate Accepted(uri: string, env: Env) {
    && Parsed(uri, env)
    && var vals := Params(uri, env);
    && ReturnToValid(env.parseUrl(uri).value, vals, env)
    && VerifyDiscovered(vals, env.cacheGet, env.discover).err.None?
    && VerifyNonce(vals, env.accept).err.None?
    && SignatureConfirmed(vals, env.post)
  }

  /** The calls a run makes, stage by stage, up to the first failure. */
  function Trace(uri: string, env: Env): seq<Call> {
    if !Parsed(uri, env) then []
    else
      var vals := Params(uri, env);
      if !ReturnToValid(env.parseUrl(uri).value, vals, env) then []
      else
        var d := VerifyDiscovered(vals, env.cacheGet, env.discover);
        if d.err.Some? then d.calls
        else
          var n := VerifyNonce(vals, env.accept);
          if n.err.Some? then d.calls + n.calls
          else d.calls + n.calls + [HttpPost(Get(vals, "openid.op_endpoint"), CheckAuthParams(vals))]
  }

  /** `e` is the error of the first stage that fails: the request URL or
      its query does not parse, return_to is refused, discovered
      information does not back the claim, the store refuses the nonce, the
      POST fails, or the provider does not confirm. */
  predicate FirstFailure(uri: string, env: Env, e: VerifyError) {
    var pu := env.parseUrl(uri);
    if pu.Err? then e == UrlError(pu.error)
    else
      var pq := env.parseQuery(pu.value.rawQuery);
      if pq.Err? then e == UrlError(pq.error)
      else
        var vals := pq.value;
        if !ReturnToValid(pu.value, vals, env) then ReturnToRefusal(pu.value, vals, env, e)
        else
          var d := VerifyDiscovered(vals, env.cacheGet, env.discover);
          if d.err.Some? then e == d.err.value
          else
            var n := VerifyNonce(vals, env.accept);
            if n.err.Some? then e == n.err.value
            else
              var resp := env.post(Get(vals, "openid.op_endpoint"), CheckAuthParams(vals));
              if resp.Err? then e == PostFailed(resp.error)
              else !ConfirmsAssertion(Split(resp.value, '\n')) && e == AssertionNotConfirmed
  }

  /** `verify`: the claimed id (fragment included) when all four stages
      pass, and "" with the first stage's error otherwise. */
  method Verify(uri: string, env: Env) returns (id: string, err: Option<VerifyError>, calls: seq<Call>)
    ensures err.None? <==> Accepted(uri, env)
    ensures err.Some? ==> id == "" && FirstFailure(uri, env, err.value)
    ensures err.None? ==> id == Get(Params(uri, env), "openid.claimed_id")
    ensures calls == Trace(uri, env)
  {
    var parsedUrl := env.parseUrl(uri);
    if parsedUrl.Err? {
      return "", Some(UrlError(parsedUrl.error)), [];
    }
    var values := env.parseQuery(parsedUrl.value.rawQuery);
    if values.Err? {
      return "", Some(UrlError(values.error)), [];
    }
    var vals := values.value;
    err := VerifyReturnTo(parsedUrl.value, vals, env);
    if err.Some? {
      return "", err, [];
    }
    var discovered := VerifyDiscovered(vals, env.cacheGet, env.discover);
    calls := discovered.calls;
    if discovered.err.Some? {
      return "", discovered.err, calls;
    }
    var nonce := VerifyNonce(vals, env.accept);
    calls := calls + nonce.calls;
    if nonce.err.Some? {
      return "", nonce.err, calls;
    }
    var signed;
    err, signed := VerifySignature(vals, env.post);
    calls := calls + signed;
    if err.Some? {
      return "", err, calls;
    }
    return Get(vals, "openid.claimed_id"), None, calls;
  }

  /** A run that fails in some stage is not accepted. */
  lemma FailureRefuses(uri: string, env: Env, e: VerifyError)
    requires FirstFailure(uri, env, e)
    ensures !Accepted(uri, env)
  {
    if Parsed(uri, env) {
      var vals := Params(uri, env);
      var u := env.parseUrl(uri).value;
      if ReturnToValid(u, vals, env)
        && VerifyDiscovered(vals, env.cacheGet, env.discover).err.None?
        && VerifyNonce(vals, env.accept).err.None?
      {
        assert !SignatureConfirmed(vals, env.post);
      }
    }
  }

  /** The failing stage decides the error: two errors of the same run
      agree, except that which mismatching return_to parameter is named is
      left open. */
  lemma FailureDecided(uri: string, env: Env, e1: VerifyError, e2: VerifyError)
    requires FirstFailure(uri, env, e1) && FirstFailure(uri, env, e2)
    requires !e1.QueryParamMismatch?
    ensures e1 == e2
  {
    var pu := env.parseUrl(uri);
    if Parsed(uri, env) {
      var vals := Params(uri, env);
      if !ReturnToValid(pu.value, vals, env) {
        assert ReturnToRefusal(pu.value, vals, env, e1) && ReturnToRefusal(pu.value, vals, env, e2);
        ReturnToRefusalDecided(pu.value, vals, env, e1, e2);
      }
    }
  }

  /** Only a query mismatch leaves the return_to error open. */
  lemma ReturnToRefusalDecided(u: Url, vals: Values, env: Env, e1: VerifyError, e2: VerifyError)
    requires ReturnToRefusal(u, vals, env, e1) && ReturnToRefusal(u, vals, env, e2)
    requires !e1.QueryParamMismatch?
    ensures e1 == e2
  {
  }

  /** A return_to whose scheme, host or path differs from the request's,
      such as one naming a forged host, fails with `ReturnToMismatch`,
      before any call goes out. */
  lemma ForgedReturnToRefused(uri: string, env: Env, e: VerifyError)
    requires Parsed(uri, env)
    requires var u := env.parseUrl(uri).value;
      var rp := env.parseUrl(Get(Params(uri, env), "openid.return_to"));
      rp.Ok? && (u.scheme != rp.value.scheme || u.host != rp.value.host || u.path != rp.value.path)
    requires FirstFailure(uri, env, e)
    ensures e == ReturnToMismatch
    ensures Trace(uri, env) == []
  {
  }

  /** The order of the stages that reach outside. */
  function Rank(c: Call): nat {
    match c
    case Discover(_) => 0
    case AcceptNonce(_, _) => 1
    case _ => 2
  }

  /** A run reaches outside in stage order: discovery, then the nonce store,
      then the POST; a return_to failure reaches nothing; and a POST is made
      only once every earlier stage has passed. */
  lemma TraceInStageOrder(uri: string, env: Env)
    ensures var t := Trace(uri, env);
      forall i, j :: 0 <= i < j < |t| ==> Rank(t[i]) <= Rank(t[j])
    ensures Parsed(uri, env) && !ReturnToValid(env.parseUrl(uri).value, Params(uri, env), env) ==> Trace(uri, env) == []
    ensures forall i :: 0 <= i < |Trace(uri, env)| && Trace(uri, env)[i].HttpPost? ==>
      && Parsed(uri, env) && ReturnToValid(env.parseUrl(uri).value, Params(uri, env), env)
      && VerifyDiscovered(Params(uri, env), env.cacheGet, env.discover).err.None?
      && VerifyNonce(Params(uri, env), env.accept).err.None?
  {
    var t := Trace(uri, env);
    if Parsed(uri, env) && ReturnToValid(env.parseUrl(uri).value, Params(uri, env), env) {
      var vals := Params(uri, env);
      var d := VerifyDiscovered(vals, env.cacheGet, env.discover);
      var n := VerifyNonce(vals, env.accept);
      assert forall i :: 0 <= i < |d.calls| ==> d.calls[i].Discover?;
      if d.err.None? && n.err.None? {
        assert t == d.calls + n.calls + [HttpPost(Get(vals, "openid.op_endpoint"), CheckAuthParams(vals))];
      }
    }
  }
}
