/** The oldest snapshot of the package (openid/openid.go): a normalizer that
    strips `xri://` instead of refusing XRIs, a redirect built by string
    concatenation, and a login check that asks the provider to confirm the
    assertion. Parameters are a plain `map[string]string`; the form POST is
    a capability passed in. */
module LegacyOpenId {
  import opened Wrappers
  import opened Web
  import opened Strings
  import opened Protocol

  // ---------------------------------------------------------------------
  // Normalize

  /** The identifier after its XRI prefix is cut. The `xri://$ip` and
      `xri://$dns*` tests come after the `xri://` test, which catches them
      first, so only the first cut ever happens (`XriCutsOnlySix`). */
  function Stripped(id: string): string {
    if HasPrefix(id, "xri://") then Drop(id, 6)
    else if HasPrefix(id, "xri://$ip") then Drop(id, 9)
    else if HasPrefix(id, "xri://$dns*") then Drop(id, 10)
    else id
  }

  /** The first characters this snapshot treats as XRI context symbols. */
  predicate IsXriSymbol(c: char) {
    c == '=' || c == '@' || c == '$' || c == '!'
  }

  /** `Normalize`: an XRI (after the cut) is returned as it is; otherwise
      the original identifier, prefix included, is returned unchanged when
      it is an http or https URL and with `http://` in front of it when not.
      The source reads the first character of the cut string without a
      length check, so that string must be non-empty. */
  function Normalize(id: string): (r: string)
    requires |Stripped(id)| > 0
    ensures IsXriSymbol(Stripped(id)[0]) ==> r == Stripped(id)
    ensures !IsXriSymbol(Stripped(id)[0]) ==> HasPrefix(r, "http://") || HasPrefix(r, "https://")
    ensures !IsXriSymbol(Stripped(id)[0]) && (HasPrefix(id, "http://") || HasPrefix(id, "https://")) ==> r == id
    ensures !IsXriSymbol(Stripped(id)[0]) && !HasPrefix(id, "http://") && !HasPrefix(id, "https://") ==>
      r == "http://" + id
  {
    var normalized := Stripped(id);
    if IsXriSymbol(normalized[0]) then normalized
    else if HasPrefix(id, "http://") || HasPrefix(id, "https://") then id
    else
      assert ("http://" + id)[..7] == "http://";
      "http://" + id
  }

  /** Only the `xri://` cut ever happens: every identifier the later tests
      would match begins with `xri://`. */
  lemma XriCutsOnlySix(id: string)
    ensures Stripped(id) == if HasPrefix(id, "xri://") then id[6..] else id
  {
    if HasPrefix(id, "xri://$ip") {
      PrefixOfPrefix(id, "xri://$ip", "xri://");
    } else if HasPrefix(id, "xri://$dns*") {
      PrefixOfPrefix(id, "xri://$dns*", "xri://");
    }
  }

  /** A non-XRI identifier keeps its `xri://` prefix in the result: the
      cut only decides whether it is an XRI, and the URL is built from the
      uncut identifier. */
  lemma XriPrefixKept(id: string)
    requires HasPrefix(id, "xri://") && |id| > 6 && !IsXriSymbol(id[6])
    ensures Normalize(id) == "http://" + id
  {
    XriCutsOnlySix(id);
    assert Stripped(id)[0] == id[6];
    assert !HasPrefix(id, "http://") && !HasPrefix(id, "https://") by {
      assert id[..6][0] == 'x';
      if |id| >= 7 {
        assert id[..7][0] == 'x';
      }
    }
  }

  // ---------------------------------------------------------------------
  // PrepareRedirect

  /** `key=value`. */
  function Pair(kv: (string, string)): string {
    kv.0 + "=" + kv.1
  }

  /** The `key=value` pieces of a query, in order. */
  function Pieces(pairs: seq<(string, string)>): (r: seq<string>)
    ensures |r| == |pairs| && forall i :: 0 <= i < |r| ==> r[i] == Pair(pairs[i])
  {
    seq(|pairs|, i requires 0 <= i < |pairs| => Pair(pairs[i]))
  }

  /** Key-value pairs written as a query, in order, without any escaping. */
  function EncodePairs(pairs: seq<(string, string)>): string
    requires |pairs| >= 1
  {
    Join(Pieces(pairs), '&')
  }

  /** One more pair adds `&key=value` at the end. */
  lemma EncodeSnoc(pairs: seq<(string, string)>, kv: (string, string))
    requires |pairs| >= 1
    ensures EncodePairs(pairs + [kv]) == EncodePairs(pairs) + "&" + Pair(kv)
  {
    assert Pieces(pairs + [kv]) == Pieces(pairs) + [Pair(kv)];
    JoinSnoc(Pieces(pairs), Pair(kv), '&');
  }

  /** A reference decoder for the hand-built query, which openid.go does not
      have: a piece read back is the key up to the first `=` and the value
      after it. */
  function DecodePair(piece: string): (string, string) {
    var k := CutAt(piece, '=');
    (k, Drop(piece, |k| + 1))
  }

  /** The reference decoder: a query split at `&`, each piece read back as
      a key-value pair. */
  function DecodePairs(q: string): (r: seq<(string, string)>)
    ensures |r| >= 1
  {
    var pieces := Split(q, '&');
    seq(|pieces|, i requires 0 <= i < |pieces| => DecodePair(pieces[i]))
  }

  /** Reading back an unescaped query gives the pairs back, provided no key
      holds `&` or `=` and no value holds `&`. */
  lemma DecodeEncode(pairs: seq<(string, string)>)
    requires |pairs| >= 1
    requires forall i :: 0 <= i < |pairs| ==> '&' !in pairs[i].0 && '=' !in pairs[i].0 && '&' !in pairs[i].1
    ensures DecodePairs(EncodePairs(pairs)) == pairs
  {
    var pieces := Pieces(pairs);
    forall i | 0 <= i < |pieces|
      ensures '&' !in pieces[i] && DecodePair(pieces[i]) == pairs[i]
    {
      var k := pairs[i].0;
      CutAtFirst(pieces[i], '=', |k|);
      assert pieces[i][..|k|] == k;
      assert pieces[i][|k| + 1..] == pairs[i].1;
    }
    SplitJoin(pieces, '&');
  }

  /** The parameters of the legacy redirect, in the order they are written:
      both identifiers are identifier_select, return_to and realm are both
      `returnTo`, and the mode is `checkid_setup`. */
  function RedirectPairs(returnTo: string): (r: seq<(string, string)>)
    ensures |r| == 6
  {
    [("openid.ns", OpenIdNs),
     ("openid.claimed_id", IdentifierSelect),
     ("openid.identity", IdentifierSelect),
     ("openid.return_to", returnTo),
     ("openid.realm", returnTo),
     ("openid.mode", "checkid_setup")]
  }

  /** `PrepareRedirect`: `url`, `?`, then the redirect parameters; it never
      fails. */
  method PrepareRedirect(url: string, returnTo: string) returns (r: Result<string>)
    ensures r == Ok(url + "?" + EncodePairs(RedirectPairs(returnTo)))
  {
    var redirect := url + "?openid.ns=" + OpenIdNs;
    redirect := redirect + "&openid.claimed_id=" + IdentifierSelect;
    redirect := redirect + "&openid.identity=" + IdentifierSelect;
    ghost var head := redirect;
    redirect := redirect + "&openid.return_to=" + returnTo;
    redirect := redirect + "&openid.realm=" + returnTo;
    redirect := redirect + "&openid.mode=checkid_setup";
    RedirectHead(url, returnTo);
    RedirectTail(url, returnTo, head);
    return Ok(redirect);
  }

  /** The first three parameters of `PrepareRedirect`'s query. */
  lemma RedirectHead(url: string, returnTo: string)
    ensures url + "?openid.ns=" + OpenIdNs + "&openid.claimed_id=" + IdentifierSelect + "&openid.identity=" + IdentifierSelect
      == url + "?" + EncodePairs(RedirectPairs(returnTo)[..3])
  {
    var pairs := RedirectPairs(returnTo);
    var prev := url + "?openid.ns=" + OpenIdNs;
    assert prev == url + "?" + EncodePairs(pairs[..1]) by {
      assert Pieces(pairs[..1]) == [Pair(pairs[0])];
      assert "?openid.ns=" == "?" + "openid.ns" + "=";
    }
    Extend(pairs, 1, prev, url, "&openid.claimed_id=", "openid.claimed_id", IdentifierSelect);
    prev := prev + "&openid.claimed_id=" + IdentifierSelect;
    Extend(pairs, 2, prev, url, "&openid.identity=", "openid.identity", IdentifierSelect);
  }

  /** The last three parameters of `PrepareRedirect`'s query. */
  lemma RedirectTail(url: string, returnTo: string, head: string)
    requires head == url + "?" + EncodePairs(RedirectPairs(returnTo)[..3])
    ensures head + "&openid.return_to=" + returnTo + "&openid.realm=" + returnTo + "&openid.mode=checkid_setup"
      == url + "?" + EncodePairs(RedirectPairs(returnTo))
  {
    var pairs := RedirectPairs(returnTo);
    Extend(pairs, 3, head, url, "&openid.return_to=", "openid.return_to", returnTo);
    var prev := head + "&openid.return_to=" + returnTo;
    Extend(pairs, 4, prev, url, "&openid.realm=", "openid.realm", returnTo);
    prev := prev + "&openid.realm=" + returnTo;
    assert "&openid.mode=checkid_setup" == "&openid.mode=" + "checkid_setup";
    Extend(pairs, 5, prev, url, "&openid.mode=", "openid.mode", "checkid_setup");
  }

  /** The step of `PrepareRedirect`'s proof: writing `&key=` and the value
      of the next pair extends the query by that pair. */
  lemma Extend(pairs: seq<(string, string)>, k: nat, prev: string, url: string, lead: string, key: string, value: string)
    requires 1 <= k < |pairs| && pairs[k] == (key, value)
    requires prev == url + "?" + EncodePairs(pairs[..k])
    requires lead == "&" + key + "="
    ensures prev + lead + value == url + "?" + EncodePairs(pairs[..k + 1])
    ensures k + 1 == |pairs| ==> prev + lead + value == url + "?" + EncodePairs(pairs)
  {
    assert pairs[..k + 1] == pairs[..k] + [pairs[k]];
    assert k + 1 == |pairs| ==> pairs[..k + 1] == pairs;
    EncodeSnoc(pairs[..k], pairs[k]);
    assert prev + lead + value == prev + "&" + Pair(pairs[k]);
  }

  /** A callback URL without `&` comes back out of the redirect query intact,
      as both return_to and realm. */
  lemma RedirectQueryReadsBack(returnTo: string)
    requires '&' !in returnTo
    ensures DecodePairs(EncodePairs(RedirectPairs(returnTo))) == RedirectPairs(returnTo)
  {
    DecodeEncode(RedirectPairs(returnTo));
  }

  // ---------------------------------------------------------------------
  // verifyAssertion and ValidateLogin

  /** `params[key]`, "" when the key is missing (Go's map index). */
  function Lookup(params: map<string, string>, key: string): string {
    if key in params then params[key] else ""
  }

  /** The check_authentication form: mode `check_authentication`, and every
      other parameter copied as a single value. */
  function CheckAuthFields(params: map<string, string>): (f: Values)
    ensures "openid.mode" in f && f["openid.mode"] == ["check_authentication"]
    ensures forall k :: k != "openid.mode" ==> (k in f <==> k in params)
    ensures forall k :: k != "openid.mode" && k in params ==> f[k] == [params[k]]
  {
    (map k | k in params && k != "openid.mode" :: [params[k]])["openid.mode" := ["check_authentication"]]
  }

  /** The provider confirms the assertion: the POST succeeds and some line
      of its body is exactly `is_valid:true`; the namespace is not checked. */
  predicate AssertionConfirmed(params: map<string, string>, post: Poster) {
    var resp := post(Lookup(params, "openid.op_endpoint"), CheckAuthFields(params));
    resp.Ok? && IsValidLine in Split(resp.value, '\n')
  }

  /** `verifyAssertion`: build the form, POST it to the asserted endpoint,
      and look for the confirming line. */
  method VerifyAssertion(params: map<string, string>, post: Poster) returns (ok: bool, calls: seq<Call>)
    ensures ok <==> AssertionConfirmed(params, post)
    ensures calls == [HttpPost(Lookup(params, "openid.op_endpoint"), CheckAuthFields(params))]
  {
    var fields: Values := map["openid.mode" := ["check_authentication"]];
    var remaining := params.Keys;
    while remaining != {}
      invariant remaining <= params.Keys
      invariant fields == (map k | k in params && k !in remaining && k != "openid.mode" :: [params[k]])
                            ["openid.mode" := ["check_authentication"]]
      decreases remaining
    {
      var k :| k in remaining;
      remaining := remaining - {k};
      if k != "openid.mode" {
        fields := fields[k := [params[k]]];
      }
    }
    assert fields == CheckAuthFields(params);
    var endpoint := Lookup(params, "openid.op_endpoint");
    calls := [HttpPost(endpoint, fields)];
    var resp := post(endpoint, fields);
    if resp.Err? {
      return false, calls;
    }
    var lines := Split(resp.value, '\n');
    for i := 0 to |lines|
      invariant IsValidLine !in lines[..i]
    {
      assert lines[..i + 1] == lines[..i] + [lines[i]];
      if lines[i] == IsValidLine {
        return true, calls;
      }
    }
    assert lines[..|lines|] == lines;
    return false, calls;
  }

  const ErrConnectionFailed := "Open ID connection failed"
  const ErrVerificationFailed := "Verification failed."
  const ErrNoIdentity := "Could not find openId identity in openId response"

  /** The return_to error, which quotes the three URLs. */
  function ReturnToError(v: string, expectedURL: string, thisURL: string): string {
    "return_to URL doesn't match: " + v + " vs " + expectedURL + " vs " + thisURL
  }

  /** The checks `ValidateLogin` makes before it asks the provider. */
  predicate LoginShapeOk(params: map<string, string>, expectedURL: string, thisURL: string) {
    && "openid.mode" in params && params["openid.mode"] == "id_res"
    && "openid.return_to" in params
    && params["openid.return_to"] == expectedURL && params["openid.return_to"] == thisURL
  }

  /** `ValidateLogin`: the mode must be `id_res`, return_to must be both the
      expected URL and this URL, the provider must confirm, and the result
      is the asserted identity. Nothing is posted unless the first two
      checks pass. */
  method ValidateLogin(params: map<string, string>, expectedURL: string, thisURL: string, post: Poster)
    returns (r: Result<string>, calls: seq<Call>)
    ensures r.Ok? <==>
      LoginShapeOk(params, expectedURL, thisURL) && AssertionConfirmed(params, post) && "openid.identity" in params
    ensures r.Ok? ==> r.value == params["openid.identity"]
    ensures !("openid.mode" in params && params["openid.mode"] == "id_res") ==>
      r == Err(ErrConnectionFailed) && calls == []
    ensures "openid.mode" in params && params["openid.mode"] == "id_res" && !LoginShapeOk(params, expectedURL, thisURL) ==>
      r == Err(ReturnToError(Lookup(params, "openid.return_to"), expectedURL, thisURL)) && calls == []
    ensures LoginShapeOk(params, expectedURL, thisURL) ==>
      calls == [HttpPost(Lookup(params, "openid.op_endpoint"), CheckAuthFields(params))]
    ensures LoginShapeOk(params, expectedURL, thisURL) && !AssertionConfirmed(params, post) ==>
      r == Err(ErrVerificationFailed)
    ensures LoginShapeOk(params, expectedURL, thisURL) && AssertionConfirmed(params, post) && "openid.identity" !in params ==>
      r == Err(ErrNoIdentity)
  {
    if "openid.mode" !in params || params["openid.mode"] != "id_res" {
      return Err(ErrConnectionFailed), [];
    }
    var v := Lookup(params, "openid.return_to");
    if "openid.return_to" !in params || v != expectedURL || v != thisURL {
      return Err(ReturnToError(v, expectedURL, thisURL)), [];
    }
    var ok;
    ok, calls := VerifyAssertion(params, post);
    if !ok {
      return Err(ErrVerificationFailed), calls;
    }
    if "openid.identity" !in params {
      return Err(ErrNoIdentity), calls;
    }
    return Ok(params["openid.identity"]), calls;
  }
}
