/** The `checkid_setup` redirect (section 9.1 of OpenID Authentication 2.0),
    as built by redirect.go and, with the same logic under other names, by
    src/openid/redirect.go: the authentication request's parameters are
    added one by one to a `url.Values`, encoded, and appended to the
    provider endpoint. Discovery and `url.Values.Encode` are capabilities
    passed in. */
module Redirect {
  import opened Wrappers
  import opened Web
  import Strings
  import DiscoveryCache
  import opened Protocol

  /** `url.Values.Encode`, which is not part of this model. */
  type Encoder = Values -> string

  /** `discover`, which is not part of this model: the provider endpoint,
      the OP-local identifier and the claimed identifier, or an error. */
  type Discoverer = string -> Result<DiscoveryCache.DiscoveredInfo>

  /** The parameters of a `checkid_setup` request: ns, mode and return_to
      always; claimed_id when there is a claimed identifier; identity, the
      OP-local identifier only when both identifiers are known and
      identifier_select otherwise; realm when there is one. Each present key
      has exactly one value. */
  function CheckidSetupQuery(opLocalID: string, claimedID: string, returnTo: string, realm: string): (q: Values)
    ensures "openid.ns" in q && q["openid.ns"] == [OpenIdNs]
    ensures "openid.mode" in q && q["openid.mode"] == [CheckidSetup]
    ensures "openid.return_to" in q && q["openid.return_to"] == [returnTo]
    ensures "openid.identity" in q
    ensures q["openid.identity"] == [if claimedID != "" && opLocalID != "" then opLocalID else IdentifierSelect]
    ensures "openid.claimed_id" in q <==> claimedID != ""
    ensures "openid.claimed_id" in q ==> q["openid.claimed_id"] == [claimedID]
    ensures "openid.realm" in q <==> realm != ""
    ensures "openid.realm" in q ==> q["openid.realm"] == [realm]
    ensures q.Keys <= {"openid.ns", "openid.mode", "openid.return_to", "openid.identity", "openid.claimed_id", "openid.realm"}
  {
    var identity := if claimedID != "" && opLocalID != "" then opLocalID else IdentifierSelect;
    var base := map["openid.ns" := [OpenIdNs], "openid.mode" := [CheckidSetup], "openid.return_to" := [returnTo]];
    var claimed := if claimedID != "" then base["openid.claimed_id" := [claimedID]] else base;
    var identified := claimed["openid.identity" := [identity]];
    if realm != "" then identified["openid.realm" := [realm]] else identified
  }

  /** `endpoint` followed by the encoded query, joined by `&` when the
      endpoint already has a query and by `?` otherwise. */
  function WithQuery(endpoint: string, encoded: string): (r: string)
    ensures |r| == |endpoint| + 1 + |encoded|
    ensures r[..|endpoint|] == endpoint && r[|endpoint| + 1..] == encoded
    ensures r[|endpoint|] == (if Strings.Contains(endpoint, "?") then '&' else '?')
  {
    if Strings.Contains(endpoint, "?") then endpoint + "&" + encoded else endpoint + "?" + encoded
  }

  /** `buildRedirectURL` (`buildRedirectUrl` in src/openid/redirect.go).
      It never fails. */
  method BuildRedirectURL(opEndpoint: string, opLocalID: string, claimedID: string, returnTo: string, realm: string, encode: Encoder)
    returns (r: Result<string>)
    ensures r == Ok(WithQuery(opEndpoint, encode(CheckidSetupQuery(opLocalID, claimedID, returnTo, realm))))
  {
    var values: Values := map[];
    values := Add(values, "openid.ns", OpenIdNs);
    values := Add(values, "openid.mode", CheckidSetup);
    values := Add(values, "openid.return_to", returnTo);
    ghost var base := values;
    assert base == map["openid.ns" := [OpenIdNs], "openid.mode" := [CheckidSetup], "openid.return_to" := [returnTo]];
    if |claimedID| > 0 {
      values := Add(values, "openid.claimed_id", claimedID);
      assert values == base["openid.claimed_id" := [claimedID]];
      if |opLocalID| > 0 {
        values := Add(values, "openid.identity", opLocalID);
      } else {
        values := Add(values, "openid.identity", IdentifierSelect);
      }
    } else {
      values := Add(values, "openid.identity", IdentifierSelect);
    }
    if |realm| > 0 {
      values := Add(values, "openid.realm", realm);
    }
    if Strings.Contains(opEndpoint, "?") {
      return Ok(opEndpoint + "&" + encode(values));
    }
    return Ok(opEndpoint + "?" + encode(values));
  }

  /** `redirectURL` (`redirectUrl` in src/openid/redirect.go): discover the
      identifier, then build the redirect from what was found; a discovery
      error is returned as it is and nothing is built. */
  method RedirectURL(id: string, callbackURL: string, realm: string, discover: Discoverer, encode: Encoder)
    returns (r: Result<string>)
    ensures discover(id).Err? ==> r == Err(discover(id).error)
    ensures discover(id).Ok? ==>
      var info := discover(id).value;
      r == Ok(WithQuery(info.opEndpoint, encode(CheckidSetupQuery(info.opLocalID, info.claimedID, callbackURL, realm))))
  {
    var found := discover(id);
    if found.Err? {
      return Err(found.error);
    }
    var info := found.value;
    r := BuildRedirectURL(info.opEndpoint, info.opLocalID, info.claimedID, callbackURL, realm, encode);
  }

  /** Without a claimed identifier the request asks the provider to select
      one: identity is identifier_select and claimed_id is absent, whatever
      the OP-local identifier. */
  lemma NoClaimedIdSelectsIdentity(opLocalID: string, returnTo: string, realm: string)
    ensures var q := CheckidSetupQuery(opLocalID, "", returnTo, realm);
      "openid.claimed_id" !in q && q["openid.identity"] == [IdentifierSelect]
  {
  }
}
