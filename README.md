# openid-go relying party, modelled in Dafny

This project models the relying-party side of yohcop/openid-go, an
OpenID Authentication 2.0 client library for Go. A relying party is the
web site that lets a user log in with an OpenID identifier. The model
covers six parts:

- **Identifier normalization.** `Normalizer` refuses XRIs; any other
  identifier becomes an http(s) URL without a fragment.
  `LegacyOpenId.Normalize`, in the older `openid` package, refuses nothing:
  it cuts an `xri://` prefix and returns an XRI as cut, and otherwise
  returns the uncut identifier, with `http://` added when it has no http(s)
  scheme and any fragment kept.
- **Discovery** of the user's OpenID provider.
  - `YadisDiscovery`: the `X-XRDS-Location` header, the `<meta>` tag, or an
    XRDS body.
  - `HtmlDiscovery`: the `<link rel="openid2.provider">` and
    `<link rel="openid2.local_id">` tags of the `<head>`.
- **Caches of discovered information**: `DiscoveryCache` (a plain cache and
  a cache whose entries expire) and `SrcDiscoveryCache`.
- **The `checkid_setup` redirect** to the provider: `Redirect`, which covers
  both redirect.go files, and `LegacyOpenId.PrepareRedirect`.
- **Verification of the provider's positive assertion** (`Verify`):
  - the return_to URL;
  - the discovered information, from the cache or from new discovery;
  - the nonce, through the store;
  - the signature, through a `check_authentication` POST to the provider.

  `LegacyOpenId.ValidateLogin` and `VerifyAssertion` model the older, much
  thinner verification.
- **The anti-replay nonce store** (`NonceStore`). It parses the nonce's
  RFC 3339 timestamp with `Rfc3339`.

Everything outside the core is a parameter of function type:

- HTTP GET and POST;
- `url.Parse`, `url.ParseQuery` and `url.Values.Encode`;
- the XRDS parser;
- full discovery;
- the nonce store's `Accept` and the cache's `Get`, as seen from `verify`.

The HTML tokenizer is replaced by a sequence of abstract tokens (`Web.Token`).
The clock is a `now` parameter, in nanoseconds since the Unix epoch.

`YadisDiscovery.YadisDiscovery`, `Verify.Verify` (and its signature stage
`Verify.VerifySignature`), `LegacyOpenId.VerifyAssertion` and
`LegacyOpenId.ValidateLogin` also return the sequence of calls they make
(`Web.Call`). Their contracts can then say which fetches, POSTs, discoveries
and nonce checks happen, in which order, and when none happen. The other
operations that reach outside (`HtmlDiscovery.HtmlDiscovery`,
`Redirect.RedirectURL`) make at most one call, and their contracts state
their result in terms of that call's answer.

Two places where the comments and the code disagree follow the code:

- src/openid/normalizer.go:18-24 names `(` among the XRI symbols, but the
  code does not refuse it (`Normalizer.ParenNotRefused`).
- openid/openid.go:14-19 strips `xri://$ip` and `xri://$dns*`, but those
  branches can never run because `xri://` is checked first
  (`LegacyOpenId.XriCutsOnlySix`).

## Model

| member | source | states |
|---|---|---|
| Rfc3339.Parse | nonce_store.go:49-52 | a parsed timestamp is exactly 20 characters, ends in `Z` and denotes a valid date and time |
| Rfc3339.ParseFormat | nonce_store.go:49 | formatting any valid UTC time and parsing it back gives the same time |
| Rfc3339.FormatParse | nonce_store.go:49 | a string that parses is exactly the format of its parse, so the accepted text is canonical |
| Rfc3339.NextSecondIsOneSecond | nonce_store.go:49-55 | the calendar second after a valid time (before year 9999) is valid and its instant is exactly one second later, across minute, hour, day, month and leap-year boundaries, so the age `now.Sub(ts)` counts elapsed seconds |
| Rfc3339.EarlierIsSmaller | nonce_store.go:49-55 | of two valid times, the one earlier in calendar order has the strictly smaller instant, so the age check orders nonces as their timestamps do |
| NonceStore.ParseTimestamp | nonce_store.go:49-52 | the 20-character prefix yields an instant exactly when it parses as an RFC 3339 UTC time |
| NonceStore.Fresh | nonce_store.go:69-79 | the purge keeps exactly the nonces younger than the maximum age and never lengthens the list |
| NonceStore.NonceOf | nonce_store.go:36-59 | a nonce string denotes a nonce exactly when its length is within 20..256 and its first 20 characters parse as an RFC 3339 UTC time; its timestamp is that time's instant and its suffix is the rest after character 20 |
| NonceStore.AcceptOutcome | nonce_store.go:33-85 | a refusal leaves the store unchanged; an acceptance means the nonce has a valid length and timestamp and is at most the maximum age old; an acceptance adds exactly its endpoint to the store's endpoints, a refusal adds none |
| NonceStore.SimpleNonceStore.constructor | nonce_store.go:11-16 | a new store is empty and keeps the given maximum age |
| NonceStore.SimpleNonceStore.Default | nonce_store.go:11-16 | the package's store is new, empty, and keeps the flag's default maximum age of 60 seconds |
| NonceStore.SimpleNonceStore.Accept | nonce_store.go:33-85 | the new store and the error are exactly those of `AcceptOutcome` on the old store |
| NonceStore.RejectionChecks | nonce_store.go:36-52 | a rejected nonce leaves the store unchanged; the length error happens exactly for lengths outside 20..256; the timestamp error happens exactly for a well-sized nonce whose prefix does not parse |
| NonceStore.AgeLimit | nonce_store.go:53-57 | the too-old error happens exactly when the nonce is more than the maximum age old; the limit itself is accepted |
| NonceStore.NewEndpointRecordsNonce | nonce_store.go:81-83 | for an endpoint without a list, an accepted nonce becomes that endpoint's only entry |
| NonceStore.KnownEndpoint | nonce_store.go:67-80 | for an endpoint with a list, a remembered nonce is refused and the store kept; any other nonce is accepted, the list is purged, and the nonce is not added |
| NonceStore.ListsNeverGrow | nonce_store.go:67-83 | an endpoint's list never grows; a new list has one entry; other endpoints are untouched |
| NonceStore.FirstNonceNotReplayable | nonce_store.go:81-83 | the first nonce accepted for an endpoint is refused when replayed, at any time, on the store that acceptance leaves |
| NonceStore.LaterNonceReplayable | nonce_store.go:67-80 | as written, a nonce accepted for an endpoint that already had a list is accepted again when replayed |
| NonceStore.BoundaryReplay | nonce_store.go:53-80 | as written, the first nonce of an endpoint, once another nonce for that endpoint is accepted at the instant the first is exactly the maximum age old, is accepted again when replayed at that instant |
| NonceStore.IntendedAcceptOutcome | nonce_store.go:33-85 | the corrected store: a rejection leaves it unchanged, and every accepted nonce is then recorded under its endpoint |
| NonceStore.IntendedNotReplayable | nonce_store.go:67-83 | with the corrected store an accepted nonce is refused when replayed, at any time, on the store that acceptance leaves |
| NonceStore.IntendedKeepsUnexpired | nonce_store.go:67-80 | with the corrected store a remembered nonce survives any call made while it is at most the maximum age old |
| NonceStore.IntendedRemembers | nonce_store.go:67-80 | with the corrected store a remembered nonce survives every call of a series made while it is at most the maximum age old |
| NonceStore.IntendedNoReplay | nonce_store.go:33-85 | with the corrected store a nonce accepted once is refused on every later replay for its endpoint, whatever calls come in between, as long as the clock does not go back |
| DiscoveryCache.CompareDiscoveredInfo | discovery_cache.go:65-70 | true exactly when an entry exists and its three fields equal the given endpoint, local id and claimed id |
| DiscoveryCache.SimpleDiscoveryCache.constructor | discovery_cache.go:44-46 | a new cache is empty |
| DiscoveryCache.SimpleDiscoveryCache.Put | discovery_cache.go:48-53 | the entry for the id is replaced and the rest is unchanged |
| DiscoveryCache.SimpleDiscoveryCache.Get | discovery_cache.go:55-63 | the entry if the id is cached, nothing otherwise; the cache is unchanged |
| DiscoveryCache.SimpleCacheRoundTrip | discovery_cache.go:48-63 | reading after a put gives the entry back; a second put overrides it; other ids stay missing |
| DiscoveryCache.Purge | discovery_cache.go:94-104 | the purge keeps exactly the entries not older than the time to live, unchanged |
| DiscoveryCache.TimedDiscoveryCache.constructor | discovery_cache.go:83-85 | a new cache is empty and keeps the given time to live |
| DiscoveryCache.TimedDiscoveryCache.Put | discovery_cache.go:87-92 | the entry is stored stamped with the current time |
| DiscoveryCache.TimedDiscoveryCache.Get | discovery_cache.go:94-113 | every read first purges expired entries, then answers from what is left |
| DiscoveryCache.TimedCacheExpiry | discovery_cache.go:87-113 | an entry is returned exactly while its age is within the time to live, and it is the entry that was put |
| DiscoveryCache.TimedCacheRePut | discovery_cache.go:87-113 | putting the entry again restarts its lifetime and the newer entry wins |
| SrcDiscoveryCache.SimpleDiscoveryCache.constructor | src/openid/discovery_cache.go:34 | a new cache is empty |
| SrcDiscoveryCache.SimpleDiscoveryCache.Put | src/openid/discovery_cache.go:36-38 | the entry for the id is replaced and the rest is unchanged |
| SrcDiscoveryCache.SimpleDiscoveryCache.Get | src/openid/discovery_cache.go:40-45 | the entry if the id is cached, nothing otherwise |
| SrcDiscoveryCache.CompareDiscoveredInfo | src/openid/discovery_cache.go:47-52 | true exactly when an entry exists and matches all three fields |
| SrcDiscoveryCache.MapCacheShared | src/openid/discovery_cache.go:34-45 | the cache is shared by reference: an entry put through one handle is read through another, and a put under a second id leaves the first entry as it was |
| HtmlDiscovery.ReadLinkAttrs | html_discovery.go:46-59 | the loop flags a provider or local-id `rel` exactly when one is present and keeps the last `href` |
| HtmlDiscovery.Scan | html_discovery.go:19-75 | there is no error exactly when an endpoint was found, and on error the local id is empty |
| HtmlDiscovery.FindProviderFromHeadLink | html_discovery.go:19-75 | the token loop returns exactly the result of the scan from the initial state |
| HtmlDiscovery.HtmlDiscovery | html_discovery.go:10-17 | one fetch without extra headers; a fetch error is returned with empty results; otherwise the claimed id is the final URL after redirects, even when the scan fails |
| HtmlDiscovery.ScanAfterWalk | html_discovery.go:20-44 | scanning a run of non-stopping tokens and then the rest is scanning the rest from the state that run reaches |
| HtmlDiscovery.LinksBeforeHeadIgnored | html_discovery.go:35-44 | before `<head>` no token changes the state, `<link>` tags included |
| HtmlDiscovery.NothingAfterStop | html_discovery.go:25-40 | the first `</head>` or tokenizer error ends the scan; nothing after it matters |
| HtmlDiscovery.ToleratesBrokenTail | html_discovery.go:25-32 | a tokenizer error or end of input after a provider link still returns what was found, with no error |
| HtmlDiscovery.NoProviderFails | html_discovery.go:25-40 | without a provider link the result is the error with empty endpoint and local id, even if a local-id link was seen |
| HtmlDiscovery.LinkInHead | html_discovery.go:45-64 | inside the head, a link with an empty href or with both rels is ignored; a provider or local-id link sets its field and overrides an earlier one |
| HtmlDiscovery.SelfClosingSkipped | html_discovery.go:33-34 | self-closing tags never change the state |
| YadisDiscovery.MetaScan | src/openid/yadis_discovery.go:86-120 | a location found by the scan is never empty |
| YadisDiscovery.ReadMetaAttrs | src/openid/yadis_discovery.go:103-112 | the tag is flagged exactly when `http-equiv` is `X-XRDS-Location`; the last `content` is kept |
| YadisDiscovery.FindMetaXrdsLocation | src/openid/yadis_discovery.go:86-120 | the token loop agrees with the scan; on error the location is empty |
| YadisDiscovery.LocationComesFromHeadMeta | src/openid/yadis_discovery.go:94-115 | a found location is the content of the first `X-XRDS-Location` `<meta>` tag met while the head is open, with no `</head>` or tokenizer error before it |
| YadisDiscovery.FirstHeadMetaWins | src/openid/yadis_discovery.go:94-115 | once the head is open, the first matching `<meta>` decides the location whatever follows it, when no stopping token comes before it |
| YadisDiscovery.NoMatchBeforeStop | src/openid/yadis_discovery.go:92-101 | without a matching `<meta>` the scan fails at the first `</head>` or tokenizer error, or at end of input |
| YadisDiscovery.MetaBeforeHeadIgnored | src/openid/yadis_discovery.go:94-102 | tokens before `<head>` are never examined |
| YadisDiscovery.GetYadisResourceDescriptor | src/openid/yadis_discovery.go:68-81 | one GET with the Yadis headers; a fetch error or body error is returned with empty results; otherwise the XRDS parse of the body |
| YadisDiscovery.SelectBranch | src/openid/yadis_discovery.go:34-64 | the header selects the follow-location branch exactly when `X-XRDS-Location` is non-empty; otherwise `text/html` selects the meta scan, then `application/xrds+xml` selects parsing the body, in that precedence |
| YadisDiscovery.YadisDiscovery | src/openid/yadis_discovery.go:12-65 | every fetch is a GET with `Accept: application/xrds+xml`, one or two of them, the first for the identifier; each branch's result and error, and the second fetch exactly on the branches that follow a location |
| Normalizer.Normalize | src/openid/normalizer.go:8-47 | an identifier is refused exactly when it starts with `xri://` or an XRI global context symbol; otherwise the result has an http(s) scheme, no `#`, and is the identifier with `http://` added when it has neither scheme, cut at its first `#` |
| Normalizer.NormalizeIdempotent | src/openid/normalizer.go:8-47 | a normalized identifier normalizes to itself |
| Normalizer.HttpIdentifierUnchanged | src/openid/normalizer.go:32-38 | an http(s) identifier without a fragment is returned unchanged |
| Normalizer.ParenNotRefused | src/openid/normalizer.go:18-24 | every identifier starting with `(` is accepted and read as a URL without a scheme: `http://` in front, cut at its first `#` |
| Redirect.CheckidSetupQuery | redirect.go:20-40 | the request has ns, mode `checkid_setup` and return_to; claimed_id exactly when there is a claimed id; identity is the local id when both ids are known and identifier_select otherwise; realm exactly when given; no other keys, one value each |
| Redirect.WithQuery | redirect.go:41-46 | the endpoint, then `&` if it already has a `?` and `?` otherwise, then the encoded query |
| Redirect.BuildRedirectURL | redirect.go:20-47 | the redirect is the endpoint joined to the encoding of exactly those parameters; it never fails |
| Redirect.RedirectURL | redirect.go:12-18 | a discovery error is returned unchanged; otherwise the redirect built from the discovered endpoint and ids |
| Redirect.NoClaimedIdSelectsIdentity | src/openid/redirect.go:20-33 | without a claimed id, claimed_id is absent and identity is identifier_select, whatever the local id |
| Verify.CompareQueryParams | src/openid/verify.go:86-97 | no error exactly when every key of the first query has the same first value in the second; an error names a key that differs |
| Verify.VerifyReturnTo | src/openid/verify.go:66-83 | no error exactly when return_to parses and has the scheme, host and path of the request URL, and its query is contained in the request's; a refusal is the parse error of return_to, `ReturnToMismatch` for a scheme, host or path mismatch, the parse error of its query, or a query parameter whose value in the request differs |
| Verify.VerifyDiscovered | src/openid/verify.go:99-180 | it fails closed: success needs ns 2.0 and every asserted field, and either a cache entry (looked up by the asserted endpoint) for the fragment-free claimed id whose local id is the asserted identity, or a discovery of the claimed id that finds the asserted endpoint; discovery is called at most once, exactly when the fields are present and the cache does not settle the claim; the first missing or wrong field, in the order ns, op_endpoint, identity, claimed_id, gives its own error |
| Verify.CacheHitDecides | src/openid/verify.go:156-179 | when the cache confirms the claim, the stage passes exactly when the asserted identity is the cached local id, and nothing is discovered |
| Verify.CacheMissDiscovers | src/openid/verify.go:156-172 | otherwise the claimed id, fragment included, is discovered once, and the stage passes exactly when discovery finds the asserted endpoint, failing with `ClaimedIdNotVerified` otherwise |
| Verify.VerifyNonce | src/openid/verify.go:182-186 | exactly one call to the store, with the `openid.endpoint` value and the response nonce; the stage passes exactly when the store accepts, and a refusal carries the store's message unchanged |
| Verify.NonceKeyedByEndpointParameter | src/openid/verify.go:182-186 | when `openid.endpoint` is absent, every nonce is filed under the empty endpoint |
| Verify.CheckAuthParams | src/openid/verify.go:195-207 | the form has mode `check_authentication`, and every other key of the response that has values, with all its values |
| Verify.AddAll | src/openid/verify.go:200-206 | appending a key's values adds the key exactly when there is at least one value |
| Verify.ScanResponse | src/openid/verify.go:217-229 | the line loop succeeds exactly when the response confirms the assertion |
| Verify.VerifySignature | src/openid/verify.go:188-232 | exactly one POST of the check_authentication form to the asserted endpoint; no error exactly when the POST succeeds and the body confirms; a POST error is passed on, otherwise an unconfirmed body is its own error |
| Verify.Verify | src/openid/verify.go:15-57 | no error exactly when the URL parses and return_to, discovery, nonce and signature all pass; the id is the claimed id on success and empty on failure, and a failure carries the error of the first stage that fails; the calls are exactly those of the stages reached, in order |
| Verify.FailureRefuses | src/openid/verify.go:15-57 | a run that fails in some stage is not accepted |
| Verify.FailureDecided | src/openid/verify.go:15-57 | the first failing stage decides the error of a run, except which mismatching return_to parameter is named |
| Verify.ForgedReturnToRefused | src/openid/verify.go:66-77 | a return_to whose scheme, host or path differs from the request's fails with `ReturnToMismatch`, and no call goes out |
| Verify.TraceInStageOrder | src/openid/verify.go:15-57 | calls go out in stage order (discovery, nonce store, POST); a bad return_to makes no call; a POST is made only after return_to, discovery and the nonce have all passed |
| LegacyOpenId.Normalize | openid/openid.go:12-30 | an identifier starting with an XRI symbol after the cut is returned as cut; otherwise the result has an http(s) scheme, and is the identifier itself or `http://` before it |
| LegacyOpenId.XriCutsOnlySix | openid/openid.go:14-21 | only the `xri://` prefix is ever cut; the `$ip` and `$dns*` branches never run |
| LegacyOpenId.XriPrefixKept | openid/openid.go:26-29 | every `xri://` identifier whose cut form does not start with an XRI symbol becomes `http://` followed by the whole identifier, `xri://` included, because the URL result is built from the uncut input |
| LegacyOpenId.EncodeSnoc | openid/openid.go:103-107 | each `+=` appends `&key=value` to the query written so far |
| LegacyOpenId.DecodeEncode | openid/openid.go:101-114 | read back by a reference decoder (split at `&`, then at the first `=`; not part of the source), an unescaped query gives its pairs when keys hold no `&` or `=` and values hold no `&` |
| LegacyOpenId.RedirectPairs | openid/openid.go:102-107 | the redirect writes six parameters |
| LegacyOpenId.PrepareRedirect | openid/openid.go:101-114 | the redirect is the URL, `?`, and the six parameters ns, claimed_id, identity, return_to, realm, mode in that order; it never fails |
| LegacyOpenId.RedirectHead | openid/openid.go:102-104 | the first three writes are the query of the first three parameters |
| LegacyOpenId.RedirectTail | openid/openid.go:105-107 | the last three writes complete the query of all six parameters |
| LegacyOpenId.RedirectQueryReadsBack | openid/openid.go:101-114 | read back by that reference decoder, a callback URL without `&` comes out of the redirect query intact, as return_to and as realm |
| LegacyOpenId.CheckAuthFields | openid/openid.go:140-145 | the form has mode `check_authentication` and every other parameter as a single value |
| LegacyOpenId.VerifyAssertion | openid/openid.go:139-164 | exactly one POST of that form to the asserted endpoint; true exactly when it succeeds and some body line is `is_valid:true` |
| LegacyOpenId.ValidateLogin | openid/openid.go:116-137 | the identity is returned exactly when mode is `id_res`, return_to equals both URLs, the provider confirms, and an identity is present; a bad mode or return_to fails without any POST, each with its own message; after the POST, an unconfirmed assertion fails with `Verification failed.` and a confirmed one without `openid.identity` with the missing-identity message |

## Left out

- HTTP, `url.Parse`, `url.ParseQuery`, `url.Values.Encode`, `parseXrds` and
  full `discover` are function parameters. Their behaviour is not modelled.
  Percent-encoding, and therefore the order in which `Encode` writes keys,
  is not modelled.
- The HTML tokenizer is not part of this model. The scans read a sequence of
  abstract tokens, and end of input is the tokenizer's `EOF` error.
- Go's mutexes around the nonce store and the timed cache are left out:
  the model is sequential.
- The wall clock is a `now` parameter. `time.Duration` is an unbounded
  integer of nanoseconds, so int64 overflow of `now.Sub` is not modelled.
- `len` on Go strings counts bytes. The model counts characters, which is
  the same for the ASCII nonces and URLs the protocol uses.
- `DiscoverXml` and `DiscoverHtml` in openid/openid.go are not part of this
  model. They are the legacy package's discovery, outside the verified core.
- The `return` at html_discovery.go:71-74 and at
  src/openid/yadis_discovery.go:119 sits after an endless loop and can never
  run. It has no counterpart in the model.
- Verify.VerifySignature: takes no request URI, because the source's `uri`
  parameter is unused.
- Reading the POST response body is not modelled separately: the body is
  the text the `Poster` parameter returns. The source ignores the error of
  `ioutil.ReadAll` (src/openid/verify.go:213, openid/openid.go:154) and
  scans whatever bytes were read; a partly read body is simply a body the
  `Poster` returns.
- The logging calls of `verifyAssertion` are left out.
- Rfc3339.Parse: accepts only the 20-character UTC form
  `YYYY-MM-DDTHH:MM:SSZ`, the only form that fits in `nonce[0:20]`. Other
  offsets and fractional seconds need more characters.
- Normalizer.Normalize: requires a non-empty identifier, because the source
  reads `id[0]` without a check and panics on "".
- LegacyOpenId.Normalize: requires a non-empty identifier after the XRI cut,
  for the same reason.

## Findings

| source | as written | input that shows it | evidently intended | confidence | as-written member | corrected member |
|---|---|---|---|---|---|---|
| nonce_store.go:67-80 | for an endpoint that already has a list, an accepted nonce only purges the list and is never added to it | a store holding one earlier nonce for endpoint E; accept nonce N for E, then accept N for E again: both calls succeed | append every accepted nonce to its endpoint's purged list, so a replay is refused | not executed | NonceStore.LaterNonceReplayable | NonceStore.IntendedNotReplayable |
| nonce_store.go:55-76 | the age check accepts a nonce exactly the maximum age old (`diff > max` refuses), but the purge keeps only nonces strictly younger (`< max`) | accept nonce N1 for a new endpoint E at its timestamp t1; at t1 + max accept another nonce N2 for E, which purges N1; replay N1 at t1 + max: it is accepted again | purge with the same bound the age check uses (keep `now.Sub(n.T) <= max`), so a nonce is remembered for as long as it can be accepted | not executed | NonceStore.BoundaryReplay | NonceStore.IntendedNoReplay |
