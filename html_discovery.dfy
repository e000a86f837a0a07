/** HTML-based discovery (html_discovery.go): find the OpenID provider
    endpoint and the optional OP-local identifier in the `<link>` tags of a
    document's `<head>`. The HTML tokenizer is replaced by a sequence of
    abstract tokens; running out of tokens is the tokenizer's end-of-input
    error. */
module HtmlDiscovery {
  import opened Wrappers
  import opened Web

  const ProviderRel := "openid2.provider"
  const LocalIdRel := "openid2.local_id"
  const ErrProviderNotFound := "LINK with rel=openid2.provider not found"

  /** What a `<link>` tag says: flagged as the provider, flagged as the
      local id, and the value of its last `href`. */
  datatype LinkAttrs = LinkAttrs(provider: bool, localId: bool, href: string)

  function LinkAttrsOf(attrs: seq<Attr>): LinkAttrs {
    LinkAttrs(HasAttr(attrs, "rel", ProviderRel), HasAttr(attrs, "rel", LocalIdRel), LastValue(attrs, "href"))
  }

  /** The attribute loop of `findProviderFromHeadLink`. */
  method ReadLinkAttrs(attrs: seq<Attr>) returns (provider: bool, localId: bool, href: string)
    ensures provider <==> HasAttr(attrs, "rel", ProviderRel)
    ensures localId <==> HasAttr(attrs, "rel", LocalIdRel)
    ensures href == LastValue(attrs, "href")
  {
    provider, localId, href := false, false, "";
    for i := 0 to |attrs|
      invariant provider <==> HasAttr(attrs[..i], "rel", ProviderRel)
      invariant localId <==> HasAttr(attrs[..i], "rel", LocalIdRel)
      invariant href == LastValue(attrs[..i], "href")
    {
      var attr := attrs[i];
      assert attrs[..i + 1] == attrs[..i] + [attr];
      assert forall j :: 0 <= j < i ==> attrs[..i + 1][j] == attrs[..i][j];
      if attr.key == "rel" {
        if attr.val == ProviderRel {
          provider := true;
        } else if attr.val == LocalIdRel {
          localId := true;
        }
      } else if attr.key == "href" {
        href := attr.val;
      }
    }
    assert attrs[..|attrs|] == attrs;
  }

  /** The scan's state between tokens. */
  datatype ScanState = ScanState(inHead: bool, opEndpoint: string, opLocalId: string)

  const Initial := ScanState(false, "", "")

  /** The scan's answer: an endpoint and a local id, or an error. */
  datatype LinkResult = LinkResult(opEndpoint: string, opLocalId: string, err: Option<string>)

  /** A token that ends the scan: a tokenizer error or `</head>`. */
  predicate Stops(tok: Token) {
    tok.ErrorToken? || (tok.TagToken? && tok.kind == EndTag && tok.data == "head")
  }

  /** `<head>`, the token that starts the part of the document that is read. */
  predicate OpensHead(tok: Token) {
    tok.TagToken? && tok.kind == StartTag && tok.data == "head"
  }

  /** What a token that does not end the scan does to its state: `<head>`
      opens the head; inside it, a start or end `link` tag flagged as the
      provider (and not as the local id) with a non-empty `href` sets the
      endpoint, one flagged only as the local id sets the local id; every
      other token, self-closing tags included, changes nothing. */
  function Step(st: ScanState, tok: Token): ScanState
    requires !Stops(tok)
  {
    match tok
    case TagToken(kind, data, attrs) =>
      if kind == SelfClosingTag then st
      else if data == "head" then st.(inHead := true)
      else if st.inHead && data == "link" then
        var l := LinkAttrsOf(attrs);
        if l.provider && !l.localId && |l.href| > 0 then st.(opEndpoint := l.href)
        else if !l.provider && l.localId && |l.href| > 0 then st.(opLocalId := l.href)
        else st
      else st
    case _ => st
  }

  /** How the scan ends on a stopping token: what was found so far if an
      endpoint was found, the error otherwise. */
  function Finish(st: ScanState, tok: Token): (r: LinkResult)
    requires Stops(tok)
  {
    if |st.opEndpoint| > 0 then LinkResult(st.opEndpoint, st.opLocalId, None)
    else if tok.ErrorToken? then LinkResult("", "", Some(tok.err))
    else LinkResult("", "", Some(ErrProviderNotFound))
  }

  /** The scan from state `st` over `tokens`; end of input is an error token. */
  function Scan(tokens: seq<Token>, st: ScanState): (r: LinkResult)
    ensures r.err.None? <==> |r.opEndpoint| > 0
    ensures r.err.Some? ==> r.opLocalId == ""
  {
    if tokens == [] then Finish(st, ErrorToken(EndOfInput))
    else if Stops(tokens[0]) then Finish(st, tokens[0])
    else Scan(tokens[1..], Step(st, tokens[0]))
  }

  /** `findProviderFromHeadLink`. */
  method FindProviderFromHeadLink(tokens: seq<Token>) returns (opEndpoint: string, opLocalId: string, err: Option<string>)
    ensures LinkResult(opEndpoint, opLocalId, err) == Scan(tokens, Initial)
  {
    var inHead := false;
    opEndpoint, opLocalId := "", "";
    var i := 0;
    while i < |tokens|
      invariant 0 <= i <= |tokens|
      invariant Scan(tokens, Initial) == Scan(tokens[i..], ScanState(inHead, opEndpoint, opLocalId))
    {
      var tok := tokens[i];
      assert tokens[i..] == [tok] + tokens[i + 1..];
      match tok {
        case ErrorToken(e) =>
          // Even a malformed document is fine once a provider was found.
          if |opEndpoint| > 0 {
            return opEndpoint, opLocalId, None;
          }
          return "", "", Some(e);
        case TagToken(kind, data, attrs) =>
          if kind == StartTag || kind == EndTag {
            if data == "head" {
              if kind == StartTag {
                inHead := true;
              } else {
                if |opEndpoint| > 0 {
                  return opEndpoint, opLocalId, None;
                }
                return "", "", Some(ErrProviderNotFound);
              }
            } else if inHead && data == "link" {
              var provider, localId, href := ReadLinkAttrs(attrs);
              if provider && !localId && |href| > 0 {
                opEndpoint := href;
              } else if !provider && localId && |href| > 0 {
                opLocalId := href;
              }
            }
          }
        case OtherToken =>
      }
      i := i + 1;
    }
    // The tokenizer reports end of input as an error token.
    if |opEndpoint| > 0 {
      return opEndpoint, opLocalId, None;
    }
    return "", "", Some(EndOfInput);
  }

  /** `htmlDiscovery`: fetch `id` without extra headers and scan the body;
      the claimed id is the URL the fetch ended at after redirects, and it is
      reported even when the scan fails. */
  method HtmlDiscovery(id: string, get: Getter)
    returns (opEndpoint: string, opLocalId: string, claimedId: string, err: Option<string>)
    ensures get(id, map[]).Err? ==>
      opEndpoint == "" && opLocalId == "" && claimedId == "" && err == Some(get(id, map[]).error)
    ensures get(id, map[]).Ok? ==>
      var resp := get(id, map[]).value;
      claimedId == resp.finalUrl && LinkResult(opEndpoint, opLocalId, err) == Scan(resp.tokens, Initial)
  {
    var got := get(id, map[]);
    if got.Err? {
      return "", "", "", Some(got.error);
    }
    opEndpoint, opLocalId, err := FindProviderFromHeadLink(got.value.tokens);
    claimedId := got.value.finalUrl;
  }

  /** The state after a run of tokens none of which ends the scan. */
  function Walk(tokens: seq<Token>, st: ScanState): ScanState
    requires forall k :: 0 <= k < |tokens| ==> !Stops(tokens[k])
  {
    if tokens == [] then st else Walk(tokens[1..], Step(st, tokens[0]))
  }

  /** Scanning a run of non-stopping tokens and then the rest is scanning the
      rest from the state the run leads to. */
  lemma {:induction false} ScanAfterWalk(pre: seq<Token>, rest: seq<Token>, st: ScanState)
    requires forall k :: 0 <= k < |pre| ==> !Stops(pre[k])
    ensures Scan(pre + rest, st) == Scan(rest, Walk(pre, st))
  {
    if pre == [] {
      assert pre + rest == rest;
    } else {
      assert (pre + rest)[0] == pre[0] && (pre + rest)[1..] == pre[1..] + rest;
      ScanAfterWalk(pre[1..], rest, Step(st, pre[0]));
    }
  }

  /** Before `<head>` nothing is read: tokens up to the first `<head>` leave
      the state untouched, `<link>` tags included. */
  lemma {:induction false} LinksBeforeHeadIgnored(pre: seq<Token>, st: ScanState)
    requires !st.inHead
    requires forall k :: 0 <= k < |pre| ==> !Stops(pre[k]) && !OpensHead(pre[k])
    ensures Walk(pre, st) == st
  {
    if pre != [] {
      LinksBeforeHeadIgnored(pre[1..], Step(st, pre[0]));
    }
  }

  /** The first `</head>` or tokenizer error ends the scan: whatever follows
      it, later `<link>` tags included, is never seen. */
  lemma {:induction false} NothingAfterStop(pre: seq<Token>, stop: Token, post: seq<Token>, st: ScanState)
    requires forall k :: 0 <= k < |pre| ==> !Stops(pre[k])
    requires Stops(stop)
    ensures Scan(pre + [stop] + post, st) == Finish(Walk(pre, st), stop)
  {
    ScanAfterWalk(pre, [stop] + post, st);
    assert pre + [stop] + post == pre + ([stop] + post);
  }

  /** A broken or truncated document after a provider link was found still
      yields the values found so far. */
  lemma {:induction false} ToleratesBrokenTail(pre: seq<Token>, err: string, post: seq<Token>)
    requires forall k :: 0 <= k < |pre| ==> !Stops(pre[k])
    requires |Walk(pre, Initial).opEndpoint| > 0
    ensures var found := Walk(pre, Initial);
      && Scan(pre + [ErrorToken(err)] + post, Initial) == LinkResult(found.opEndpoint, found.opLocalId, None)
      && Scan(pre, Initial) == LinkResult(found.opEndpoint, found.opLocalId, None)
  {
    NothingAfterStop(pre, ErrorToken(err), post, Initial);
    ScanAfterWalk(pre, [], Initial);
    assert pre + [] == pre;
  }

  /** Without a provider link before the stop, every failure is the error
      with an empty endpoint and local id, even if a local-id link was seen. */
  lemma {:induction false} NoProviderFails(pre: seq<Token>, stop: Token, post: seq<Token>)
    requires forall k :: 0 <= k < |pre| ==> !Stops(pre[k])
    requires Stops(stop)
    requires Walk(pre, Initial).opEndpoint == ""
    ensures Scan(pre + [stop] + post, Initial)
      == LinkResult("", "", Some(if stop.ErrorToken? then stop.err else ErrProviderNotFound))
  {
    NothingAfterStop(pre, stop, post, Initial);
  }

  /** A tag inside the head: a provider link with an empty or missing href is
      ignored, a link flagged both ways is ignored, and a later qualifying
      link overrides an earlier one. */
  lemma LinkInHead(st: ScanState, kind: TagKind, attrs: seq<Attr>)
    requires st.inHead && kind != SelfClosingTag
    ensures var l := LinkAttrsOf(attrs);
      var next := Step(st, TagToken(kind, "link", attrs));
      && (l.href == "" ==> next == st)
      && (l.provider && l.localId ==> next == st)
      && (l.provider && !l.localId && l.href != "" ==> next == st.(opEndpoint := l.href))
      && (!l.provider && l.localId && l.href != "" ==> next == st.(opLocalId := l.href))
  {
  }

  /** Self-closing tags are never examined, `<link .../>` included. */
  lemma SelfClosingSkipped(st: ScanState, data: string, attrs: seq<Attr>)
    ensures Step(st, TagToken(SelfClosingTag, data, attrs)) == st
  {
  }
}
