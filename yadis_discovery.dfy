/** Yadis discovery (src/openid/yadis_discovery.go, following sections 6.2.4
    to 6.2.6 of the Yadis 1.0 specification): fetch the identifier with
    `Accept: application/xrds+xml`, then pick the XRDS document from the
    `X-XRDS-Location` response header, from an HTML `<meta http-equiv>` tag,
    or from the response body itself. HTTP is the `get` capability, the XRDS
    parser is the `parseXrds` capability, and the HTML tokenizer is a
    sequence of abstract tokens. Every fetch is recorded in a call trace. */
module YadisDiscovery {
  import opened Wrappers
  import opened Web
  import Strings

  const XrdsContentType := "application/xrds+xml"
  const XrdsLocationHeader := "X-XRDS-Location"

  /** `yadisHeaders`: the request headers of every Yadis fetch. */
  const YadisHeaders: Headers := map["Accept" := XrdsContentType]

  const ErrMetaNotFound := "Meta X-XRDS-Location not found"
  const ErrNoYadis := "No expected header, or content type"

  /** What discovery yields: the provider endpoint, the OP-local identifier,
      and an error. */
  datatype Found = Found(opEndpoint: string, opLocalId: string, err: Option<string>)

  /** `parseXrds`, which is not part of this model: an XRDS document to what
      it declares. */
  type XrdsParser = string -> Found

  // ---------------------------------------------------------------------
  // findMetaXrdsLocation

  /** A `<meta>` start or end tag whose `http-equiv` is exactly
      `X-XRDS-Location` and whose last `content` is non-empty. */
  predicate IsXrdsMeta(tok: Token) {
    && tok.TagToken? && tok.kind != SelfClosingTag && tok.data == "meta"
    && HasAttr(tok.attrs, "http-equiv", XrdsLocationHeader)
    && LastValue(tok.attrs, "content") != ""
  }

  /** A token that ends the meta scan without a match: a tokenizer error or `</head>`. */
  predicate EndsMetaScan(tok: Token) {
    tok.ErrorToken? || (tok.TagToken? && tok.kind == EndTag && tok.data == "head")
  }

  predicate OpensHead(tok: Token) {
    tok.TagToken? && tok.kind == StartTag && tok.data == "head"
  }

  /** The meta scan from a state where `inHead` says whether `<head>` was seen. */
  function MetaScan(tokens: seq<Token>, inHead: bool): (r: Result<string>)
    ensures r.Ok? ==> r.value != ""
  {
    if tokens == [] then Err(EndOfInput)
    else
      var tok := tokens[0];
      if tok.ErrorToken? then Err(tok.err)
      else if tok.TagToken? && tok.kind != SelfClosingTag && tok.data == "head" then
        if tok.kind == StartTag then MetaScan(tokens[1..], true) else Err(ErrMetaNotFound)
      else if inHead && IsXrdsMeta(tok) then Ok(LastValue(tok.attrs, "content"))
      else MetaScan(tokens[1..], inHead)
  }

  /** The attribute loop over one `<meta>` tag. */
  method ReadMetaAttrs(attrs: seq<Attr>) returns (ok: bool, content: string)
    ensures ok <==> HasAttr(attrs, "http-equiv", XrdsLocationHeader)
    ensures content == LastValue(attrs, "content")
  {
    ok, content := false, "";
    for i := 0 to |attrs|
      invariant ok <==> HasAttr(attrs[..i], "http-equiv", XrdsLocationHeader)
      invariant content == LastValue(attrs[..i], "content")
    {
      var attr := attrs[i];
      assert attrs[..i + 1] == attrs[..i] + [attr];
      assert forall j :: 0 <= j < i ==> attrs[..i + 1][j] == attrs[..i][j];
      if attr.key == "http-equiv" && attr.val == XrdsLocationHeader {
        ok := true;
      } else if attr.key == "content" {
        content := attr.val;
      }
    }
    assert attrs[..|attrs|] == attrs;
  }

  /** `findMetaXrdsLocation`: the location, or the error and "". */
  method FindMetaXrdsLocation(tokens: seq<Token>) returns (location: string, err: Option<string>)
    ensures err.None? <==> MetaScan(tokens, false).Ok?
    ensures err.None? ==> location == MetaScan(tokens, false).value
    ensures err.Some? ==> location == "" && err.value == MetaScan(tokens, false).error
  {
    var inHead := false;
    var i := 0;
    while i < |tokens|
      invariant 0 <= i <= |tokens|
      invariant MetaScan(tokens, false) == MetaScan(tokens[i..], inHead)
    {
      var tok := tokens[i];
      assert tokens[i..][0] == tok && tokens[i..][1..] == tokens[i + 1..];
      match tok {
        case ErrorToken(e) =>
          return "", Some(e);
        case TagToken(kind, data, attrs) =>
          if kind == StartTag || kind == EndTag {
            if data == "head" {
              if kind == StartTag {
                inHead := true;
              } else {
                return "", Some(ErrMetaNotFound);
              }
            } else if inHead && data == "meta" {
              var ok, content := ReadMetaAttrs(attrs);
              if ok && |content| > 0 {
                return content, None;
              }
            }
          }
        case OtherToken =>
      }
      i := i + 1;
    }
    // The tokenizer reports end of input as an error token.
    return "", Some(EndOfInput);
  }

  /** Whether the scan is inside the head when it reaches `tokens[k]`: it
      started there, or a `<head>` came before. */
  predicate HeadOpenAt(tokens: seq<Token>, k: int, inHead: bool) {
    inHead || exists h :: 0 <= h < k && h < |tokens| && OpensHead(tokens[h])
  }

  /** Dropping a first token that does not open the head shifts the
      positions by one. */
  lemma HeadOpenShift(tokens: seq<Token>, k: int, inHead: bool)
    requires 1 <= k <= |tokens| && !OpensHead(tokens[0])
    ensures HeadOpenAt(tokens, k, inHead) <==> HeadOpenAt(tokens[1..], k - 1, inHead)
  {
    if !inHead {
      if h :| 0 <= h < k && h < |tokens| && OpensHead(tokens[h]) {
        assert h != 0 && tokens[1..][h - 1] == tokens[h];
      }
      if h :| 0 <= h < k - 1 && h < |tokens[1..]| && OpensHead(tokens[1..][h]) {
        assert tokens[h + 1] == tokens[1..][h];
      }
    }
  }

  /** `tokens[j]` is the first X-XRDS-Location `<meta>` tag inside the head
      and its content is `v`: the head is open there, no `</head>` or
      tokenizer error comes before it, and no matching tag inside the head
      comes before it either. */
  predicate FirstHeadMetaAt(tokens: seq<Token>, j: int, inHead: bool, v: string) {
    && 0 <= j < |tokens| && IsXrdsMeta(tokens[j]) && HeadOpenAt(tokens, j, inHead)
    && v == LastValue(tokens[j].attrs, "content")
    && (forall k :: 0 <= k < j ==> !EndsMetaScan(tokens[k]))
    && (forall k :: 0 <= k < j && IsXrdsMeta(tokens[k]) ==> !HeadOpenAt(tokens, k, inHead))
  }

  /** Behind a `<head>`, the first match of the rest is the first match. */
  lemma FirstAfterHead(tokens: seq<Token>, j: int, inHead: bool, v: string)
    requires |tokens| > 0 && OpensHead(tokens[0]) && FirstHeadMetaAt(tokens[1..], j, true, v)
    ensures FirstHeadMetaAt(tokens, j + 1, inHead, v)
  {
    var rest := tokens[1..];
    assert tokens[j + 1] == rest[j];
    assert HeadOpenAt(tokens, j + 1, inHead);
    forall k | 0 <= k < j + 1
      ensures !EndsMetaScan(tokens[k]) && !IsXrdsMeta(tokens[k])
    {
      if k > 0 {
        assert tokens[k] == rest[k - 1] && HeadOpenAt(rest, k - 1, true);
      }
    }
  }

  /** Behind a token the scan passes over, the first match of the rest is
      the first match. */
  lemma FirstAfterOther(tokens: seq<Token>, j: int, inHead: bool, v: string)
    requires |tokens| > 0 && !OpensHead(tokens[0]) && !EndsMetaScan(tokens[0])
    requires !(inHead && IsXrdsMeta(tokens[0]))
    requires FirstHeadMetaAt(tokens[1..], j, inHead, v)
    ensures FirstHeadMetaAt(tokens, j + 1, inHead, v)
  {
    var rest := tokens[1..];
    assert tokens[j + 1] == rest[j];
    HeadOpenShift(tokens, j + 1, inHead);
    forall k | 0 <= k < j + 1
      ensures !EndsMetaScan(tokens[k])
      ensures IsXrdsMeta(tokens[k]) ==> !HeadOpenAt(tokens, k, inHead)
    {
      if k > 0 {
        assert tokens[k] == rest[k - 1];
        HeadOpenShift(tokens, k, inHead);
      }
    }
  }

  /** A location found by the scan is the content of the first
      X-XRDS-Location `<meta>` tag inside the head. */
  lemma {:induction false} LocationComesFromHeadMeta(tokens: seq<Token>, inHead: bool)
    requires MetaScan(tokens, inHead).Ok?
    ensures exists j :: FirstHeadMetaAt(tokens, j, inHead, MetaScan(tokens, inHead).value)
  {
    var tok := tokens[0];
    var rest := tokens[1..];
    var v := MetaScan(tokens, inHead).value;
    if tok.TagToken? && tok.kind != SelfClosingTag && tok.data == "head" {
      LocationComesFromHeadMeta(rest, true);
      var j :| FirstHeadMetaAt(rest, j, true, v);
      FirstAfterHead(tokens, j, inHead, v);
    } else if inHead && IsXrdsMeta(tok) {
      assert FirstHeadMetaAt(tokens, 0, inHead, v);
    } else {
      LocationComesFromHeadMeta(rest, inHead);
      var j :| FirstHeadMetaAt(rest, j, inHead, v);
      FirstAfterOther(tokens, j, inHead, v);
    }
  }

  /** Conversely, inside the head the first X-XRDS-Location `<meta>` tag
      wins: when neither a matching tag nor a stop comes before it, its
      content is the location, whatever follows. */
  lemma {:induction false} FirstHeadMetaWins(pre: seq<Token>, m: Token, post: seq<Token>)
    requires forall k :: 0 <= k < |pre| ==> !IsXrdsMeta(pre[k]) && !EndsMetaScan(pre[k])
    requires IsXrdsMeta(m)
    ensures MetaScan(pre + [m] + post, true) == Ok(LastValue(m.attrs, "content"))
  {
    if pre == [] {
      assert pre + [m] + post == [m] + post;
    } else {
      assert (pre + [m] + post)[0] == pre[0] && (pre + [m] + post)[1..] == pre[1..] + [m] + post;
      FirstHeadMetaWins(pre[1..], m, post);
    }
  }

  /** There is no partial-result tolerance: if no X-XRDS-Location `<meta>`
      comes first, a tokenizer error is that error, `</head>` is "not
      found", and running out of input is the end-of-input error. */
  lemma {:induction false} NoMatchBeforeStop(pre: seq<Token>, stop: Token, post: seq<Token>, inHead: bool)
    requires forall k :: 0 <= k < |pre| ==> !IsXrdsMeta(pre[k]) && !EndsMetaScan(pre[k])
    requires EndsMetaScan(stop)
    ensures MetaScan(pre + [stop] + post, inHead) == Err(if stop.ErrorToken? then stop.err else ErrMetaNotFound)
    ensures MetaScan(pre, inHead) == Err(EndOfInput)
  {
    if pre == [] {
      assert pre + [stop] + post == [stop] + post;
    } else {
      var tok := pre[0];
      assert (pre + [stop] + post)[0] == tok && (pre + [stop] + post)[1..] == pre[1..] + [stop] + post;
      var next := inHead || (tok.TagToken? && tok.kind == StartTag && tok.data == "head");
      NoMatchBeforeStop(pre[1..], stop, post, next);
    }
  }

  /** Before `<head>` nothing is looked at: an X-XRDS-Location `<meta>` there
      is skipped. */
  lemma {:induction false} MetaBeforeHeadIgnored(pre: seq<Token>, rest: seq<Token>)
    requires forall k :: 0 <= k < |pre| ==> !EndsMetaScan(pre[k]) && !OpensHead(pre[k])
    ensures MetaScan(pre + rest, false) == MetaScan(rest, false)
  {
    if pre == [] {
      assert pre + rest == rest;
    } else {
      assert (pre + rest)[0] == pre[0] && (pre + rest)[1..] == pre[1..] + rest;
      MetaBeforeHeadIgnored(pre[1..], rest);
    }
  }

  // ---------------------------------------------------------------------
  // getYadisResourceDescriptor and yadisDiscovery

  /** `getYadisResourceDescriptor`: fetch the XRDS document at `location`
      and parse its body. */
  method GetYadisResourceDescriptor(location: string, get: Getter, parseXrds: XrdsParser)
    returns (found: Found, calls: seq<Call>)
    ensures calls == [HttpGet(location, YadisHeaders)]
    ensures get(location, YadisHeaders).Err? ==> found == Found("", "", Some(get(location, YadisHeaders).error))
    ensures get(location, YadisHeaders).Ok? ==>
      var body := get(location, YadisHeaders).value.body;
      found == (if body.Ok? then parseXrds(body.value) else Found("", "", Some(body.error)))
  {
    calls := [HttpGet(location, YadisHeaders)];
    var resp := get(location, YadisHeaders);
    if resp.Err? {
      return Found("", "", Some(resp.error)), calls;
    }
    var body := resp.value.body;
    if body.Err? {
      return Found("", "", Some(body.error)), calls;
    }
    found := parseXrds(body.value);
  }

  /** The four responses section 6.2.5 allows, in the precedence this code
      gives them. */
  datatype Branch = FollowLocation(location: string) | ScanHtml | ParseBody | NotYadis

  /** The branch a response's headers select: a non-empty `X-XRDS-Location`
      header wins over any content type; then an HTML content type; then an
      XRDS content type; anything else is not a Yadis response. */
  function SelectBranch(header: Headers): (b: Branch)
    ensures b.FollowLocation? <==> HeaderGet(header, XrdsLocationHeader) != ""
    ensures b.FollowLocation? ==> b.location == HeaderGet(header, XrdsLocationHeader)
    ensures b == ScanHtml <==>
      HeaderGet(header, XrdsLocationHeader) == "" && Strings.Contains(HeaderGet(header, "Content-Type"), "text/html")
    ensures b == ParseBody <==>
      && HeaderGet(header, XrdsLocationHeader) == ""
      && !Strings.Contains(HeaderGet(header, "Content-Type"), "text/html")
      && Strings.Contains(HeaderGet(header, "Content-Type"), XrdsContentType)
  {
    var contentType := HeaderGet(header, "Content-Type");
    var l := HeaderGet(header, XrdsLocationHeader);
    if l != "" then FollowLocation(l)
    else if Strings.Contains(contentType, "text/html") then ScanHtml
    else if Strings.Contains(contentType, XrdsContentType) then ParseBody
    else NotYadis
  }

  /** `yadisDiscovery`. */
  method YadisDiscovery(id: string, get: Getter, parseXrds: XrdsParser)
    returns (found: Found, calls: seq<Call>)
    ensures 1 <= |calls| <= 2 && calls[0] == HttpGet(id, YadisHeaders)
    ensures forall c :: c in calls ==> c.HttpGet? && c.headers == YadisHeaders
    ensures get(id, YadisHeaders).Err? ==>
      found == Found("", "", Some(get(id, YadisHeaders).error)) && |calls| == 1
    ensures get(id, YadisHeaders).Ok? ==>
      var resp := get(id, YadisHeaders).value;
      match SelectBranch(resp.header)
      case FollowLocation(l) => calls[1..] == [HttpGet(l, YadisHeaders)]
      case ScanHtml =>
        var meta := MetaScan(resp.tokens, false);
        if meta.Ok? then calls[1..] == [HttpGet(meta.value, YadisHeaders)]
        else found == Found("", "", Some(meta.error)) && |calls| == 1
      case ParseBody =>
        && found == (if resp.body.Ok? then parseXrds(resp.body.value) else Found("", "", Some(resp.body.error)))
        && |calls| == 1
      case NotYadis => found == Found("", "", Some(ErrNoYadis)) && |calls| == 1
    ensures |calls| == 2 ==>
      var second := get(calls[1].url, YadisHeaders);
      found == (if second.Err? then Found("", "", Some(second.error))
                else if second.value.body.Err? then Found("", "", Some(second.value.body.error))
                else parseXrds(second.value.body.value))
  {
    calls := [HttpGet(id, YadisHeaders)];
    var resp := get(id, YadisHeaders);
    if resp.Err? {
      return Found("", "", Some(resp.error)), calls;
    }
    var contentType := HeaderGet(resp.value.header, "Content-Type");
    var l := HeaderGet(resp.value.header, XrdsLocationHeader);
    if l != "" {
      var more;
      found, more := GetYadisResourceDescriptor(l, get, parseXrds);
      return found, calls + more;
    } else if Strings.Contains(contentType, "text/html") {
      var metaContent, err := FindMetaXrdsLocation(resp.value.tokens);
      if err.None? {
        var more;
        found, more := GetYadisResourceDescriptor(metaContent, get, parseXrds);
        return found, calls + more;
      }
      return Found("", "", err), calls;
    } else if Strings.Contains(contentType, XrdsContentType) {
      var body := resp.value.body;
      if body.Err? {
        return Found("", "", Some(body.error)), calls;
      }
      return parseXrds(body.value), calls;
    }
    return Found("", "", Some(ErrNoYadis)), calls;
  }
}
