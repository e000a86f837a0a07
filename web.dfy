/** The web-facing values the library consumes, replaced by abstract records:
    `url.Values`, a parsed URL, HTTP responses, HTML tokens, and the record of
    outbound calls (fetches, POSTs, discovery runs, nonce checks). */
module Web {
  import opened Wrappers

  /** `url.Values`: each key maps to the list of its values, in insertion order. */
  type Values = map<string, seq<string>>

  /** `url.Values.Get`: the first value of `key`, or "" when there is none. */
  function Get(v: Values, key: string): (r: string)
    ensures r != "" ==> key in v && |v[key]| > 0 && r == v[key][0]
    ensures key in v && |v[key]| > 0 ==> r == v[key][0]
  {
    if key in v && |v[key]| > 0 then v[key][0] else ""
  }

  /** `url.Values.Add`: append `value` to the list of `key`. */
  function Add(v: Values, key: string, value: string): (r: Values)
    ensures r.Keys == v.Keys + {key}
    ensures r[key] == (if key in v then v[key] else []) + [value]
    ensures forall k :: k in v && k != key ==> r[k] == v[k]
  {
    assert [] + [value] == [value];
    v[key := if key in v then v[key] + [value] else [value]]
  }

  /** The parts of a parsed `*url.URL` that the library reads. */
  datatype Url = Url(scheme: string, host: string, path: string, rawQuery: string)

  /** HTTP request headers, as a map from name to value. */
  type Headers = map<string, string>

  /** `http.Header.Get`: the value of a response header, or "". */
  function HeaderGet(h: Headers, name: string): string {
    if name in h then h[name] else ""
  }

  /** One attribute of an HTML tag. */
  datatype Attr = Attr(key: string, val: string)

  /** The kinds of tag token the HTML tokenizer reports. */
  datatype TagKind = StartTag | EndTag | SelfClosingTag

  /** A token of the HTML tokenizer: a tokenizer error (a malformed document,
      or end of input), a tag with its lower-cased name and attributes, or
      any other token (text, comment, doctype). */
  datatype Token =
    | ErrorToken(err: string)
    | TagToken(kind: TagKind, data: string, attrs: seq<Attr>)
    | OtherToken

  /** What the tokenizer reports once the input is exhausted (`io.EOF`). */
  const EndOfInput := "EOF"

  /** An HTTP response: its headers, the final URL after redirects, the body
      as HTML tokens, and the body as text (or the error reading it failed with). */
  datatype Response = Response(header: Headers, finalUrl: string, tokens: seq<Token>, body: Result<string>)

  /** The HTTP GET capability: a response or a transport error. */
  type Getter = (string, Headers) -> Result<Response>

  /** The HTTP POST capability (a form POST): the response body, or a transport error. */
  type Poster = (string, Values) -> Result<string>

  /** An outbound call the relying party makes. */
  datatype Call =
    | HttpGet(url: string, headers: Headers)
    | HttpPost(url: string, form: Values)
    | Discover(id: string)
    | AcceptNonce(endpoint: string, nonce: string)

  /** Attribute `key` with value `val` occurs in `attrs`. */
  predicate HasAttr(attrs: seq<Attr>, key: string, val: string) {
    exists i :: 0 <= i < |attrs| && attrs[i] == Attr(key, val)
  }

  /** The value of the last attribute named `key`, or "" when there is none. */
  function LastValue(attrs: seq<Attr>, key: string): (r: string)
    ensures r != "" ==> exists i :: 0 <= i < |attrs| && attrs[i] == Attr(key, r)
  {
    if attrs == [] then ""
    else if attrs[|attrs| - 1].key == key then attrs[|attrs| - 1].val
    else LastValue(attrs[..|attrs| - 1], key)
  }
}
