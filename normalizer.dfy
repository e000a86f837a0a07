/** Identifier normalization (src/openid/normalizer.go), after section 7.2
    of OpenID Authentication 2.0: XRIs are refused, anything else is treated
    as an http URL, given the `http://` scheme when it has neither `http`
    nor `https`, and stripped of its fragment. */
module Normalizer {
  import opened Wrappers
  import opened Strings

  const ErrXri := "XRI identifiers not supported"

  /** The XRI global context symbols this code refuses as a first character.
      `(`, which the XRI syntax also lists, is not among them. */
  predicate IsXriGlobalContextSymbol(c: char) {
    c == '=' || c == '@' || c == '+' || c == '$' || c == '!'
  }

  predicate HasHttpScheme(s: string) {
    HasPrefix(s, "http://") || HasPrefix(s, "https://")
  }

  /** `Normalize`. The source reads the first character without a length
      check, so the identifier must be non-empty. */
  function Normalize(id: string): (r: Result<string>)
    requires |id| > 0
    ensures r.Ok? <==> !HasPrefix(id, "xri://") && !IsXriGlobalContextSymbol(id[0])
    ensures r.Err? ==> r.error == ErrXri
    ensures r.Ok? ==> HasHttpScheme(r.value) && '#' !in r.value
    ensures r.Ok? ==> r.value == CutAt(if HasHttpScheme(id) then id else "http://" + id, '#')
  {
    if HasPrefix(id, "xri://") then Err(ErrXri)
    else if IsXriGlobalContextSymbol(id[0]) then Err(ErrXri)
    else
      var withScheme := if !HasPrefix(id, "http://") && !HasPrefix(id, "https://") then "http://" + id else id;
      assert HasHttpScheme(CutAt(withScheme, '#')) by {
        if HasPrefix(withScheme, "http://") {
          CutKeepsPrefix(withScheme, "http://", '#');
        } else {
          CutKeepsPrefix(withScheme, "https://", '#');
        }
      }
      Ok(CutAt(withScheme, '#'))
  }

  /** A normalized identifier is its own normal form. */
  lemma NormalizeIdempotent(id: string)
    requires |id| > 0 && Normalize(id).Ok?
    ensures |Normalize(id).value| > 0
    ensures Normalize(Normalize(id).value) == Normalize(id)
  {
    var v := Normalize(id).value;
    assert v[0] == 'h';
    assert !HasPrefix(v, "xri://") by {
      assert v[..6] != "xri://";
    }
    assert CutAt(v, '#') == v;
  }

  /** An http or https identifier without a fragment is already normal. */
  lemma HttpIdentifierUnchanged(id: string)
    requires HasHttpScheme(id) && '#' !in id
    ensures Normalize(id) == Ok(id)
  {
    assert id[0] == 'h';
    assert id[..6] != "xri://";
  }

  /** An identifier opening with `(` is not refused: it is read as a URL
      without a scheme, given `http://` and cut at its first `#`. */
  lemma ParenNotRefused(id: string)
    requires |id| > 0 && id[0] == '('
    ensures Normalize(id).Ok?
    ensures Normalize(id).value == CutAt("http://" + id, '#')
  {
    assert !HasPrefix(id, "xri://") && !HasHttpScheme(id) by {
      if |id| >= 6 {
        assert id[..6][0] == '(';
      }
    }
  }
}
