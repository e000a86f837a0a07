/** The few operations of Go's `strings` package that the library relies on. */
module Strings {

  /** `strings.HasPrefix(s, p)`. */
  predicate HasPrefix(s: string, p: string) {
    |p| <= |s| && s[..|p|] == p
  }

  /** `sub` occurs in `s` starting at position `i`. */
  predicate OccursAt(s: string, sub: string, i: int) {
    0 <= i && i + |sub| <= |s| && s[i..i + |sub|] == sub
  }

  /** `strings.Contains(s, sub)`: `sub` occurs somewhere in `s`. */
  function Contains(s: string, sub: string): (b: bool)
    ensures b <==> exists i :: OccursAt(s, sub, i)
    decreases |s|
  {
    if |s| < |sub| then false
    else if HasPrefix(s, sub) then
      assert OccursAt(s, sub, 0);
      true
    else
      var rest := Contains(s[1..], sub);
      forall i | 0 <= i ensures OccursAt(s[1..], sub, i) <==> OccursAt(s, sub, i + 1) {
        OccursShift(s, sub, i);
      }
      assert !OccursAt(s, sub, 0);
      assert forall i :: OccursAt(s, sub, i) ==> OccursAt(s[1..], sub, i - 1);
      rest
  }

  lemma OccursShift(s: string, sub: string, i: int)
    requires |s| > 0 && 0 <= i
    ensures OccursAt(s[1..], sub, i) <==> OccursAt(s, sub, i + 1)
  {
    if i + |sub| <= |s| - 1 {
      assert s[1..][i..i + |sub|] == s[i + 1..i + 1 + |sub|];
    }
  }

  /** `strings.Index(s, string(c))`: the first position of `c` in `s`, or -1. */
  function IndexOf(s: string, c: char): (r: int)
    ensures r == -1 <==> c !in s
    ensures r != -1 ==> 0 <= r < |s| && s[r] == c && c !in s[..r]
  {
    if |s| == 0 then -1
    else if s[0] == c then 0
    else
      var r := IndexOf(s[1..], c);
      if r == -1 then -1
      else
        assert s[..r + 1] == [s[0]] + s[1..][..r];
        r + 1
  }

  /** `s` cut just before the first `c`, or all of `s` when there is none
      (the `s[0:strings.Index(s, "#")]` idiom). */
  function CutAt(s: string, c: char): (r: string)
    ensures c !in r
    ensures HasPrefix(s, r)
    ensures r == s || s[|r|] == c
  {
    var i := IndexOf(s, c);
    if i == -1 then s else s[..i]
  }

  /** Cutting at `c` cuts before its first occurrence. */
  lemma CutAtFirst(s: string, c: char, i: nat)
    requires i < |s| && s[i] == c && c !in s[..i]
    ensures CutAt(s, c) == s[..i]
  {
  }

  /** Cutting at a character the prefix `p` does not contain keeps `p`. */
  lemma CutKeepsPrefix(s: string, p: string, c: char)
    requires HasPrefix(s, p) && c !in p
    ensures HasPrefix(CutAt(s, c), p)
  {
    var r := CutAt(s, c);
    assert r[..|p|] == s[..|p|];
  }

  /** `s` without its first `n` characters; empty when `s` is shorter. */
  function Drop(s: string, n: nat): (r: string)
    ensures n <= |s| ==> s == s[..n] + r
    ensures |s| < n ==> r == ""
  {
    if n <= |s| then s[n..] else ""
  }

  /** The pieces of `s` between the occurrences of `c`, rejoined. */
  function Join(pieces: seq<string>, c: char): string
    requires |pieces| >= 1
  {
    if |pieces| == 1 then pieces[0] else pieces[0] + [c] + Join(pieces[1..], c)
  }

  /** `strings.Split(s, string(c))`: the pieces of `s` between the
      occurrences of `c`; at least one piece, none holding `c`, and joining
      them again gives `s` back. */
  function Split(s: string, c: char): (r: seq<string>)
    ensures |r| >= 1
    ensures forall i :: 0 <= i < |r| ==> c !in r[i]
    ensures Join(r, c) == s
    decreases |s|
  {
    var i := IndexOf(s, c);
    if i == -1 then [s]
    else
      var rest := Split(s[i + 1..], c);
      assert ([s[..i]] + rest)[1..] == rest;
      assert s == s[..i] + [c] + s[i + 1..];
      [s[..i]] + rest
  }

  /** Splitting joined pieces that do not hold the separator gives them back. */
  lemma {:induction false} SplitJoin(pieces: seq<string>, c: char)
    requires |pieces| >= 1
    requires forall i :: 0 <= i < |pieces| ==> c !in pieces[i]
    ensures Split(Join(pieces, c), c) == pieces
  {
    if |pieces| > 1 {
      var p := pieces[0];
      var s := Join(pieces, c);
      assert s == p + [c] + Join(pieces[1..], c);
      assert s[|p|] == c && s[..|p|] == p;
      var i := IndexOf(s, c);
      assert i == |p|;
      assert s[i + 1..] == Join(pieces[1..], c);
      SplitJoin(pieces[1..], c);
      assert pieces == [p] + pieces[1..];
    } else {
      assert IndexOf(pieces[0], c) == -1;
    }
  }

  /** Joining one more piece appends the separator and that piece. */
  lemma {:induction false} JoinSnoc(pieces: seq<string>, x: string, c: char)
    requires |pieces| >= 1
    ensures Join(pieces + [x], c) == Join(pieces, c) + [c] + x
  {
    if |pieces| == 1 {
      assert (pieces + [x])[1..] == [x];
    } else {
      assert (pieces + [x])[1..] == pieces[1..] + [x];
      JoinSnoc(pieces[1..], x, c);
    }
  }

  lemma {:induction false} PrefixOfPrefix(s: string, p: string, q: string)
    requires HasPrefix(s, p) && HasPrefix(p, q)
    ensures HasPrefix(s, q)
  {
    assert s[..|q|] == s[..|p|][..|q|];
  }
}
