/** The anti-replay store for `openid.response_nonce` values (nonce_store.go).
    A nonce is a 20-character UTC timestamp followed by a suffix; the store
    maps each endpoint to the (timestamp, suffix) pairs it still remembers.
    The wall clock becomes the `now` parameter (nanoseconds since the Unix
    epoch) and the `-openid-max-nonce-age` flag becomes a constructor field. */
module NonceStore {
  import opened Wrappers
  import Rfc3339

  const MinNonceLength := 20
  const MaxNonceLength := 256

  /** The flag's default: 60 seconds, in nanoseconds. */
  const DefaultMaxNonceAge := 60 * Rfc3339.NanosPerSecond

  /** A remembered nonce: its timestamp `t` and its suffix `s`. */
  datatype Nonce = Nonce(t: int, s: string)

  type Store = map<string, seq<Nonce>>

  datatype NonceError =
    | InvalidNonce   // wrong length
    | BadTimestamp   // the first 20 characters are not an RFC 3339 UTC time
    | NonceTooOld    // older than the maximum age
    | NonceReused    // already seen for this endpoint

  /** What one call to `Accept` does: the store afterwards and the error, if any. */
  datatype Outcome = Outcome(store: Store, err: Option<NonceError>)

  /** The instant written by the first 20 characters of a nonce. */
  function ParseTimestamp(prefix: string): (r: Option<int>)
    ensures r.Some? <==> Rfc3339.Parse(prefix).Some?
  {
    match Rfc3339.Parse(prefix)
    case None => None
    case Some(dt) => Some(Rfc3339.UnixNanos(dt))
  }

  /** The entries of `ns` younger than `maxAge` at `now`, in order. */
  function Fresh(ns: seq<Nonce>, now: int, maxAge: int): (r: seq<Nonce>)
    ensures |r| <= |ns|
    ensures forall n :: n in r <==> n in ns && now - n.t < maxAge
  {
    if ns == [] then []
    else
      var last := ns[|ns| - 1];
      var init := Fresh(ns[..|ns| - 1], now, maxAge);
      assert ns == ns[..|ns| - 1] + [last];
      if now - last.t < maxAge then init + [last] else init
  }

  /** What `SimpleNonceStore.Accept` does to `store`, as written: a nonce
      for an endpoint that already has a list only purges that list and is
      not itself recorded. */
  function AcceptOutcome(store: Store, maxAge: int, endpoint: string, nonce: string, now: int): (r: Outcome)
    ensures r.err.Some? ==> r.store == store
    ensures r.err.None? ==> NonceOf(nonce).Some? && now - NonceOf(nonce).value.t <= maxAge
    ensures r.store.Keys == store.Keys + (if r.err.None? then {endpoint} else {})
  {
    if |nonce| < MinNonceLength || |nonce| > MaxNonceLength then Outcome(store, Some(InvalidNonce))
    else match ParseTimestamp(nonce[..20])
      case None => Outcome(store, Some(BadTimestamp))
      case Some(ts) =>
        if now - ts > maxAge then Outcome(store, Some(NonceTooOld))
        else
          var n := Nonce(ts, nonce[20..]);
          if endpoint in store then
            if n in store[endpoint] then Outcome(store, Some(NonceReused))
            else Outcome(store[endpoint := Fresh(store[endpoint], now, maxAge)], None)
          else Outcome(store[endpoint := [n]], None)
  }

  /** The nonce a well-formed `nonce` string denotes. */
  function NonceOf(nonce: string): (r: Option<Nonce>)
    ensures r.Some? <==> MinNonceLength <= |nonce| <= MaxNonceLength && Rfc3339.Parse(nonce[..20]).Some?
    ensures r.Some? ==> MinNonceLength <= |nonce| && r.value.s == nonce[20..]
    ensures r.Some? ==> r.value.t == Rfc3339.UnixNanos(Rfc3339.Parse(nonce[..20]).value)
  {
    if |nonce| < MinNonceLength || |nonce| > MaxNonceLength then None
    else match ParseTimestamp(nonce[..20])
      case None => None
      case Some(ts) => Some(Nonce(ts, nonce[20..]))
  }

  class SimpleNonceStore {
    var store: Store
    const maxNonceAge: int

    constructor (maxNonceAge: int)
      ensures store == map[] && this.maxNonceAge == maxNonceAge
    {
      store := map[];
      this.maxNonceAge := maxNonceAge;
    }

    /** The package's store: empty, with the flag's default maximum age. */
    static method Default() returns (d: SimpleNonceStore)
      ensures fresh(d) && d.store == map[] && d.maxNonceAge == DefaultMaxNonceAge
    {
      d := new SimpleNonceStore(DefaultMaxNonceAge);
    }

    /** Accept `nonce` from `endpoint` at time `now`, or say why not. */
    method Accept(endpoint: string, nonce: string, now: int) returns (err: Option<NonceError>)
      modifies this
      ensures Outcome(store, err) == AcceptOutcome(old(store), maxNonceAge, endpoint, nonce, now)
    {
      if |nonce| < MinNonceLength || |nonce| > MaxNonceLength {
        return Some(InvalidNonce);
      }
      var parsed := ParseTimestamp(nonce[..20]);
      if parsed.None? {
        return Some(BadTimestamp);
      }
      var ts := parsed.value;
      if now - ts > maxNonceAge {
        return Some(NonceTooOld);
      }
      var s := nonce[20..];
      if endpoint in store {
        var nonces := store[endpoint];
        var newNonces := [];
        var i := 0;
        while i < |nonces|
          invariant 0 <= i <= |nonces|
          invariant newNonces == Fresh(nonces[..i], now, maxNonceAge)
          invariant Nonce(ts, s) !in nonces[..i]
        {
          var n := nonces[i];
          assert nonces[..i + 1] == nonces[..i] + [n];
          if n.t == ts && n.s == s {
            // The list built so far is dropped and the store stays as it was.
            return Some(NonceReused);
          }
          if now - n.t < maxNonceAge {
            newNonces := newNonces + [n];
          }
          i := i + 1;
        }
        assert nonces[..i] == nonces;
        store := store[endpoint := newNonces];
      } else {
        store := store[endpoint := [Nonce(ts, s)]];
      }
      return None;
    }
  }

  /** A rejected nonce leaves the store as it was; the length, the timestamp
      and the age are checked in that order. */
  lemma RejectionChecks(store: Store, maxAge: int, endpoint: string, nonce: string, now: int)
    ensures var r := AcceptOutcome(store, maxAge, endpoint, nonce, now);
      && (r.err.Some? ==> r.store == store)
      && (r.err == Some(InvalidNonce) <==> |nonce| < MinNonceLength || |nonce| > MaxNonceLength)
      && (r.err == Some(BadTimestamp) <==>
            MinNonceLength <= |nonce| <= MaxNonceLength && Rfc3339.Parse(nonce[..20]).None?)
  {
  }

  /** The age limit is inclusive: a nonce exactly `maxAge` old gets past it,
      one a nanosecond older does not. */
  lemma AgeLimit(store: Store, maxAge: int, endpoint: string, nonce: string, now: int)
    requires NonceOf(nonce).Some?
    ensures var r := AcceptOutcome(store, maxAge, endpoint, nonce, now);
      r.err == Some(NonceTooOld) <==> now - NonceOf(nonce).value.t > maxAge
  {
  }

  /** For an endpoint without a list, an accepted nonce becomes its whole list. */
  lemma NewEndpointRecordsNonce(store: Store, maxAge: int, endpoint: string, nonce: string, now: int)
    requires endpoint !in store && NonceOf(nonce).Some?
    requires now - NonceOf(nonce).value.t <= maxAge
    ensures AcceptOutcome(store, maxAge, endpoint, nonce, now)
      == Outcome(store[endpoint := [NonceOf(nonce).value]], None)
  {
  }

  /** For an endpoint with a list, a nonce already in it is rejected and the
      list is kept unpurged; any other nonce is accepted, the list is purged
      of entries at least `maxAge` old, and the nonce is not added. */
  lemma KnownEndpoint(store: Store, maxAge: int, endpoint: string, nonce: string, now: int)
    requires endpoint in store && NonceOf(nonce).Some?
    requires now - NonceOf(nonce).value.t <= maxAge
    ensures var n := NonceOf(nonce).value;
      var r := AcceptOutcome(store, maxAge, endpoint, nonce, now);
      && (n in store[endpoint] ==> r == Outcome(store, Some(NonceReused)))
      && (n !in store[endpoint] ==>
            && r.err == None && endpoint in r.store
            && r.store[endpoint] == Fresh(store[endpoint], now, maxAge)
            && n !in r.store[endpoint])
  {
  }

  /** Once an endpoint has a list it keeps one, and it never grows; the
      lists of the other endpoints are never touched. */
  lemma ListsNeverGrow(store: Store, maxAge: int, endpoint: string, nonce: string, now: int)
    ensures var r := AcceptOutcome(store, maxAge, endpoint, nonce, now);
      && (endpoint in store ==> endpoint in r.store && |r.store[endpoint]| <= |store[endpoint]|)
      && (endpoint !in store && endpoint in r.store ==> |r.store[endpoint]| == 1)
      && (forall e :: e != endpoint ==> (e in store <==> e in r.store))
      && (forall e :: e != endpoint && e in store ==> r.store[e] == store[e])
  {
  }

  /** The first nonce seen for an endpoint cannot be replayed straight away. */
  lemma FirstNonceNotReplayable(store: Store, maxAge: int, endpoint: string, nonce: string, now: int, later: int)
    requires endpoint !in store
    requires AcceptOutcome(store, maxAge, endpoint, nonce, now).err == None
    ensures AcceptOutcome(AcceptOutcome(store, maxAge, endpoint, nonce, now).store, maxAge, endpoint, nonce, later).err.Some?
  {
  }

  /** As written, a nonce accepted for an endpoint that already has a list is
      forgotten at once, so the very same nonce is accepted a second time. */
  lemma LaterNonceReplayable(store: Store, maxAge: int, endpoint: string, nonce: string, now: int)
    requires endpoint in store
    requires AcceptOutcome(store, maxAge, endpoint, nonce, now).err == None
    ensures AcceptOutcome(AcceptOutcome(store, maxAge, endpoint, nonce, now).store, maxAge, endpoint, nonce, now).err == None
  {
    var n := NonceOf(nonce).value;
    assert n !in Fresh(store[endpoint], now, maxAge);
  }

  /** As written, the purge drops a nonce exactly `maxAge` old although the
      age check still accepts it: the first nonce of an endpoint is forgotten
      once another nonce arrives at that instant, and is then accepted again. */
  lemma BoundaryReplay(store: Store, maxAge: int, endpoint: string, first: string, second: string, now: int)
    requires endpoint !in store
    requires AcceptOutcome(store, maxAge, endpoint, first, now).err == None
    requires var at := NonceOf(first).value.t + maxAge;
      AcceptOutcome(AcceptOutcome(store, maxAge, endpoint, first, now).store, maxAge, endpoint, second, at).err == None
    ensures var at := NonceOf(first).value.t + maxAge;
      var s1 := AcceptOutcome(store, maxAge, endpoint, first, now).store;
      var s2 := AcceptOutcome(s1, maxAge, endpoint, second, at).store;
      AcceptOutcome(s2, maxAge, endpoint, first, at).err == None
  {
    var n := NonceOf(first).value;
    var at := n.t + maxAge;
    var s1 := AcceptOutcome(store, maxAge, endpoint, first, now).store;
    assert s1[endpoint] == [n];
    var s2 := AcceptOutcome(s1, maxAge, endpoint, second, at).store;
    assert s2[endpoint] == Fresh([n], at, maxAge);
    assert n !in s2[endpoint];
  }

  /** What `Accept` evidently means to do: record every accepted nonce,
      appending it to its endpoint's list, and purge only the entries the
      age check would refuse, so a nonce exactly `maxAge` old is kept. */
  function IntendedAcceptOutcome(store: Store, maxAge: int, endpoint: string, nonce: string, now: int): (r: Outcome)
    ensures r.err.Some? ==> r.store == store
    ensures r.err == None ==> endpoint in r.store && NonceOf(nonce).Some? && NonceOf(nonce).value in r.store[endpoint]
  {
    var r := AcceptOutcome(store, maxAge, endpoint, nonce, now);
    if r.err.None? && endpoint in store then
      Outcome(store[endpoint := Fresh(store[endpoint], now, maxAge + 1) + [NonceOf(nonce).value]], None)
    else r
  }

  /** With the intended store an accepted nonce is refused when replayed
      straight away, whether or not its endpoint already had a list. */
  lemma IntendedNotReplayable(store: Store, maxAge: int, endpoint: string, nonce: string, now: int, later: int)
    requires IntendedAcceptOutcome(store, maxAge, endpoint, nonce, now).err == None
    ensures IntendedAcceptOutcome(IntendedAcceptOutcome(store, maxAge, endpoint, nonce, now).store, maxAge, endpoint, nonce, later).err.Some?
  {
  }

  /** One call to `Accept`: the endpoint, the nonce and the time it runs. */
  datatype Request = Request(endpoint: string, nonce: string, now: int)

  /** The intended store after a series of calls, in order. */
  function IntendedRun(store: Store, maxAge: int, reqs: seq<Request>): Store
    decreases |reqs|
  {
    if reqs == [] then store
    else
      var q := reqs[0];
      IntendedRun(IntendedAcceptOutcome(store, maxAge, q.endpoint, q.nonce, q.now).store, maxAge, reqs[1..])
  }

  /** A remembered nonce survives any call made while it is at most
      `maxAge` old. */
  lemma IntendedKeepsUnexpired(store: Store, maxAge: int, q: Request, e: string, n: Nonce)
    requires e in store && n in store[e] && q.now - n.t <= maxAge
    ensures var s := IntendedAcceptOutcome(store, maxAge, q.endpoint, q.nonce, q.now).store;
      e in s && n in s[e]
  {
    var r := AcceptOutcome(store, maxAge, q.endpoint, q.nonce, q.now);
    if r.err.None? && q.endpoint == e {
      assert n in Fresh(store[e], q.now, maxAge + 1);
    }
  }

  /** ... and so survives a whole series of such calls. */
  lemma {:induction false} IntendedRemembers(store: Store, maxAge: int, reqs: seq<Request>, e: string, n: Nonce)
    requires e in store && n in store[e]
    requires forall k :: 0 <= k < |reqs| ==> reqs[k].now - n.t <= maxAge
    ensures var s := IntendedRun(store, maxAge, reqs); e in s && n in s[e]
    decreases |reqs|
  {
    if reqs != [] {
      var q := reqs[0];
      IntendedKeepsUnexpired(store, maxAge, q, e, n);
      var next := IntendedAcceptOutcome(store, maxAge, q.endpoint, q.nonce, q.now).store;
      assert forall k :: 0 <= k < |reqs[1..]| ==> reqs[1..][k] == reqs[k + 1];
      IntendedRemembers(next, maxAge, reqs[1..], e, n);
    }
  }

  /** The intended store never accepts a nonce twice: after it accepts
      `first`, any replay of the same nonce for the same endpoint is refused,
      whatever other calls come in between, as long as the clock does not go
      back. A replay that has aged out fails the age check; one that has not
      finds its nonce still remembered. */
  lemma {:induction false} IntendedNoReplay(store: Store, maxAge: int, first: Request, between: seq<Request>, replay: Request)
    requires replay.endpoint == first.endpoint && replay.nonce == first.nonce
    requires IntendedAcceptOutcome(store, maxAge, first.endpoint, first.nonce, first.now).err == None
    requires forall k :: 0 <= k < |between| ==> between[k].now <= replay.now
    ensures var s1 := IntendedAcceptOutcome(store, maxAge, first.endpoint, first.nonce, first.now).store;
      IntendedAcceptOutcome(IntendedRun(s1, maxAge, between), maxAge, replay.endpoint, replay.nonce, replay.now).err.Some?
  {
    var n := NonceOf(first.nonce).value;
    var s1 := IntendedAcceptOutcome(store, maxAge, first.endpoint, first.nonce, first.now).store;
    var s2 := IntendedRun(s1, maxAge, between);
    if replay.now - n.t <= maxAge {
      IntendedRemembers(s1, maxAge, between, first.endpoint, n);
      assert AcceptOutcome(s2, maxAge, replay.endpoint, replay.nonce, replay.now).err == Some(NonceReused);
    } else {
      assert AcceptOutcome(s2, maxAge, replay.endpoint, replay.nonce, replay.now).err == Some(NonceTooOld);
    }
  }
}
