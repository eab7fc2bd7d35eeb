/**
 Leases on a Redis key (redis-coordination.ts): SET NX PX with a token of the caller's, and a compare-and-delete to
 release.  An entry whose time has come is gone, whether or not it has been removed.
 */
module Lease {
  import opened Common
  import opened Text

  datatype Entry = Entry(token: string, expiresAt: int)

  type Keys = map<string, Entry>

  predicate Present(keys: Keys, key: string, now: int) {
    key in keys && keys[key].expiresAt > now
  }

  /** The acquire script. */
  function SetIfAbsent(keys: Keys, key: string, token: string, ttl: int, now: int): (Keys, bool) {
    if Present(keys, key, now) then (keys, false) else (keys[key := Entry(token, now + ttl)], true)
  }

  /** The release script. */
  function DeleteIfOwn(keys: Keys, key: string, token: string, now: int): (Keys, bool) {
    if Present(keys, key, now) && keys[key].token == token then (keys - {key}, true) else (keys, false)
  }

  datatype Error = InvalidKey | InvalidTtl | ReplyLost

  predicate ValidKey(key: string) {
    0 < |key| <= 256 && ControlFree(key)
  }

  predicate ValidTtl(ttl: int) {
    1000 <= ttl <= 300000
  }

  class RedisServer {
    var keys: Keys

    constructor ()
      ensures keys == map[]
    {
      keys := map[];
    }

    method EvalAcquire(key: string, token: string, ttl: int, now: int) returns (stored: bool)
      modifies this
      ensures (keys, stored) == SetIfAbsent(old(keys), key, token, ttl, now)
    {
      stored := key !in keys || keys[key].expiresAt <= now;
      if stored {
        keys := keys[key := Entry(token, now + ttl)];
      }
    }

    method EvalRelease(key: string, token: string, now: int) returns (deleted: bool)
      modifies this
      ensures (keys, deleted) == DeleteIfOwn(old(keys), key, token, now)
    {
      deleted := key in keys && keys[key].expiresAt > now && keys[key].token == token;
      if deleted {
        keys := keys - {key};
      }
    }
  }

  /** What acquire hands out; release asks the server once only. */
  class RedisLease {
    const server: RedisServer
    const key: string
    const token: string
    const expiresAt: int
    var released: bool

    constructor (server: RedisServer, key: string, token: string, expiresAt: int)
      ensures this.server == server && this.key == key && this.token == token && this.expiresAt == expiresAt
      ensures !released
    {
      this.server, this.key, this.token, this.expiresAt, released := server, key, token, expiresAt, false;
    }

    /** `reached` says whether the script ran, `answered` whether its answer came back. */
    method Release(now: int, reached: bool, answered: bool) returns (r: Result<bool, Error>)
      modifies this, server
      ensures released
      ensures old(released) ==> r == Ok(false) && server.keys == old(server.keys)
      ensures !old(released) ==>
                server.keys == if reached then DeleteIfOwn(old(server.keys), key, token, now).0 else old(server.keys)
      ensures !old(released) ==>
                r == if reached && answered then Ok(DeleteIfOwn(old(server.keys), key, token, now).1)
                     else Err(ReplyLost)
    {
      if released {
        return Ok(false);
      }
      released := true;
      if !reached {
        return Err(ReplyLost);
      }
      var deleted := server.EvalRelease(key, token, now);
      r := if answered then Ok(deleted) else Err(ReplyLost);
    }
  }

  class RedisLeaseStore {
    const server: RedisServer

    constructor (server: RedisServer)
      ensures this.server == server
    {
      this.server := server;
    }

    /** `sampled` is the caller's clock when it asked, `now` the server's when the script ran. */
    method Acquire(key: string, ttl: int, sampled: int, token: string, now: int, reached: bool, answered: bool)
        returns (r: Result<Option<RedisLease>, Error>)
      modifies server
      ensures r == Err(InvalidKey) <==> key == "" || |key| > 256 || exists i :: 0 <= i < |key| && IsControl(key[i])
      ensures r == Err(InvalidTtl) <==> ValidKey(key) && (ttl < 1000 || ttl > 300000)
      ensures !ValidKey(key) ==> r == Err(InvalidKey)
      ensures var after := SetIfAbsent(old(server.keys), key, token, ttl, now);
              var runs := ValidKey(key) && ValidTtl(ttl) && reached;
              && server.keys == (if runs then after.0 else old(server.keys))
              && (r.Ok? && r.value.Some? <==> runs && answered && after.1)
              && (r.Ok? && r.value.None? <==> runs && answered && !after.1)
      ensures r.Ok? && r.value.Some? ==>
                var l := r.value.value;
                l.server == server && l.key == key && l.token == token && l.expiresAt == sampled + ttl && !l.released
                && fresh(l)
    {
      if key == "" || |key| > 256 || !ControlFree(key) {
        return Err(InvalidKey);
      }
      if ttl < 1000 || ttl > 300000 {
        return Err(InvalidTtl);
      }
      if !reached {
        return Err(ReplyLost);
      }
      var acquired := server.EvalAcquire(key, token, ttl, now);
      if !answered {
        return Err(ReplyLost);
      }
      if !acquired {
        return Ok(None);
      }
      var lease := new RedisLease(server, key, token, sampled + ttl);
      r := Ok(Some(lease));
    }
  }

  /* ----- any number of clients of one server ----- */

  /** A lease a client has, and the expiry the server gave its entry. */
  datatype Held = Held(key: string, token: string, expiresAt: int, serverExpiry: int, released: bool)

  /** `tokens` are all tokens ever sent, `calls` the releases on their way to the server. */
  datatype State = State(keys: Keys, now: int, tokens: set<string>, leases: seq<Held>, calls: set<nat>)

  datatype Event =
    | Tick(now: int)
    | Acquire(key: string, ttl: int, sampled: int, token: string, answered: bool)
    | CallRelease(lease: nat)
    | RunRelease(lease: nat)
    | LoseRelease(lease: nat)

  predicate Enabled(s: State, e: Event) {
    match e
    case Tick(now) => now >= s.now
    case Acquire(key, ttl, _, token, _) => ValidKey(key) && ValidTtl(ttl) && token !in s.tokens
    case CallRelease(l) => l < |s.leases|
    case RunRelease(l) => l < |s.leases| && l in s.calls
    case LoseRelease(l) => l < |s.leases| && l in s.calls
  }

  function Next(s: State, e: Event): State
    requires Enabled(s, e)
  {
    match e
    case Tick(now) => s.(now := now)
    case Acquire(key, ttl, sampled, token, answered) =>
      var (keys, got) := SetIfAbsent(s.keys, key, token, ttl, s.now);
      s.(keys := keys, tokens := s.tokens + {token},
         leases := if got && answered then s.leases + [Held(key, token, sampled + ttl, s.now + ttl, false)]
                   else s.leases)
    case CallRelease(l) =>
      if s.leases[l].released then s
      else s.(leases := s.leases[l := s.leases[l].(released := true)], calls := s.calls + {l})
    case RunRelease(l) => s.(keys := DeleteIfOwn(s.keys, s.leases[l].key, s.leases[l].token, s.now).0,
                             calls := s.calls - {l})
    case LoseRelease(l) => s.(calls := s.calls - {l})
  }

  function Initial(now: int): State {
    State(map[], now, {}, [], {})
  }

  ghost predicate Reaches(s: State, events: seq<Event>, t: State)
    decreases |events|
  {
    if events == [] then t == s else Enabled(s, events[0]) && Reaches(Next(s, events[0]), events[1..], t)
  }

  /** A lease nobody has released keeps its entry until the server's expiry. */
  ghost predicate LeaseOk(s: State, l: nat) {
    l < |s.leases| ==>
      var h := s.leases[l];
      && h.token in s.tokens
      && (l in s.calls ==> h.released)
      && (!h.released && h.serverExpiry > s.now ==> h.key in s.keys && s.keys[h.key] == Entry(h.token, h.serverExpiry))
  }

  ghost predicate Inv(s: State) {
    && (forall l :: LeaseOk(s, l))
    && (forall a, b :: 0 <= a < b < |s.leases| ==> s.leases[a].token != s.leases[b].token)
    && (forall k :: k in s.keys ==> s.keys[k].token in s.tokens)
    && (forall l :: l in s.calls ==> l < |s.leases|)
  }

  lemma InvStep(s: State, e: Event)
    requires Inv(s) && Enabled(s, e)
    ensures Inv(Next(s, e))
  {
    hide ValidKey, ValidTtl;
    var t := Next(s, e);
    assert forall l: nat :: LeaseOk(s, l) && l < |s.leases| ==> s.leases[l].token in s.tokens;
    forall l
      ensures LeaseOk(t, l)
    {
      assert LeaseOk(s, l);
      if e.RunRelease? {
        assert LeaseOk(s, e.lease);
      }
    }
  }

  lemma {:induction false} InvRun(s: State, events: seq<Event>, t: State)
    requires Inv(s) && Reaches(s, events, t)
    ensures Inv(t)
    decreases |events|
  {
    hide Inv, Next, Enabled;
    if events != [] {
      InvStep(s, events[0]);
      InvRun(Next(s, events[0]), events[1..], t);
    }
  }

  /** Unreleased, and not expired at the server. */
  predicate Unexpired(s: State, l: nat) {
    l < |s.leases| && !s.leases[l].released && s.leases[l].serverExpiry > s.now
  }

  /** Main result: of the leases on a key at most one is neither released nor expired. */
  lemma OneLeasePerKey(now: int, events: seq<Event>, s: State, a: nat, b: nat)
    requires Reaches(Initial(now), events, s) && Unexpired(s, a) && Unexpired(s, b)
    ensures s.leases[a].key == s.leases[b].key ==> a == b
  {
    InvRun(Initial(now), events, s);
    assert LeaseOk(s, a) && LeaseOk(s, b);
  }

  /** Main result: a release that arrives late, or twice, leaves every other unexpired lease its entry. */
  lemma LateReleaseSparesOthers(now: int, events: seq<Event>, s: State, l: nat, other: nat)
    requires Reaches(Initial(now), events, s) && Enabled(s, RunRelease(l)) && Unexpired(s, other)
    ensures other != l
    ensures var t := Next(s, RunRelease(l));
            s.leases[other].key in t.keys && t.keys[s.leases[other].key] == s.keys[s.leases[other].key]
  {
    InvRun(Initial(now), events, s);
    InvStep(s, RunRelease(l));
    assert LeaseOk(s, other) && LeaseOk(s, l) && LeaseOk(Next(s, RunRelease(l)), other);
  }

  /** The caller's clock was not ahead of the server's at any acquire of the run. */
  ghost predicate SampledInTime(s: State, events: seq<Event>)
    decreases |events|
  {
    events != [] && Enabled(s, events[0]) ==>
      && (events[0].Acquire? ==> events[0].sampled <= s.now)
      && SampledInTime(Next(s, events[0]), events[1..])
  }

  ghost predicate ExpiryOk(s: State) {
    forall l :: 0 <= l < |s.leases| ==> s.leases[l].expiresAt <= s.leases[l].serverExpiry
  }

  lemma {:induction false} ExpiryRun(s: State, events: seq<Event>, t: State)
    requires ExpiryOk(s) && Reaches(s, events, t) && SampledInTime(s, events)
    ensures ExpiryOk(t)
    decreases |events|
  {
    if events != [] {
      ExpiryRun(Next(s, events[0]), events[1..], t);
    }
  }

  /** Main result: if clients read their clock no later than the server runs the script, no client believes in its lease
      longer than the server does; so by the clients' own expiry, too, at most one holds the key. */
  lemma ClientsNeverOverlap(now: int, events: seq<Event>, s: State, a: nat, b: nat)
    requires Reaches(Initial(now), events, s) && SampledInTime(Initial(now), events)
    requires a < |s.leases| && b < |s.leases| && s.leases[a].key == s.leases[b].key
    requires !s.leases[a].released && !s.leases[b].released
    requires s.leases[a].expiresAt > s.now && s.leases[b].expiresAt > s.now
    ensures a == b
    ensures s.leases[a].expiresAt <= s.leases[a].serverExpiry
  {
    ExpiryRun(Initial(now), events, s);
    OneLeasePerKey(now, events, s, a, b);
  }

  /** With a clock ahead of the server's a client can outlive its entry: two clients then hold the key at once. */
  lemma AFastClockOverlaps(key: string, now: int)
    requires ValidKey(key)
    ensures exists events, s :: Reaches(Initial(now), events, s) && |s.leases| == 2
                                && s.leases[0].key == s.leases[1].key
                                && !s.leases[0].released && !s.leases[1].released && s.leases[0].expiresAt > s.now
                                && s.leases[1].expiresAt > s.now
  {
    var e0, e1 := Acquire(key, 1000, now + 1, "a", true), Tick(now + 1000);
    var e2 := Acquire(key, 1000, now + 1000, "b", true);
    var s0 := Initial(now);
    var s1 := Next(s0, e0);
    var s2 := Next(s1, e1);
    assert "a"[0] != "b"[0];
    var s3 := Next(s2, e2);
    assert [e0, e1, e2][1..] == [e1, e2] && [e1, e2][1..] == [e2] && [e2][1..] == [];
    assert Reaches(s2, [e2], s3);
    assert Reaches(s1, [e1, e2], s3);
    assert Reaches(s0, [e0, e1, e2], s3);
  }

  /* ----- getting and giving back a key ----- */

  /** Main result: in any reachable state a request is given the key exactly when no entry of the key is unexpired; the
      entry then carries the request's token and ends its time to live from the server's now, and the lease, which the
      client has if the answer comes back, ends its time to live from the client's.  Otherwise nothing changes. */
  lemma AcquiredIff(s: State, key: string, ttl: int, sampled: int, token: string, answered: bool)
    requires Enabled(s, Acquire(key, ttl, sampled, token, answered))
    ensures var t := Next(s, Acquire(key, ttl, sampled, token, answered));
            var free := forall k :: k in s.keys && s.keys[k].expiresAt > s.now ==> k != key;
            && t.keys == (if free then s.keys[key := Entry(token, s.now + ttl)] else s.keys)
            && t.leases == s.leases + (if free && answered
                                       then [Held(key, token, sampled + ttl, s.now + ttl, false)] else [])
            && t.now == s.now && t.calls == s.calls
  {
    hide ValidKey, ValidTtl;
  }

  /** A lease whose release is on its way still has its entry until the server's expiry. */
  ghost predicate InFlightOk(s: State, l: nat) {
    l in s.calls && l < |s.leases| && s.leases[l].serverExpiry > s.now ==> KeepsEntry(s, s.leases[l])
  }

  predicate KeepsEntry(s: State, h: Held) {
    h.key in s.keys && s.keys[h.key] == Entry(h.token, h.serverExpiry)
  }

  ghost predicate FlightsOk(s: State) {
    forall l :: InFlightOk(s, l)
  }

  lemma DifferentTokens(s: State, a: nat, b: nat)
    requires Inv(s) && a < |s.leases| && b < |s.leases| && a != b
    ensures s.leases[a].token != s.leases[b].token
  {
  }

  lemma InFlightStep(s: State, e: Event, l: nat)
    requires Inv(s) && FlightsOk(s) && Enabled(s, e)
    ensures InFlightOk(Next(s, e), l)
  {
    hide ValidKey, ValidTtl, Inv;
    if l in Next(s, e).calls && l < |Next(s, e).leases| {
      CallsAreLeases(s, l);
      if l in s.calls {
        assert InFlightOk(s, l);
        if e.RunRelease? {
          DifferentTokens(s, l, e.lease);
        }
      } else if l < |s.leases| {
        HasEntry(s, l);
      }
    }
  }

  lemma CallsAreLeases(s: State, l: nat)
    requires Inv(s)
    ensures l in s.calls ==> l < |s.leases|
  {
  }

  lemma HasEntry(s: State, l: nat)
    requires Inv(s) && l < |s.leases|
    ensures !s.leases[l].released && s.leases[l].serverExpiry > s.now ==> KeepsEntry(s, s.leases[l])
  {
    assert LeaseOk(s, l);
  }

  lemma {:induction false} FlightsRun(s: State, events: seq<Event>, t: State)
    requires Inv(s) && FlightsOk(s) && Reaches(s, events, t)
    ensures Inv(t) && FlightsOk(t)
    decreases |events|
  {
    hide Inv, Next, Enabled, InFlightOk;
    if events != [] {
      InvStep(s, events[0]);
      forall l
        ensures InFlightOk(Next(s, events[0]), l)
      {
        InFlightStep(s, events[0], l);
      }
      FlightsRun(Next(s, events[0]), events[1..], t);
    }
  }

  /** Main result: when a release reaches the server before the lease's entry has expired there, the key is free at once
      and the next request for it is given it; when it arrives later it changes nothing. */
  lemma ReleaseFreesKey(now: int, events: seq<Event>, s: State, l: nat, ttl: int, sampled: int, token: string)
    requires Reaches(Initial(now), events, s) && Enabled(s, RunRelease(l))
    ensures var t, h := Next(s, RunRelease(l)), s.leases[l];
            && (h.serverExpiry > s.now ==> t.keys == s.keys - {h.key})
            && (h.serverExpiry > s.now && Enabled(t, Acquire(h.key, ttl, sampled, token, true)) ==>
                  Next(t, Acquire(h.key, ttl, sampled, token, true)).leases ==
                  t.leases + [Held(h.key, token, sampled + ttl, s.now + ttl, false)])
            && (h.serverExpiry <= s.now ==> t.keys == s.keys)
  {
    hide ValidKey, ValidTtl, Reaches;
    FlightsRun(Initial(now), events, s);
    assert InFlightOk(s, l) && LeaseOk(s, l);
    if s.leases[l].serverExpiry <= s.now {
      ExpiredEntry(now, events, s, l);
    }
  }

  /** Main result: giving back a lease that is neither released nor expired takes its entry away; giving it back again
      sends nothing. */
  lemma GivenBack(now: int, events: seq<Event>, s: State, l: nat)
    requires Reaches(Initial(now), events, s) && Unexpired(s, l)
    ensures var u := Next(s, CallRelease(l));
            && u.leases == s.leases[l := s.leases[l].(released := true)] && u.keys == s.keys
            && Enabled(u, RunRelease(l)) && Next(u, RunRelease(l)).keys == s.keys - {s.leases[l].key}
            && Next(u, CallRelease(l)) == u
            && Next(Next(u, RunRelease(l)), CallRelease(l)) == Next(u, RunRelease(l))
            && Next(u, LoseRelease(l)).keys == s.keys && !Enabled(Next(u, LoseRelease(l)), RunRelease(l))
  {
    hide Reaches;
    InvRun(Initial(now), events, s);
    HasEntry(s, l);
  }

  /** The entry with a lease's token is the one the lease was given. */
  ghost predicate TokensOk(s: State) {
    forall l, k :: 0 <= l < |s.leases| && k in s.keys && s.keys[k].token == s.leases[l].token ==>
      s.keys[k].expiresAt == s.leases[l].serverExpiry
  }

  lemma TokensStep(s: State, e: Event)
    requires Inv(s) && TokensOk(s) && Enabled(s, e)
    ensures TokensOk(Next(s, e))
  {
    hide ValidKey, ValidTtl;
    assert forall l: nat :: LeaseOk(s, l) && l < |s.leases| ==> s.leases[l].token in s.tokens;
  }

  lemma {:induction false} TokensRun(s: State, events: seq<Event>, t: State)
    requires Inv(s) && TokensOk(s) && Reaches(s, events, t)
    ensures TokensOk(t)
    decreases |events|
  {
    hide Inv, TokensOk, Next, Enabled;
    if events != [] {
      InvStep(s, events[0]);
      TokensStep(s, events[0]);
      TokensRun(Next(s, events[0]), events[1..], t);
    }
  }

  lemma ExpiredEntry(now: int, events: seq<Event>, s: State, l: nat)
    requires Reaches(Initial(now), events, s) && l < |s.leases| && s.leases[l].serverExpiry <= s.now
    ensures !(Present(s.keys, s.leases[l].key, s.now) && s.keys[s.leases[l].key].token == s.leases[l].token)
  {
    hide Reaches;
    TokensRun(Initial(now), events, s);
  }
}
