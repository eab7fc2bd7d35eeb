/** The platform's rate limiter (rate-limit.ts): one fixed window per key, counting refused checks too. */
module RateLimit {
  import opened FixedWindow

  datatype Window = Window(startedAt: int, count: nat)

  datatype Decision = Decision(allowed: bool, limit: int, remaining: int, resetAt: int)

  /** The window of a key after one more check. */
  function Counted(windows: map<string, Window>, windowMs: nat, key: string, now: int): Window {
    if key !in windows || now - windows[key].startedAt >= windowMs then Window(now, 1)
    else windows[key].(count := windows[key].count + 1)
  }

  class PlatformRateLimiter {
    const limit: nat
    const windowMs: nat
    var windows: map<string, Window>

    constructor (limit: nat, windowMs: nat)
      requires limit >= 1 && windowMs >= 1000
      ensures this.limit == limit && this.windowMs == windowMs && windows == map[]
    {
      this.limit, this.windowMs, windows := limit, windowMs, map[];
    }

    method Check(key: string, now: int) returns (d: Decision)
      modifies this
      ensures windows == old(windows)[key := Counted(old(windows), windowMs, key, now)]
      ensures d.allowed <==> windows[key].count <= limit
      ensures d.limit == limit && 0 <= d.remaining && (d.allowed ==> d.remaining == limit - windows[key].count)
      ensures !d.allowed ==> d.remaining == 0
      ensures d.resetAt == windows[key].startedAt + windowMs
    {
      var state := Window(now, 0);
      if key in windows && now - windows[key].startedAt < windowMs {
        state := windows[key];
      }
      state := state.(count := state.count + 1);
      windows := windows[key := state];
      var left := limit - state.count;
      d := Decision(state.count <= limit, limit, if left > 0 then left else 0, state.startedAt + windowMs);
    }
  }

  /* ----- runs ----- */

  datatype Call = Call(key: string, now: int)

  ghost predicate Nondecreasing(calls: seq<Call>) {
    forall i, j :: 0 <= i < j < |calls| ==> calls[i].now <= calls[j].now
  }

  /** The windows after a run of checks on a new limiter. */
  function After(calls: seq<Call>, windowMs: nat): map<string, Window> {
    if calls == [] then map[]
    else
      var c := calls[|calls| - 1];
      var before := After(calls[..|calls| - 1], windowMs);
      before[c.key := Counted(before, windowMs, c.key, c.now)]
  }

  /** The checks of a key that were allowed between two times. */
  function Allowed(calls: seq<Call>, limit: nat, windowMs: nat, key: string, from: int, to: int): nat {
    if calls == [] then 0
    else
      var c := calls[|calls| - 1];
      Allowed(calls[..|calls| - 1], limit, windowMs, key, from, to)
      + if c.key == key && from <= c.now < to && After(calls, windowMs)[key].count <= limit then 1 else 0
  }

  /** The same checks with the windows they were counted in. */
  function Grants(calls: seq<Call>, limit: nat, windowMs: nat, key: string): seq<Grant> {
    if calls == [] then []
    else
      var c := calls[|calls| - 1];
      var windows := After(calls, windowMs);
      Grants(calls[..|calls| - 1], limit, windowMs, key)
      + if c.key == key && windows[key].count <= limit then [Grant(c.now, windows[key].startedAt)] else []
  }

  lemma {:induction false} AllowedAreGrants(
      calls: seq<Call>, limit: nat, windowMs: nat, key: string, from: int, to: int)
    ensures Allowed(calls, limit, windowMs, key, from, to) == MadeAt(Grants(calls, limit, windowMs, key), from, to)
  {
    if calls != [] {
      var before := calls[..|calls| - 1];
      AllowedAreGrants(before, limit, windowMs, key, from, to);
      var grants := Grants(before, limit, windowMs, key);
      if Grants(calls, limit, windowMs, key) != grants {
        assert Grants(calls, limit, windowMs, key)[..|grants|] == grants;
      } else {
        assert grants + [] == grants;
      }
    }
  }

  /** A key's window started no later than the last check, and holds min(count, limit) of its grants. */
  ghost predicate WindowOk(
      windows: map<string, Window>, grants: seq<Grant>, limit: nat, windowMs: nat, key: string, now: int) {
    && Regular(grants, windowMs) && Limited(grants, windowMs, limit)
    && (key !in windows ==> grants == [])
    && (key in windows ==>
          && AllStartBy(grants, windows[key].startedAt) && windows[key].startedAt <= now && windows[key].count >= 1
          && var s := windows[key].startedAt;
             Made(grants, s, s + windowMs, s, s + 1) == if windows[key].count <= limit then windows[key].count
                                                        else limit)
  }

  lemma NoneSoFar(grants: seq<Grant>, length: nat, s: int, last: int)
    requires AllStartBy(grants, last) && last + length <= s && length >= 1
    ensures Made(grants, s, s + length, s, s + 1) == 0
    ensures forall i :: 0 <= i < |grants| ==> grants[i].start + length <= s
  {
    NoneInside(grants, s, s + length, s, s + 1);
  }

  lemma CheckKeeps(
      windows: map<string, Window>, grants: seq<Grant>, limit: nat, windowMs: nat, key: string, before: int, now: int)
    requires WindowOk(windows, grants, limit, windowMs, key, before) && before <= now && limit >= 1 && windowMs >= 1
    ensures var w := Counted(windows, windowMs, key, now);
            WindowOk(windows[key := w], grants + if w.count <= limit then [Grant(now, w.startedAt)]
                                                 else [], limit, windowMs, key, now)
  {
    hide Regular, Limited, Made;
    var w := Counted(windows, windowMs, key, now);
    if key in windows && w.startedAt != windows[key].startedAt {
      NoneSoFar(grants, windowMs, w.startedAt, windows[key].startedAt);
    } else if key !in windows {
      NothingMade(w.startedAt, w.startedAt + windowMs, w.startedAt, w.startedAt + 1);
    }
    if w.count <= limit {
      if w.count > 1 {
        assert w.startedAt == windows[key].startedAt;
      }
      OneMore(grants, windowMs, limit, Grant(now, w.startedAt));
    } else {
      assert grants + [] == grants;
    }
  }

  lemma NothingMade(from: int, to: int, lo: int, hi: int)
    ensures Made([], from, to, lo, hi) == 0
  {
  }

  lemma NothingYet(limit: nat, windowMs: nat, key: string, now: int)
    ensures WindowOk(map[], [], limit, windowMs, key, now)
  {
    forall s
      ensures LimitedAt([], windowMs, limit, s)
    {
      NothingMade(s, s + windowMs, s, s + 1);
    }
  }

  lemma OtherKey(
      windows: map<string, Window>, grants: seq<Grant>, limit: nat, windowMs: nat, key: string, before: int, now: int,
      other: string, w: Window)
    requires WindowOk(windows, grants, limit, windowMs, key, before) && before <= now && other != key
    ensures WindowOk(windows[other := w], grants, limit, windowMs, key, now)
  {
    hide Regular, Limited, Made;
  }

  lemma {:induction false} RunKeeps(calls: seq<Call>, limit: nat, windowMs: nat, key: string, now: int)
    requires Nondecreasing(calls) && limit >= 1 && windowMs >= 1 && (calls != [] ==> calls[|calls| - 1].now <= now)
    ensures WindowOk(After(calls, windowMs), Grants(calls, limit, windowMs, key), limit, windowMs, key, now)
    decreases |calls|
  {
    hide WindowOk;
    if calls == [] {
      NothingYet(limit, windowMs, key, now);
    } else {
      var c, before := calls[|calls| - 1], calls[..|calls| - 1];
      assert forall i :: 0 <= i < |before| ==> before[i] == calls[i];
      RunKeeps(before, limit, windowMs, key, c.now);
      var windows, grants := After(before, windowMs), Grants(before, limit, windowMs, key);
      if c.key == key {
        CheckKeeps(windows, grants, limit, windowMs, key, c.now, c.now);
      } else {
        OtherKey(windows, grants, limit, windowMs, key, c.now, c.now, c.key, Counted(windows, windowMs, c.key, c.now));
        assert grants + [] == grants;
      }
      Later(After(calls, windowMs), Grants(calls, limit, windowMs, key), limit, windowMs, key, c.now, now);
    }
  }

  lemma Later(
      windows: map<string, Window>, grants: seq<Grant>, limit: nat, windowMs: nat, key: string, before: int, now: int)
    requires WindowOk(windows, grants, limit, windowMs, key, before) && before <= now
    ensures WindowOk(windows, grants, limit, windowMs, key, now)
  {
    hide Regular, Limited, Made;
  }

  /** Main result: with a clock that never goes back, any k consecutive window lengths hold fewer than (k + 1) * limit
      allowed checks of a key. */
  lemma AllowedInAnyStretch(calls: seq<Call>, limit: nat, windowMs: nat, key: string, from: int, k: nat)
    requires Nondecreasing(calls) && limit >= 1 && windowMs >= 1
    ensures Allowed(calls, limit, windowMs, key, from, from + k * windowMs) < (k + 1) * limit
  {
    hide Regular, Limited;
    RunKeeps(calls, limit, windowMs, key, if calls == [] then 0 else calls[|calls| - 1].now);
    AllowedAreGrants(calls, limit, windowMs, key, from, from + k * windowMs);
    StretchBound(Grants(calls, limit, windowMs, key), windowMs, limit, from, k);
  }

  /* ----- the bound is reached ----- */

  function Repeat(c: Call, n: nat): (r: seq<Call>)
    ensures |r| == n && forall i :: 0 <= i < n ==> r[i] == c
  {
    seq(n, i => c)
  }

  /** One check opens a window, the rest of its limit follows a moment later, and each further window is used up as it
      opens. */
  function Burst(limit: nat, windowMs: nat, key: string, k: nat): seq<Call>
    requires limit >= 1
  {
    if k == 0 then [Call(key, 0)] + Repeat(Call(key, 1), limit - 1)
    else Burst(limit, windowMs, key, k - 1) + Repeat(Call(key, k * windowMs), limit)
  }

  /** One check more, in a window with room for it. */
  lemma OneAllowed(calls: seq<Call>, c: Call, limit: nat, windowMs: nat, from: int, to: int)
    requires c.key in After(calls, windowMs) && from <= c.now < to
    requires var w := After(calls, windowMs)[c.key]; c.now - w.startedAt < windowMs && w.count < limit
    ensures Allowed(calls + [c], limit, windowMs, c.key, from, to) ==
              Allowed(calls, limit, windowMs, c.key, from, to) + 1
    ensures var w := After(calls, windowMs)[c.key];
            After(calls + [c], windowMs) == After(calls, windowMs)[c.key := w.(count := w.count + 1)]
  {
    assert (calls + [c])[..|calls|] == calls;
  }

  /** n checks at one moment, in a window with room for them. */
  lemma {:induction false} AllAllowed(calls: seq<Call>, c: Call, n: nat, limit: nat, windowMs: nat, from: int, to: int)
    requires c.key in After(calls, windowMs) && from <= c.now < to
    requires var w := After(calls, windowMs)[c.key]; c.now - w.startedAt < windowMs && w.count + n <= limit
    ensures Allowed(calls + Repeat(c, n), limit, windowMs, c.key, from, to) ==
              Allowed(calls, limit, windowMs, c.key, from, to) + n
    ensures var w := After(calls, windowMs)[c.key];
            After(calls + Repeat(c, n), windowMs) == After(calls, windowMs)[c.key := w.(count := w.count + n)]
  {
    hide Allowed, After;
    if n == 0 {
      assert calls + Repeat(c, 0) == calls;
    } else {
      AllAllowed(calls, c, n - 1, limit, windowMs, from, to);
      OneAllowed(calls + Repeat(c, n - 1), c, limit, windowMs, from, to);
      assert calls + Repeat(c, n) == calls + Repeat(c, n - 1) + [c];
    }
  }

  /** The same, when the first of them opens a window. */
  lemma AllAllowedAnew(calls: seq<Call>, c: Call, n: nat, limit: nat, windowMs: nat, from: int, to: int)
    requires 1 <= n <= limit && windowMs >= 1 && from <= c.now < to
    requires c.key in After(calls, windowMs) ==> c.now - After(calls, windowMs)[c.key].startedAt >= windowMs
    ensures Allowed(calls + Repeat(c, n), limit, windowMs, c.key, from, to) ==
              Allowed(calls, limit, windowMs, c.key, from, to) + n
    ensures After(calls + Repeat(c, n), windowMs) == After(calls, windowMs)[c.key := Window(c.now, n)]
  {
    var first := calls + [c];
    assert first[..|calls|] == calls;
    AllAllowed(first, c, n - 1, limit, windowMs, from, to);
    assert first + Repeat(c, n - 1) == calls + Repeat(c, n);
  }

  lemma OpeningAllowed(limit: nat, windowMs: nat, key: string, to: int)
    requires limit >= 1 && windowMs >= 2 && to > 1
    ensures Allowed(Burst(limit, windowMs, key, 0), limit, windowMs, key, 1, to) == limit - 1
    ensures After(Burst(limit, windowMs, key, 0), windowMs) == map[key := Window(0, limit)]
  {
    var opening := [Call(key, 0)];
    assert opening[..0] == [];
    AllAllowed(opening, Call(key, 1), limit - 1, limit, windowMs, 1, to);
  }

  lemma {:induction false} BurstAllowed(limit: nat, windowMs: nat, key: string, k: nat, to: int)
    requires limit >= 1 && windowMs >= 2 && to > k * windowMs && to > 1
    ensures Allowed(Burst(limit, windowMs, key, k), limit, windowMs, key, 1, to) == (k + 1) * limit - 1
    ensures After(Burst(limit, windowMs, key, k), windowMs) == map[key := Window(k * windowMs, limit)]
    decreases k
  {
    hide Allowed, After;
    if k == 0 {
      OpeningAllowed(limit, windowMs, key, to);
    } else {
      assert k * windowMs == (k - 1) * windowMs + windowMs;
      BurstAllowed(limit, windowMs, key, k - 1, to);
      assert k * windowMs >= windowMs;
      AllAllowedAnew(Burst(limit, windowMs, key, k - 1), Call(key, k * windowMs), limit, limit, windowMs, 1, to);
      assert (k + 1) * limit - 1 == k * limit - 1 + limit;
    }
  }

  lemma {:induction false} BurstOrdered(limit: nat, windowMs: nat, key: string, k: nat)
    requires limit >= 1 && windowMs >= 2
    ensures var calls := Burst(limit, windowMs, key, k);
            Nondecreasing(calls) && forall i :: 0 <= i < |calls| ==>
              calls[i].now <= k * windowMs + if k == 0 then 1 else 0
    decreases k
  {
    if k > 0 {
      BurstOrdered(limit, windowMs, key, k - 1);
      assert k * windowMs == (k - 1) * windowMs + windowMs;
    }
  }

  /** The bound is the best there is: the k window lengths from time 1 on hold (k + 1) * limit - 1 allowed checks of
      this run, for k = 1 almost twice the limit within a single window length. */
  lemma BoundIsReached(limit: nat, windowMs: nat, key: string, k: nat)
    requires limit >= 1 && windowMs >= 2 && k >= 1
    ensures Nondecreasing(Burst(limit, windowMs, key, k))
    ensures Allowed(Burst(limit, windowMs, key, k), limit, windowMs, key, 1, 1 + k * windowMs) == (k + 1) * limit - 1
  {
    assert k * windowMs >= windowMs;
    BurstOrdered(limit, windowMs, key, k);
    BurstAllowed(limit, windowMs, key, k, 1 + k * windowMs);
  }

  /* ----- what is refused ----- */

  /** The checks of a key made from some time on, allowed or not. */
  function Checks(calls: seq<Call>, key: string, from: int): nat {
    if calls == [] then 0
    else
      var c := calls[|calls| - 1];
      Checks(calls[..|calls| - 1], key, from) + if c.key == key && c.now >= from then 1 else 0
  }

  ghost predicate AllBefore(calls: seq<Call>, key: string, from: int) {
    forall i :: 0 <= i < |calls| && calls[i].key == key ==> calls[i].now < from
  }

  lemma {:induction false} NoChecks(calls: seq<Call>, key: string, from: int)
    requires AllBefore(calls, key, from)
    ensures Checks(calls, key, from) == 0
  {
    if calls != [] {
      NoChecks(calls[..|calls| - 1], key, from);
    }
  }

  /** Main result: a key's window counts every check of the key since it opened, refused ones too, and it opened with
      one of them. */
  lemma {:induction false} WindowCountsChecks(calls: seq<Call>, windowMs: nat, key: string)
    requires Nondecreasing(calls) && windowMs >= 1
    ensures var windows := After(calls, windowMs);
            && (key in windows <==> exists i :: 0 <= i < |calls| && calls[i].key == key)
            && (key in windows ==>
                  && windows[key].count == Checks(calls, key, windows[key].startedAt)
                  && exists i :: 0 <= i < |calls| && calls[i] == Call(key, windows[key].startedAt))
    decreases |calls|
  {
    if calls != [] {
      var c, before := calls[|calls| - 1], calls[..|calls| - 1];
      WindowCountsChecks(before, windowMs, key);
      var earlier := After(before, windowMs);
      assert forall i :: 0 <= i < |before| ==> before[i] == calls[i];
      if c.key == key && (key !in earlier || c.now - earlier[key].startedAt >= windowMs) {
        assert calls[|calls| - 1] == Call(key, c.now);
        OpensAnew(before, windowMs, key, c.now);
        NoChecks(before, key, c.now);
      }
    }
  }

  /** When a window has run out all checks of its key came before that. */
  lemma {:induction false} LatestCheck(calls: seq<Call>, windowMs: nat, key: string)
    requires Nondecreasing(calls) && windowMs >= 1
    ensures forall i :: 0 <= i < |calls| && calls[i].key == key ==>
              key in After(calls, windowMs) && calls[i].now < After(calls, windowMs)[key].startedAt + windowMs
    decreases |calls|
  {
    if calls != [] {
      var c, before := calls[|calls| - 1], calls[..|calls| - 1];
      LatestCheck(before, windowMs, key);
      forall i | 0 <= i < |calls| && calls[i].key == key
        ensures key in After(calls, windowMs) && calls[i].now < After(calls, windowMs)[key].startedAt + windowMs
      {
        assert i < |before| ==> before[i] == calls[i];
      }
    }
  }

  lemma OpensAnew(calls: seq<Call>, windowMs: nat, key: string, now: int)
    requires Nondecreasing(calls) && windowMs >= 1
    requires key in After(calls, windowMs) ==> now - After(calls, windowMs)[key].startedAt >= windowMs
    ensures AllBefore(calls, key, now)
  {
    LatestCheck(calls, windowMs, key);
  }

  lemma {:induction false} FewerLater(calls: seq<Call>, key: string, from: int, later: int)
    requires from <= later
    ensures Checks(calls, key, later) <= Checks(calls, key, from)
  {
    if calls != [] {
      FewerLater(calls[..|calls| - 1], key, from, later);
    }
  }

  /** Main result: whoever is refused has made at least `limit` earlier checks within the last window length; so a key
      that is checked more rarely is never refused, and the check made when a window has run out is always allowed. */
  lemma RefusedMeans(calls: seq<Call>, limit: nat, windowMs: nat, key: string, now: int)
    requires Nondecreasing(calls + [Call(key, now)]) && limit >= 1 && windowMs >= 1
    requires After(calls + [Call(key, now)], windowMs)[key].count > limit
    ensures Checks(calls, key, now - windowMs + 1) >= limit
    ensures key in After(calls, windowMs) && now < After(calls, windowMs)[key].startedAt + windowMs
  {
    var all := calls + [Call(key, now)];
    assert all[..|calls|] == calls && all[|calls|] == Call(key, now);
    assert forall i :: 0 <= i < |calls| ==> all[i] == calls[i];
    WindowCountsChecks(calls, windowMs, key);
    var windows := After(calls, windowMs);
    if key in windows {
      FewerLater(calls, key, now - windowMs + 1, windows[key].startedAt);
    }
  }
}
