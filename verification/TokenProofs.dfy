/** What every run of reservations and releases keeps. */
module TokenProofs {
  import opened Common
  import opened FixedWindow
  import opened TokenQuota

  datatype Event = Take(env: string, policy: Policy, now: int) | Give(handle: nat)

  function Next(s: State, e: Event): (t: State)
    requires WellFormed(s)
    ensures WellFormed(t)
  {
    match e
    case Take(env, policy, now) => (match Reserve(s, env, policy, now) case Ok(t) => t case Err(_) => s)
    case Give(h) => if h < |s.handles| then Release(s, h) else s
  }

  function After(events: seq<Event>): (t: State)
    ensures WellFormed(t)
  {
    if events == [] then Initial() else Next(After(events[..|events| - 1]), events[|events| - 1])
  }

  /* ----- the count of a window is the number of its unreleased handles ----- */

  function Open(handles: seq<Handle>, i: nat): nat {
    if handles == [] then 0
    else Open(handles[..|handles| - 1], i) + if handles[|handles| - 1] == Handle(i, false) then 1 else 0
  }

  function Issued(handles: seq<Handle>, i: nat): nat {
    if handles == [] then 0
    else Issued(handles[..|handles| - 1], i) + if handles[|handles| - 1].window == i then 1 else 0
  }

  ghost predicate WindowOk(s: State, i: nat) {
    i < |s.windows| ==> s.windows[i].concurrent == Open(s.handles, i) && s.windows[i].requests == Issued(s.handles, i)
  }

  /** Each window belongs to one environment, and its counts are those of its handles. */
  ghost predicate Inv(s: State) {
    && WellFormed(s)
    && (forall a, b :: a in s.current && b in s.current && s.current[a] == s.current[b] ==> a == b)
    && (forall i :: WindowOk(s, i))
  }

  lemma {:induction false} NoneIssued(handles: seq<Handle>, i: nat)
    requires forall h :: 0 <= h < |handles| ==> handles[h].window < i
    ensures Open(handles, i) == 0 && Issued(handles, i) == 0
  {
    if handles != [] {
      NoneIssued(handles[..|handles| - 1], i);
    }
  }

  lemma OneMoreHandle(handles: seq<Handle>, j: nat, i: nat)
    ensures Open(handles + [Handle(j, false)], i) == Open(handles, i) + if i == j then 1 else 0
    ensures Issued(handles + [Handle(j, false)], i) == Issued(handles, i) + if i == j then 1 else 0
  {
    assert (handles + [Handle(j, false)])[..|handles|] == handles;
  }

  /** Marking a handle as released closes exactly one. */
  lemma {:induction false} OneLessOpen(handles: seq<Handle>, h: nat, i: nat)
    requires h < |handles| && !handles[h].released
    ensures Open(handles, i) == Open(handles[h := Handle(handles[h].window, true)], i) + if handles[h].window ==
              i then 1 else 0
    ensures Issued(handles[h := Handle(handles[h].window, true)], i) == Issued(handles, i)
  {
    var last := |handles| - 1;
    var closed := handles[h := Handle(handles[h].window, true)];
    if h < last {
      OneLessOpen(handles[..last], h, i);
      assert closed[..last] == handles[..last][h := Handle(handles[h].window, true)];
    } else {
      assert closed[..last] == handles[..last];
    }
  }

  lemma ReserveKeeps(s: State, env: string, p: Policy, now: int)
    requires Inv(s) && Reserve(s, env, p, now).Ok?
    ensures Inv(Reserve(s, env, p, now).value)
  {
    hide Open, Issued;
    var t := Reserve(s, env, p, now).value;
    var j := t.current[env];
    forall i
      ensures WindowOk(t, i)
    {
      assert WindowOk(s, i) && WindowOk(s, j);
      OneMoreHandle(s.handles, j, i);
      if j == |s.windows| {
        NoneIssued(s.handles, j);
      }
    }
  }

  lemma ReleaseKeeps(s: State, h: nat)
    requires Inv(s) && h < |s.handles|
    ensures Inv(Release(s, h))
    ensures !s.handles[h].released ==> s.windows[s.handles[h].window].concurrent >= 1
  {
    hide Open, Issued;
    var t := Release(s, h);
    if !s.handles[h].released {
      var j := s.handles[h].window;
      assert WindowOk(s, j);
      OneLessOpen(s.handles, h, j);
      forall i
        ensures WindowOk(t, i)
      {
        assert WindowOk(s, i);
        OneLessOpen(s.handles, h, i);
      }
    }
  }

  lemma {:induction false} InvAfter(events: seq<Event>)
    ensures Inv(After(events))
    decreases |events|
  {
    hide Inv, Reserve, Release;
    if events == [] {
      InitialInv();
    } else {
      var e, before := events[|events| - 1], After(events[..|events| - 1]);
      InvAfter(events[..|events| - 1]);
      match e
      case Take(env, policy, now) =>
        if Reserve(before, env, policy, now).Ok? {
          ReserveKeeps(before, env, policy, now);
        }
      case Give(h) =>
        if h < |before.handles| {
          ReleaseKeeps(before, h);
        }
    }
  }

  lemma InitialInv()
    ensures Inv(Initial())
  {
  }

  /** Main result: after any run a window's concurrent count is exactly the number of its handles not yet released, and
      its request count the number of handles it ever issued. */
  lemma ConcurrentIsOutstanding(events: seq<Event>, i: nat)
    requires i < |After(events).windows|
    ensures After(events).windows[i].concurrent == Open(After(events).handles, i)
    ensures After(events).windows[i].requests == Issued(After(events).handles, i)
  {
    InvAfter(events);
    assert WindowOk(After(events), i);
  }

  /** Main result: in any reachable state a first release lowers its own window's count by exactly one, so the clamp at
      zero never acts; it changes no other window, in particular not one the environment has moved on to; and releasing
      again changes nothing. */
  lemma ReleaseIsExact(events: seq<Event>, h: nat)
    requires h < |After(events).handles|
    ensures var s := After(events);
            var t, i := Release(s, h), s.handles[h].window;
            && (!s.handles[h].released ==> t.windows[i].concurrent == s.windows[i].concurrent - 1)
            && |t.windows| == |s.windows| && (forall j :: 0 <= j < |s.windows| && j != i ==>
                                                t.windows[j] == s.windows[j])
            && t.current == s.current && Release(t, h) == t
    ensures var s := After(events);
            forall env :: env in s.current && s.current[env] != s.handles[h].window ==>
              Release(s, h).windows[s.current[env]] == s.windows[s.current[env]]
  {
    InvAfter(events);
    ReleaseKeeps(After(events), h);
  }

  /** Main result: while no policy allows more than `most` requests at a time, no window ever counts more. */
  lemma {:induction false} WithinPolicy(events: seq<Event>, most: nat, i: nat)
    requires forall k :: 0 <= k < |events| && events[k].Take? ==> events[k].policy.maxConcurrent <= most
    requires i < |After(events).windows|
    ensures After(events).windows[i].concurrent <= most
    decreases |events|
  {
    var e, before := events[|events| - 1], After(events[..|events| - 1]);
    if i < |before.windows| {
      WithinPolicy(events[..|events| - 1], most, i);
    }
  }

  /* ----- grants over time ----- */

  predicate Grants(s: State, e: Event, env: string)
    requires WellFormed(s)
  {
    e.Take? && e.env == env && Reserve(s, env, e.policy, e.now).Ok?
  }

  /** The reservations of an environment that were granted, each with the start of the window it was counted in. */
  function Granted(events: seq<Event>, env: string): seq<Grant> {
    if events == [] then []
    else
      var before, e := events[..|events| - 1], events[|events| - 1];
      Granted(before, env) +
      if Grants(After(before), e, env) then [Grant(e.now, WindowFor(After(before), env, e.now).startMs)] else []
  }

  ghost predicate Nondecreasing(events: seq<Event>) {
    forall i, j :: 0 <= i < j < |events| && events[i].Take? && events[j].Take? ==> events[i].now <= events[j].now
  }

  /** The environment is always granted under the same request limit. */
  ghost predicate ConstantLimit(events: seq<Event>, env: string, limit: nat) {
    forall i :: 0 <= i < |events| && events[i].Take? && events[i].env == env ==> events[i].policy.maxRequests == limit
  }

  /** The environment's window holds all grants made in it, and none started later. */
  ghost predicate EnvOk(s: State, grants: seq<Grant>, env: string, limit: nat, now: int) {
    && WellFormed(s) && Regular(grants, WindowMs) && Limited(grants, WindowMs, limit)
    && (env !in s.current ==> grants == [])
    && (env in s.current ==>
          var w := s.windows[s.current[env]];
          && AllStartBy(grants, w.startMs) && w.startMs <= now && 1 <= w.requests <= limit
          && Made(grants, w.startMs, w.startMs + WindowMs, w.startMs, w.startMs + 1) == w.requests)
  }

  lemma NoneSoFar(grants: seq<Grant>, s: int, last: int)
    requires AllStartBy(grants, last) && last + WindowMs <= s
    ensures Made(grants, s, s + WindowMs, s, s + 1) == 0
    ensures forall i :: 0 <= i < |grants| ==> grants[i].start + WindowMs <= s
  {
    NoneInside(grants, s, s + WindowMs, s, s + 1);
  }

  lemma GrantKeeps(s: State, grants: seq<Grant>, env: string, p: Policy, before: int, now: int)
    requires EnvOk(s, grants, env, p.maxRequests, before) && before <= now && Reserve(s, env, p, now).Ok?
    ensures EnvOk(Reserve(s, env, p, now).value, grants + [Grant(now, WindowFor(s, env, now).startMs)], env,
                  p.maxRequests, now)
  {
    hide Regular, Limited, Made;
    var w := WindowFor(s, env, now);
    if env !in s.current {
      NothingMade(w.startMs, w.startMs + WindowMs, w.startMs, w.startMs + 1);
    } else if Rolls(s, env, now) {
      NoneSoFar(grants, now, s.windows[s.current[env]].startMs);
    }
    OneMore(grants, WindowMs, p.maxRequests, Grant(now, w.startMs));
  }

  lemma NothingMade(from: int, to: int, lo: int, hi: int)
    ensures Made([], from, to, lo, hi) == 0
  {
  }

  /** Any step that is not a grant to the environment leaves its window's requests alone. */
  lemma OtherKeeps(s: State, e: Event, grants: seq<Grant>, env: string, limit: nat, now: int)
    requires Inv(s) && EnvOk(s, grants, env, limit, now) && !Grants(s, e, env)
    ensures EnvOk(Next(s, e), grants, env, limit, now)
  {
    hide Regular, Limited, Made, WindowOk;
  }

  lemma Later(s: State, grants: seq<Grant>, env: string, limit: nat, before: int, now: int)
    requires EnvOk(s, grants, env, limit, before) && before <= now
    ensures EnvOk(s, grants, env, limit, now)
  {
    hide Regular, Limited, Made;
  }

  lemma NothingYet(env: string, limit: nat, now: int)
    ensures EnvOk(Initial(), [], env, limit, now)
  {
    forall s
      ensures LimitedAt([], WindowMs, limit, s)
    {
      NothingMade(s, s + WindowMs, s, s + 1);
    }
  }

  /** The latest time a run has seen, as a bound. */
  ghost predicate SeenBy(events: seq<Event>, now: int) {
    forall i :: 0 <= i < |events| && events[i].Take? ==> events[i].now <= now
  }

  lemma {:induction false} RunKeeps(events: seq<Event>, env: string, limit: nat, now: int)
    requires Nondecreasing(events) && ConstantLimit(events, env, limit) && SeenBy(events, now)
    ensures EnvOk(After(events), Granted(events, env), env, limit, now)
    decreases |events|
  {
    hide EnvOk, Inv, Reserve, Release, WindowFor;
    if events == [] {
      NothingYet(env, limit, now);
    } else {
      var e, before := events[|events| - 1], events[..|events| - 1];
      var seen := if e.Take? then e.now else now;
      RunKeeps(before, env, limit, seen);
      InvAfter(before);
      if Grants(After(before), e, env) {
        GrantKeeps(After(before), Granted(before, env), env, e.policy, seen, seen);
      } else {
        OtherKeeps(After(before), e, Granted(before, env), env, limit, seen);
        assert Granted(before, env) + [] == Granted(before, env);
      }
      Later(After(events), Granted(events, env), env, limit, seen, now);
    }
  }

  lemma {:induction false} SomeBound(events: seq<Event>) returns (now: int)
    ensures SeenBy(events, now)
  {
    now := 0;
    if events != [] {
      var e := events[|events| - 1];
      now := SomeBound(events[..|events| - 1]);
      now := if e.Take? && e.now > now then e.now else now;
    }
  }

  /** Main result: under a constant limit and a clock that never goes back, any k minutes hold fewer than
      (k + 1) * limit token grants of an environment. */
  lemma TokensInAnyStretch(events: seq<Event>, env: string, limit: nat, from: int, k: nat)
    requires Nondecreasing(events) && ConstantLimit(events, env, limit) && limit >= 1
    ensures MadeAt(Granted(events, env), from, from + k * WindowMs) < (k + 1) * limit
  {
    hide Regular, Limited;
    var now := SomeBound(events);
    RunKeeps(events, env, limit, now);
    StretchBound(Granted(events, env), WindowMs, limit, from, k);
  }

  /* ----- when a token is granted ----- */

  /** The environment has a window that is less than a minute old. */
  ghost predicate InWindow(s: State, env: string, now: int)
    requires WellFormed(s)
  {
    env in s.current && now < s.windows[s.current[env]].startMs + 60000
  }

  /** Main result: in any reachable state a reservation is granted exactly when both limits leave room: those of an
      empty window if the environment has none less than a minute old, and otherwise the requests are the handles its
      window has issued and the concurrent ones those of them not released.  The grant adds one handle, unreleased, to
      that window, or to a new one that starts now and becomes the environment's. */
  lemma GrantedIff(events: seq<Event>, env: string, policy: Policy, now: int)
    ensures var s := After(events);
            var r := Reserve(s, env, policy, now);
            && (r.Ok? <==>
                  if InWindow(s, env, now)
                  then Issued(s.handles, s.current[env]) < policy.maxRequests
                       && Open(s.handles, s.current[env]) < policy.maxConcurrent
                  else policy.maxRequests >= 1 && policy.maxConcurrent >= 1)
            && (r.Err? ==> r.error == QuotaExceeded)
            && (r.Ok? ==>
                  var t := r.value;
                  var i := if InWindow(s, env, now) then s.current[env] else |s.windows|;
                  && t.current == s.current[env := i] && t.handles == s.handles + [Handle(i, false)]
                  && |t.windows| == (if InWindow(s, env, now) then |s.windows| else |s.windows| + 1)
                  && (forall j :: 0 <= j < |s.windows| && j != i ==> t.windows[j] == s.windows[j])
                  && t.windows[i].startMs == (if InWindow(s, env, now) then s.windows[i].startMs else now)
                  && t.windows[i].requests == Issued(t.handles, i) && t.windows[i].concurrent == Open(t.handles, i))
  {
    hide Open, Issued;
    InvAfter(events);
    var s := After(events);
    if InWindow(s, env, now) {
      assert WindowOk(s, s.current[env]);
    }
    if Reserve(s, env, policy, now).Ok? {
      ReserveKeeps(s, env, policy, now);
      var t := Reserve(s, env, policy, now).value;
      assert WindowOk(t, t.current[env]);
    }
  }
}
