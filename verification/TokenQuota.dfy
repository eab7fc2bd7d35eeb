/**
 Token reservations (PlatformStore.reserveToken): per environment a one-minute window counts requests and requests still
 running; each reservation hands out a release closure that holds on to the window object it was counted in, also after
 the environment has moved on to another window.

 State is the abstract view: every window object ever made, which of them an environment uses now, and every closure.
 The classes below are the objects themselves, shared between the map and the closures.
 */
module TokenQuota {
  import opened Common

  const WindowMs: nat := 60000

  datatype Policy = Policy(maxRequests: nat, maxConcurrent: nat)

  datatype Environment = Environment(projectId: string, tenantId: string, active: bool, quotaPolicyId: string)

  datatype Scope = Scope(tenantId: string, projectId: string, environmentId: string)

  datatype Error = NotFound | AuthorizationFailed | QuotaExceeded

  datatype Window = Window(startMs: int, requests: nat, concurrent: nat)

  datatype Handle = Handle(window: nat, released: bool)

  datatype State = State(windows: seq<Window>, current: map<string, nat>, handles: seq<Handle>)

  function Initial(): State {
    State([], map[], [])
  }

  predicate WellFormed(s: State) {
    && (forall env :: env in s.current ==> s.current[env] < |s.windows|)
    && (forall h :: 0 <= h < |s.handles| ==> s.handles[h].window < |s.windows|)
  }

  predicate Rolls(s: State, env: string, now: int)
    requires WellFormed(s)
  {
    env !in s.current || now - s.windows[s.current[env]].startMs >= WindowMs
  }

  /** The window a reservation is counted in, before it is counted. */
  function WindowFor(s: State, env: string, now: int): Window
    requires WellFormed(s)
  {
    if Rolls(s, env, now) then Window(now, 0, 0) else s.windows[s.current[env]]
  }

  function Counted(w: Window): Window {
    Window(w.startMs, w.requests + 1, w.concurrent + 1)
  }

  predicate Admits(p: Policy, w: Window) {
    w.requests < p.maxRequests && w.concurrent < p.maxConcurrent
  }

  function Reserve(s: State, env: string, p: Policy, now: int): Result<State, Error>
    requires WellFormed(s)
  {
    var w := WindowFor(s, env, now);
    if !Admits(p, w) then Err(QuotaExceeded)
    else
      var i := if Rolls(s, env, now) then |s.windows| else s.current[env];
      Ok(State(if Rolls(s, env, now) then s.windows + [Counted(w)] else s.windows[i := Counted(w)],
               s.current[env := i], s.handles + [Handle(i, false)]))
  }

  /** The state once a request has been counted in window i, which is w before it and new if the environment rolls
      over. */
  function Booked(s: State, env: string, w: Window, rolls: bool, i: nat): State
    requires rolls || i < |s.windows|
  {
    State(if rolls then s.windows + [Counted(w)] else s.windows[i := Counted(w)],
          s.current[env := i], s.handles + [Handle(i, false)])
  }

  lemma ReserveIff(s: State, env: string, p: Policy, now: int)
    requires WellFormed(s)
    ensures var w, rolls := WindowFor(s, env, now), Rolls(s, env, now);
            var i := if rolls then |s.windows| else s.current[env];
            Reserve(s, env, p, now) == if Admits(p, w) then Ok(Booked(s, env, w, rolls, i)) else Err(QuotaExceeded)
  {
  }

  function Release(s: State, h: nat): State
    requires WellFormed(s) && h < |s.handles|
  {
    var i := s.handles[h].window;
    var w := s.windows[i];
    if s.handles[h].released then s
    else s.(windows := s.windows[i := w.(concurrent := if w.concurrent >= 1 then w.concurrent - 1 else 0)],
            handles := s.handles[h := Handle(i, true)])
  }

  /* ----- the objects ----- */

  class TokenWindow {
    var startMs: int
    var requests: nat
    var concurrent: nat

    constructor (startMs: int)
      ensures Image() == Window(startMs, 0, 0)
    {
      this.startMs, requests, concurrent := startMs, 0, 0;
    }

    function Image(): Window
      reads this
    {
      Window(startMs, requests, concurrent)
    }
  }

  /** The closure returned by a reservation: the captured window and its own flag. */
  class ReleaseHandle {
    const window: TokenWindow
    ghost const position: nat
    var released: bool

    constructor (window: TokenWindow, ghost position: nat)
      ensures this.window == window && this.position == position && !released
    {
      this.window, this.position, released := window, position, false;
    }

    ghost function Image(): Handle
      reads this
    {
      Handle(position, released)
    }
  }

  ghost function WindowImages(ws: seq<TokenWindow>): (r: seq<Window>)
    reads ws
    ensures |r| == |ws| && forall i :: 0 <= i < |ws| ==> r[i] == ws[i].Image()
  {
    if ws == [] then [] else WindowImages(ws[..|ws| - 1]) + [ws[|ws| - 1].Image()]
  }

  ghost function HandleImages(hs: seq<ReleaseHandle>): (r: seq<Handle>)
    reads hs
    ensures |r| == |hs| && forall i :: 0 <= i < |hs| ==> r[i] == hs[i].Image()
  {
    if hs == [] then [] else HandleImages(hs[..|hs| - 1]) + [hs[|hs| - 1].Image()]
  }

  ghost predicate Separate<T>(xs: seq<T>) {
    forall i, j :: 0 <= i < j < |xs| ==> xs[i] != xs[j]
  }

  lemma SeparateMore<T>(xs: seq<T>, x: T)
    requires Separate(xs) && x !in xs
    ensures Separate(xs + [x])
  {
  }

  lemma Elsewhere<T>(xs: seq<T>, i: nat)
    requires Separate(xs) && i < |xs|
    ensures forall k :: 0 <= k < |xs| && k != i ==> xs[k] != xs[i]
  {
  }

  class TokenReservations {
    var environments: map<string, Environment>
    var quotas: map<string, Policy>
    var tokenWindows: map<string, TokenWindow>
    /** Every window and every closure made so far, and where the environments' windows are among them. */
    ghost var windows: seq<TokenWindow>
    ghost var handles: seq<ReleaseHandle>
    ghost var current: map<string, nat>

    ghost predicate Valid()
      reads this
    {
      && Separate(windows) && Separate(handles) && current.Keys == tokenWindows.Keys
      && (forall env :: env in current ==> current[env] < |windows| && tokenWindows[env] == windows[current[env]])
      && (forall h :: 0 <= h < |handles| ==> handles[h].position < |windows|
                                             && handles[h].window == windows[handles[h].position])
    }

    ghost function View(): (s: State)
      requires Valid()
      reads this, windows, handles
      ensures WellFormed(s)
    {
      State(WindowImages(windows), current, HandleImages(handles))
    }

    constructor (environments: map<string, Environment>, quotas: map<string, Policy>)
      ensures Valid() && View() == Initial()
      ensures this.environments == environments && this.quotas == quotas
    {
      this.environments, this.quotas, tokenWindows := environments, quotas, map[];
      windows, handles, current := [], [], map[];
    }

    /** The environment's policy, and why there is none to be had. */
    function PolicyOf(scope: Scope): (r: Result<Policy, Error>)
      reads this
      ensures var known := environments.Items;
              && (r.Ok? <==> exists e :: (scope.environmentId, e) in known && e.projectId == scope.projectId
                                         && e.tenantId == scope.tenantId && e.active && e.quotaPolicyId in quotas)
              && (r.Ok? ==> (environments[scope.environmentId].quotaPolicyId, r.value) in quotas.Items)
              && (r == Err(AuthorizationFailed) <==>
                    exists e :: (scope.environmentId, e) in known && e.projectId == scope.projectId
                                && e.tenantId == scope.tenantId && !e.active)
              && r != Err(QuotaExceeded)
    {
      if scope.environmentId !in environments then Err(NotFound)
      else
        var e := environments[scope.environmentId];
        if e.projectId != scope.projectId || e.tenantId != scope.tenantId then Err(NotFound)
        else if !e.active then Err(AuthorizationFailed)
        else if e.quotaPolicyId !in quotas then Err(NotFound)
        else Ok(quotas[e.quotaPolicyId])
    }

    method ReserveToken(scope: Scope, now: int) returns (r: Result<ReleaseHandle, Error>)
      requires Valid()
      modifies this, windows
      ensures Valid() && environments == old(environments) && quotas == old(quotas)
      ensures old(PolicyOf(scope)).Err? ==> r == Err(old(PolicyOf(scope)).error) && View() == old(View())
      ensures old(PolicyOf(scope)).Ok? ==>
                var after := Reserve(old(View()), scope.environmentId, old(PolicyOf(scope)).value, now);
                if after.Ok? then r.Ok? && View() == after.value && handles == old(handles) + [r.value]
                   && fresh(r.value)
                else r == Err(after.error) && View() == old(View()) && handles == old(handles)
      ensures old(windows) <= windows && forall i :: |old(windows)| <= i < |windows| ==> fresh(windows[i])
    {
      var policy := PolicyOf(scope);
      if policy.Err? {
        return Err(policy.error);
      }
      r := ReserveIn(scope.environmentId, policy.value, now);
    }

    /** The window a request would be counted in: the environment's, or a new one nobody refers to yet. */
    method CurrentWindow(env: string, now: int) returns (window: TokenWindow, rolls: bool, ghost i: nat)
      requires Valid()
      ensures rolls == Rolls(View(), env, now) && window.Image() == WindowFor(View(), env, now)
      ensures if rolls then i == |windows| && fresh(window) && window !in windows
              else env in View().current && i == View().current[env] && i < |windows| && windows[i] == window
    {
      rolls := env !in tokenWindows || now - tokenWindows[env].startMs >= WindowMs;
      i := if rolls then |windows| else current[env];
      if rolls {
        window := new TokenWindow(now);
      } else {
        window := tokenWindows[env];
      }
    }

    method ReserveIn(env: string, policy: Policy, now: int) returns (r: Result<ReleaseHandle, Error>)
      requires Valid()
      modifies this, windows
      ensures Valid() && environments == old(environments) && quotas == old(quotas)
      ensures var after := Reserve(old(View()), env, policy, now);
              if after.Ok? then r.Ok? && View() == after.value && handles == old(handles) + [r.value] && fresh(r.value)
              else r == Err(after.error) && View() == old(View()) && handles == old(handles)
      ensures old(windows) <= windows && forall i :: |old(windows)| <= i < |windows| ==> fresh(windows[i])
    {
      hide Valid, WindowImages, HandleImages, Rolls, Reserve, Counted, Separate;
      ReserveIff(View(), env, policy, now);
      var window, rolls, i := CurrentWindow(env, now);
      if window.requests >= policy.maxRequests || window.concurrent >= policy.maxConcurrent {
        return Err(QuotaExceeded);
      }
      r := Book(env, window, rolls, i);
    }

    /** Count a request in its window, which may be new, and hand out the closure. */
    method Book(env: string, window: TokenWindow, rolls: bool, ghost i: nat) returns (r: Result<ReleaseHandle, Error>)
      requires Valid()
      requires if rolls then i == |windows| && window !in windows else i < |windows| && windows[i] == window
      modifies this, window
      ensures Valid() && environments == old(environments) && quotas == old(quotas)
      ensures windows == if rolls then old(windows) + [window] else old(windows)
      ensures r.Ok? && handles == old(handles) + [r.value] && fresh(r.value)
      ensures View() == Booked(old(View()), env, old(window.Image()), rolls, i)
    {
      hide Valid, WindowImages, HandleImages, Counted, Separate;
      Register(window, rolls);
      Count(window, i);
      r := HandOut(env, window, i);
    }

    /** A new window joins the ones made before it. */
    ghost method Register(window: TokenWindow, rolls: bool)
      requires Valid() && (rolls ==> window !in windows)
      modifies this`windows
      ensures Valid() && windows == if rolls then old(windows) + [window] else old(windows)
      ensures View() == old(View()).(windows := if rolls then old(View()).windows + [window.Image()]
                                                else old(View()).windows)
    {
      hide WindowImages, HandleImages, Separate;
      if rolls {
        SeparateMore(windows, window);
        ghost var before := WindowImages(windows);
        windows := windows + [window];
        assert WindowImages(windows) == before + [window.Image()];
      }
    }

    method Count(window: TokenWindow, ghost i: nat)
      requires Valid() && i < |windows| && windows[i] == window
      modifies window
      ensures Valid() && View() == old(View()).(windows := old(View()).windows[i := Counted(old(window.Image()))])
    {
      hide WindowImages, HandleImages, Separate;
      ghost var before := WindowImages(windows);
      Elsewhere(windows, i);
      window.requests := window.requests + 1;
      window.concurrent := window.concurrent + 1;
      assert WindowImages(windows) == before[i := window.Image()];
    }

    /** The window becomes the environment's, and a closure over it is handed out. */
    method HandOut(env: string, window: TokenWindow, ghost i: nat) returns (r: Result<ReleaseHandle, Error>)
      requires Valid() && i < |windows| && windows[i] == window
      modifies this
      ensures Valid() && environments == old(environments) && quotas == old(quotas) && windows == old(windows)
      ensures r.Ok? && handles == old(handles) + [r.value] && fresh(r.value)
      ensures View() == State(old(View()).windows, old(View()).current[env := i],
                              old(View()).handles + [Handle(i, false)])
    {
      hide WindowImages, HandleImages, Separate;
      ghost var before := HandleImages(handles);
      var release := new ReleaseHandle(window, i);
      SeparateMore(handles, release);
      tokenWindows, current := tokenWindows[env := window], current[env := i];
      handles := handles + [release];
      assert HandleImages(handles) == before + [Handle(i, false)];
      r := Ok(release);
    }

    /** What calling the h-th closure does. */
    method CallRelease(release: ReleaseHandle, ghost h: nat)
      requires Valid() && h < |handles| && handles[h] == release
      modifies release, release.window
      ensures Valid() && View() == Release(old(View()), h)
    {
      hide WindowImages, HandleImages;
      ghost var before := View();
      if release.released {
        return;
      }
      release.released := true;
      var left := release.window.concurrent - 1;
      release.window.concurrent := if left >= 0 then left else 0;
      assert WindowImages(windows) == Release(before, h).windows;
      assert HandleImages(handles) == Release(before, h).handles;
    }
  }
}
