/**
 Fixed-window limiting, as the rate limiter and the token quota both do it: a grant at time `at` counts against the
 window that started at `start`, and a window is replaced once its length has passed.  What such a policy guarantees for
 an arbitrary stretch of time is not the limit but almost twice that.
 */
module FixedWindow {

  datatype Grant = Grant(at: int, start: int)

  predicate Inside(g: Grant, from: int, to: int, lo: int, hi: int) {
    from <= g.at < to && lo <= g.start < hi
  }

  /** The grants made in [from, to) in windows that started in [lo, hi). */
  function Made(grants: seq<Grant>, from: int, to: int, lo: int, hi: int): nat {
    if grants == [] then 0
    else Made(grants[..|grants| - 1], from, to, lo, hi) + if Inside(grants[|grants| - 1], from, to, lo, hi) then 1
                                                          else 0
  }

  function MadeAt(grants: seq<Grant>, from: int, to: int): nat {
    if grants == [] then 0
    else MadeAt(grants[..|grants| - 1], from, to) + if from <= grants[|grants| - 1].at < to then 1 else 0
  }

  /** Grants fall within their windows, and windows do not overlap. */
  ghost predicate Regular(grants: seq<Grant>, length: nat) {
    && (forall i :: 0 <= i < |grants| ==> grants[i].start <= grants[i].at < grants[i].start + length)
    && (forall i, j :: 0 <= i < |grants| && 0 <= j < |grants| && grants[i].start < grants[j].start ==>
          grants[i].start + length <= grants[j].start)
  }

  /** A window holds at most `limit` grants, the first of which was made as it opened. */
  ghost predicate LimitedAt(grants: seq<Grant>, length: nat, limit: nat, s: int) {
    var all, late := Made(grants, s, s + length, s, s + 1), Made(grants, s + 1, s + length, s, s + 1);
    all <= limit && (all > 0 ==> late < all)
  }

  ghost predicate Limited(grants: seq<Grant>, length: nat, limit: nat) {
    forall s :: LimitedAt(grants, length, limit, s)
  }

  lemma {:induction false} Covered(
      grants: seq<Grant>, from: int, to: int, lo: int, hi: int, from': int, to': int, lo': int, hi': int)
    requires forall i :: 0 <= i < |grants| && Inside(grants[i], from, to, lo, hi) ==>
               Inside(grants[i], from', to', lo', hi')
    ensures Made(grants, from, to, lo, hi) <= Made(grants, from', to', lo', hi')
  {
    if grants != [] {
      assert forall i :: 0 <= i < |grants| - 1 ==> grants[..|grants| - 1][i] == grants[i];
      Covered(grants[..|grants| - 1], from, to, lo, hi, from', to', lo', hi');
    }
  }

  lemma {:induction false} NoneInside(grants: seq<Grant>, from: int, to: int, lo: int, hi: int)
    ensures Made(grants, from, to, lo, hi) > 0 ==> exists i :: 0 <= i < |grants| && Inside(grants[i], from, to, lo, hi)
  {
    if grants != [] {
      var last := |grants| - 1;
      NoneInside(grants[..last], from, to, lo, hi);
      assert forall i :: 0 <= i < last ==> grants[..last][i] == grants[i];
    }
  }

  lemma {:induction false} SplitByStart(grants: seq<Grant>, from: int, to: int, lo: int, mid: int, hi: int)
    requires lo <= mid <= hi
    ensures Made(grants, from, to, lo, hi) == Made(grants, from, to, lo, mid) + Made(grants, from, to, mid, hi)
  {
    if grants != [] {
      SplitByStart(grants[..|grants| - 1], from, to, lo, mid, hi);
    }
  }

  lemma {:induction false} MadeAtByStart(grants: seq<Grant>, length: nat, from: int, to: int)
    requires Regular(grants, length)
    ensures MadeAt(grants, from, to) == Made(grants, from, to, from - length + 1, to)
  {
    if grants != [] {
      var last := |grants| - 1;
      assert forall i :: 0 <= i < last ==> grants[..last][i] == grants[i];
      MadeAtByStart(grants[..last], length, from, to);
    }
  }

  lemma SameWindow(grants: seq<Grant>, length: nat, from: int, to: int, lo: int, hi: int, k: nat)
    requires Regular(grants, length) && hi - lo <= length && k < |grants| && Inside(grants[k], from, to, lo, hi)
    ensures forall i :: 0 <= i < |grants| && Inside(grants[i], from, to, lo, hi) ==>
              grants[i].start == grants[k].start && grants[i].start <= grants[i].at < grants[i].start + length
  {
  }

  /** In a stretch of starts no longer than a window there is at most one window. */
  lemma OneWindow(grants: seq<Grant>, length: nat, limit: nat, from: int, to: int, lo: int, hi: int)
    requires Regular(grants, length) && Limited(grants, length, limit) && hi - lo <= length
    ensures Made(grants, from, to, lo, hi) <= limit
    ensures hi <= from && limit > 0 ==> Made(grants, from, to, lo, hi) < limit
  {
    hide Limited, Regular, Made;
    NoneInside(grants, from, to, lo, hi);
    if Made(grants, from, to, lo, hi) > 0 {
      var k :| 0 <= k < |grants| && Inside(grants[k], from, to, lo, hi);
      var s := grants[k].start;
      WindowLimited(grants, length, limit, s);
      SameWindow(grants, length, from, to, lo, hi, k);
      Covered(grants, from, to, lo, hi, s, s + length, s, s + 1);
      if hi <= from {
        Covered(grants, from, to, lo, hi, s + 1, s + length, s, s + 1);
      }
    }
  }

  lemma WindowLimited(grants: seq<Grant>, length: nat, limit: nat, s: int)
    requires Limited(grants, length, limit)
    ensures Made(grants, s, s + length, s, s + 1) <= limit
    ensures Made(grants, s, s + length, s, s + 1) > 0 ==>
              Made(grants, s + 1, s + length, s, s + 1) < Made(grants, s, s + length, s, s + 1)
  {
    assert LimitedAt(grants, length, limit, s);
  }

  lemma {:induction false} ManyWindows(grants: seq<Grant>, length: nat, limit: nat, from: int, to: int, lo: int, k: nat)
    requires Regular(grants, length) && Limited(grants, length, limit)
    ensures Made(grants, from, to, lo, lo + k * length) <= k * limit
    decreases k
  {
    hide Regular, Limited;
    if k == 0 {
      NoneInside(grants, from, to, lo, lo);
    } else {
      assert k * length == length + (k - 1) * length && k * limit == limit + (k - 1) * limit;
      assert (k - 1) * length >= 0;
      SplitByStart(grants, from, to, lo, lo + length, lo + k * length);
      OneWindow(grants, length, limit, from, to, lo, lo + length);
      ManyWindows(grants, length, limit, from, to, lo + length, k - 1);
    }
  }

  /** Main result: k window lengths of time hold fewer than (k + 1) * limit grants. */
  lemma StretchBound(grants: seq<Grant>, length: nat, limit: nat, from: int, k: nat)
    requires Regular(grants, length) && Limited(grants, length, limit) && length >= 1 && limit >= 1
    ensures MadeAt(grants, from, from + k * length) < (k + 1) * limit
  {
    hide Regular, Limited;
    var to := from + k * length;
    assert k * length >= 0;
    MadeAtByStart(grants, length, from, to);
    SplitByStart(grants, from, to, from - length + 1, from, to);
    OneWindow(grants, length, limit, from, to, from - length + 1, from);
    ManyWindows(grants, length, limit, from, to, from, k);
    assert (k + 1) * limit == k * limit + limit;
  }

  /* ----- one grant more ----- */

  ghost predicate AllStartBy(grants: seq<Grant>, s: int) {
    forall i :: 0 <= i < |grants| ==> grants[i].start <= s
  }

  /** What a grant must meet to be added: it is in the latest window, which has room, or it opens a new one. */
  ghost predicate Fresh(grants: seq<Grant>, length: nat, limit: nat, g: Grant) {
    var n := Made(grants, g.start, g.start + length, g.start, g.start + 1);
    && AllStartBy(grants, g.start) && g.start <= g.at < g.start + length && n < limit
    && (n == 0 ==> g.at == g.start && forall i :: 0 <= i < |grants| ==> grants[i].start + length <= g.start)
  }

  lemma MadeMore(grants: seq<Grant>, g: Grant, from: int, to: int, lo: int, hi: int)
    ensures Made(grants + [g], from, to, lo, hi) ==
              Made(grants, from, to, lo, hi) + if Inside(g, from, to, lo, hi) then 1 else 0
  {
    assert (grants + [g])[..|grants|] == grants;
  }

  lemma RegularMore(grants: seq<Grant>, length: nat, limit: nat, g: Grant)
    requires Regular(grants, length) && Fresh(grants, length, limit, g)
    ensures Regular(grants + [g], length) && AllStartBy(grants + [g], g.start)
  {
    hide Made;
    NoneInside(grants, g.start, g.start + length, g.start, g.start + 1);
  }

  lemma LimitedMore(grants: seq<Grant>, length: nat, limit: nat, g: Grant, t: int)
    requires LimitedAt(grants, length, limit, t) && Fresh(grants, length, limit, g) && length >= 1
    ensures LimitedAt(grants + [g], length, limit, t)
  {
    hide Made;
    MadeMore(grants, g, t, t + length, t, t + 1);
    MadeMore(grants, g, t + 1, t + length, t, t + 1);
    Covered(grants, t + 1, t + length, t, t + 1, t, t + length, t, t + 1);
  }

  lemma OneMore(grants: seq<Grant>, length: nat, limit: nat, g: Grant)
    requires Regular(grants, length) && Limited(grants, length, limit) && length >= 1 && Fresh(grants, length, limit, g)
    ensures Regular(grants + [g], length) && Limited(grants + [g], length, limit) && AllStartBy(grants + [g], g.start)
    ensures Made(grants + [g], g.start, g.start + length, g.start, g.start + 1) ==
              Made(grants, g.start, g.start + length, g.start, g.start + 1) + 1
  {
    hide Made, Regular, LimitedAt, AllStartBy;
    RegularMore(grants, length, limit, g);
    MadeMore(grants, g, g.start, g.start + length, g.start, g.start + 1);
    forall t
      ensures LimitedAt(grants + [g], length, limit, t)
    {
      assert LimitedAt(grants, length, limit, t);
      LimitedMore(grants, length, limit, g, t);
    }
  }
}
