/**
 Any number of publishers at work on one outbox table.  A claim, each mark and each requeue is one step; between them
 other publishers may act.  A publisher that stops, or whose state write is lost, lets go of an event without having
 written what became of it.
 */
module OutboxProtocol {
  import opened Common
  import opened OutboxTable

  datatype Config = Config(maxAttempts: nat, baseBackoff: nat)

  predicate ValidConfig(c: Config) {
    1 <= c.maxAttempts <= 20 && 100 <= c.baseBackoff <= 300000
  }

  function Pow2(n: nat): (r: nat)
    ensures r >= 1
  {
    if n == 0 then 1 else 2 * Pow2(n - 1)
  }

  /** The delay after the n-th failure. */
  function Backoff(c: Config, n: nat): int
    requires n >= 1
  {
    var d := c.baseBackoff * Pow2(n - 1);
    if d <= 300000 then d else 300000
  }

  /** An event a publisher is working on: the number of this attempt, and whether an outcome has been stored. */
  datatype Flight = Flight(attempts: nat, written: bool)

  /** `requeues` and `lost` count, per event, the requeues that took effect and the claims whose outcome was never
      stored. */
  datatype State = State(
      rows: Rows, flights: map<(nat, string), Flight>, requeues: map<string, nat>, lost: map<string, nat>)

  datatype Event =
    | Insert(id: string, eventType: string, occurredAt: int)
    | Claim(p: nat, limit: nat, locked: set<string>, now: int, ids: seq<string>)
    | ClaimReplyLost(p: nat, limit: nat, locked: set<string>, now: int, ids: seq<string>)
    | MarkPublished(p: nat, id: string, now: int)
    | MarkFailed(p: nat, id: string, error: string, now: int)
    | LetGo(p: nat, id: string)
    | Requeue(id: string, now: int)

  function Initial(): State {
    State(map[], map[], map[], map[])
  }

  function Tally(m: map<string, nat>, id: string): nat {
    if id in m then m[id] else 0
  }

  function OneMore(m: map<string, nat>, id: string): map<string, nat> {
    m[id := Tally(m, id) + 1]
  }

  function OneMoreEach(m: map<string, nat>, ids: seq<string>): map<string, nat> {
    map k | k in m.Keys + (set i | i in ids) :: Tally(m, k) + if k in ids then 1 else 0
  }

  /** A publisher claims only when it has worked off its last batch. */
  ghost predicate Free(g: State, p: nat) {
    forall f :: f in g.flights ==> f.0 != p
  }

  ghost predicate Enabled(g: State, e: Event) {
    match e
    case Insert(id, _, _) => id !in g.rows
    case Claim(p, limit, locked, now, ids) => IsClaim(g.rows, locked, limit, now, ids) && Free(g, p)
    case ClaimReplyLost(p, limit, locked, now, ids) => IsClaim(g.rows, locked, limit, now, ids) && Free(g, p)
    case MarkPublished(p, id, _) => (p, id) in g.flights
    case MarkFailed(p, id, _, _) => (p, id) in g.flights
    case LetGo(p, id) => (p, id) in g.flights
    case Requeue(_, _) => true
  }

  function Written(g: State, p: nat, id: string): map<(nat, string), Flight> {
    if (p, id) in g.flights then g.flights[(p, id) := g.flights[(p, id)].(written := true)] else g.flights
  }

  /** The two times a failure stores: when to try again, or that no further attempt will be made. */
  function NextAttempt(c: Config, attempts: nat, now: int): Option<int> {
    if attempts >= c.maxAttempts || attempts == 0 then None else Some(now + Backoff(c, attempts))
  }

  function DeadLetter(c: Config, attempts: nat, now: int): Option<int> {
    if attempts >= c.maxAttempts then Some(now) else None
  }

  function Taken(g: State, p: nat, ids: seq<string>): map<(nat, string), Flight> {
    map f | f in g.flights.Keys + (set i | i in ids :: (p, i)) ::
      if f.0 == p && f.1 in ids then Flight(if f.1 in g.rows then g.rows[f.1].attemptCount + 1 else 0, false)
      else if f in g.flights then g.flights[f] else Flight(0, false)
  }

  function Next(c: Config, g: State, e: Event): State {
    match e
    case Insert(id, eventType, occurredAt) =>
      g.(rows := g.rows[id := Row(eventType, occurredAt, 0, None, None, None, None)])
    case Claim(p, _, _, _, ids) => g.(rows := Bumped(g.rows, ids), flights := Taken(g, p, ids))
    case ClaimReplyLost(_, _, _, _, ids) => g.(rows := Bumped(g.rows, ids), lost := OneMoreEach(g.lost, ids))
    case MarkPublished(p, id, now) => g.(rows := Published(g.rows, id, now), flights := Written(g, p, id))
    case MarkFailed(p, id, error, now) =>
      if (p, id) !in g.flights then g
      else
        var n := g.flights[(p, id)].attempts;
        g.(rows := FailedTo(g.rows, id, error, NextAttempt(c, n, now), DeadLetter(c, n, now)),
           flights := Written(g, p, id))
    case LetGo(p, id) =>
      if (p, id) !in g.flights then g
      else g.(flights := g.flights - {(p, id)}, lost := if g.flights[(p, id)].written then g.lost
                                                        else OneMore(g.lost, id))
    case Requeue(id, now) =>
      if IsDeadLetter(g.rows, id) then g.(rows := Requeued(g.rows, id, now), requeues := OneMore(g.requeues, id)) else g
  }

  ghost predicate Reaches(c: Config, g: State, events: seq<Event>, t: State)
    decreases |events|
  {
    if events == [] then t == g else Enabled(g, events[0]) && Reaches(c, Next(c, g, events[0]), events[1..], t)
  }

  lemma {:induction false} ReachesAppend(c: Config, g: State, events: seq<Event>, m: State, later: seq<Event>, t: State)
    requires Reaches(c, g, events, m) && Reaches(c, m, later, t)
    ensures Reaches(c, g, events + later, t)
    decreases |events|
  {
    hide Next, Enabled;
    if events == [] {
      assert events + later == later;
    } else {
      ReachesAppend(c, Next(c, g, events[0]), events[1..], m, later, t);
      assert (events + later)[1..] == events[1..] + later;
    }
  }

  lemma ReachesOne(c: Config, g: State, e: Event)
    requires Enabled(g, e)
    ensures Reaches(c, g, [e], Next(c, g, e))
  {
    assert [e][1..] == [];
  }

  lemma {:induction false} ReachesOneMore(c: Config, g: State, events: seq<Event>, m: State, e: Event)
    requires Reaches(c, g, events, m) && Enabled(m, e)
    ensures Reaches(c, g, events + [e], Next(c, m, e))
  {
    hide Next, Enabled;
    ReachesOne(c, m, e);
    ReachesAppend(c, g, events, m, [e], Next(c, m, e));
  }

  /* ----- publication is final, with any number of publishers ----- */

  lemma PublishedStep(c: Config, g: State, e: Event, id: string)
    requires Enabled(g, e) && id in g.rows && g.rows[id].publishedAt.Some?
    ensures var t := Next(c, g, e); id in t.rows && t.rows[id] == g.rows[id]
    ensures (e.Claim? || e.ClaimReplyLost?) ==> id !in e.ids
  {
  }

  /** Main result: whatever the publishers do, a published row never changes again and is never claimed again. */
  lemma {:induction false} PublishedIsFinal(c: Config, g: State, events: seq<Event>, t: State, id: string)
    requires Reaches(c, g, events, t) && id in g.rows && g.rows[id].publishedAt.Some?
    ensures id in t.rows && t.rows[id] == g.rows[id]
    ensures forall i :: 0 <= i < |events| && (events[i].Claim? || events[i].ClaimReplyLost?) ==> id !in events[i].ids
    decreases |events|
  {
    hide Next, Enabled;
    if events != [] {
      PublishedStep(c, g, events[0], id);
      PublishedIsFinal(c, Next(c, g, events[0]), events[1..], t, id);
      forall i | 0 <= i < |events| && (events[i].Claim? || events[i].ClaimReplyLost?)
        ensures id !in events[i].ids
      {
        if i > 0 {
          assert events[i] == events[1..][i - 1];
        }
      }
    }
  }

  /* ----- the attempt count ----- */

  predicate Claims(e: Event, id: string) {
    (e.Claim? || e.ClaimReplyLost?) && id in e.ids
  }

  function ClaimCount(events: seq<Event>, id: string): nat {
    if events == [] then 0 else (if Claims(events[0], id) then 1 else 0) + ClaimCount(events[1..], id)
  }

  function Attempts(g: State, id: string): nat {
    if id in g.rows then g.rows[id].attemptCount else 0
  }

  lemma AttemptsStep(c: Config, g: State, e: Event, id: string)
    requires Enabled(g, e)
    ensures Attempts(Next(c, g, e), id) == Attempts(g, id) + if Claims(e, id) then 1 else 0
  {
  }

  /** The attempt count of a row is the number of times it was claimed. */
  lemma {:induction false} AttemptsCountClaims(c: Config, g: State, events: seq<Event>, t: State, id: string)
    requires Reaches(c, g, events, t)
    ensures Attempts(t, id) == Attempts(g, id) + ClaimCount(events, id)
    decreases |events|
  {
    hide Next, Enabled, Claims, Attempts;
    if events != [] {
      AttemptsStep(c, g, events[0], id);
      AttemptsCountClaims(c, Next(c, g, events[0]), events[1..], t, id);
    }
  }

  /* ----- one publisher ----- */

  predicate ClaimsOnly(e: Event, p: nat) {
    e.Claim? || e.ClaimReplyLost? ==> e.p == p
  }

  ghost predicate SolePublisher(events: seq<Event>, p: nat) {
    forall i :: 0 <= i < |events| ==> ClaimsOnly(events[i], p)
  }

  function Bound(c: Config, g: State, id: string): nat {
    c.maxAttempts + Tally(g.requeues, id) + Tally(g.lost, id)
  }

  /** Claimed, and nothing stored yet. */
  predicate Undecided(g: State, p: nat, id: string) {
    (p, id) in g.flights && !g.flights[(p, id)].written
  }

  ghost predicate RowOk(c: Config, p: nat, g: State, id: string) {
    id in g.rows ==>
      && g.rows[id].attemptCount <= Bound(c, g, id)
      && (Live(g.rows[id]) && !Undecided(g, p, id) ==> g.rows[id].attemptCount < Bound(c, g, id))
      && (g.rows[id].deadLetteredAt.Some? ==> g.rows[id].attemptCount >= c.maxAttempts)
  }

  ghost predicate FlightOk(p: nat, g: State, f: (nat, string)) {
    f in g.flights ==> f.0 == p && f.1 in g.rows && g.flights[f].attempts == g.rows[f.1].attemptCount
  }

  ghost predicate Inv(c: Config, p: nat, g: State) {
    && (forall f {:trigger FlightOk(p, g, f)} :: FlightOk(p, g, f))
    && (forall id {:trigger RowOk(c, p, g, id)} :: RowOk(c, p, g, id))
  }

  lemma RowStep(c: Config, p: nat, g: State, e: Event, id: string)
    requires c.maxAttempts >= 1 && Inv(c, p, g) && Enabled(g, e) && ClaimsOnly(e, p)
    ensures RowOk(c, p, Next(c, g, e), id)
  {
    hide Backoff, Sliced;
    assert RowOk(c, p, g, id) && FlightOk(p, g, (p, id));
    if e.MarkPublished? || e.MarkFailed? || e.LetGo? {
      assert FlightOk(p, g, (e.p, e.id));
    }
  }

  lemma FlightStep(c: Config, p: nat, g: State, e: Event, f: (nat, string))
    requires Inv(c, p, g) && Enabled(g, e) && ClaimsOnly(e, p)
    ensures FlightOk(p, Next(c, g, e), f)
  {
    hide Backoff, Sliced;
    assert FlightOk(p, g, f);
  }

  lemma InvStep(c: Config, p: nat, g: State, e: Event)
    requires c.maxAttempts >= 1 && Inv(c, p, g) && Enabled(g, e) && ClaimsOnly(e, p)
    ensures Inv(c, p, Next(c, g, e))
  {
    hide FlightOk, RowOk, Next, Enabled, ClaimsOnly;
    var t := Next(c, g, e);
    forall f ensures FlightOk(p, t, f) { FlightStep(c, p, g, e, f); }
    forall id ensures RowOk(c, p, t, id) { RowStep(c, p, g, e, id); }
  }

  lemma {:induction false} InvRun(c: Config, p: nat, g: State, events: seq<Event>, t: State)
    requires c.maxAttempts >= 1 && Inv(c, p, g) && Reaches(c, g, events, t) && SolePublisher(events, p)
    ensures Inv(c, p, t)
    decreases |events|
  {
    hide Inv, Next, Enabled, ClaimsOnly;
    if events != [] {
      InvStep(c, p, g, events[0]);
      InvRun(c, p, Next(c, g, events[0]), events[1..], t);
    }
  }

  /** Main result: a sole publisher claims an event at most maxAttempts times, plus once for every requeue that took
      effect and once for every claim whose outcome was never stored. */
  lemma ClaimsAreBounded(c: Config, p: nat, events: seq<Event>, t: State, id: string)
    requires c.maxAttempts >= 1 && Reaches(c, Initial(), events, t) && SolePublisher(events, p)
    ensures ClaimCount(events, id) <= c.maxAttempts + Tally(t.requeues, id) + Tally(t.lost, id)
  {
    InvRun(c, p, Initial(), events, t);
    AttemptsCountClaims(c, Initial(), events, t, id);
    assert RowOk(c, p, t, id);
  }

  /** Main result: without requeues and lost writes, an unpublished event nobody is working on is a dead letter exactly
      when all its attempts are used up. */
  lemma DeadExactlyWhenUsedUp(c: Config, p: nat, events: seq<Event>, t: State, id: string)
    requires c.maxAttempts >= 1 && Reaches(c, Initial(), events, t) && SolePublisher(events, p)
    requires id in t.rows && t.rows[id].publishedAt.None? && (p, id) !in t.flights
    requires Tally(t.requeues, id) == 0 && Tally(t.lost, id) == 0
    ensures t.rows[id].deadLetteredAt.Some? <==> ClaimCount(events, id) == c.maxAttempts
  {
    InvRun(c, p, Initial(), events, t);
    AttemptsCountClaims(c, Initial(), events, t, id);
    assert RowOk(c, p, t, id);
  }

  /** With a second publisher the bound has no such form: claims do not hold a row once they commit, and a failure
      written late by a publisher on an earlier attempt brings a dead letter back to life. */
  lemma LateFailureRevives(c: Config, g: State, p: nat, id: string, error: string, now: int)
    requires (p, id) in g.flights && 1 <= g.flights[(p, id)].attempts < c.maxAttempts && IsDeadLetter(g.rows, id)
    ensures Enabled(g, MarkFailed(p, id, error, now))
    ensures var t := Next(c, g, MarkFailed(p, id, error, now));
            id in t.rows && Due(t.rows[id], now + Backoff(c, g.flights[(p, id)].attempts))
  {
  }

  lemma ClaimsTheOnlyRow(rows: Rows, id: string, now: int)
    requires rows.Keys == {id} && Due(rows[id], now)
    ensures IsClaim(rows, {}, 1, now, [id])
  {
    assert [id][..0] == [];
  }

  lemma OneClaim(c: Config, g: State, p: nat, id: string, now: int) returns (t: State)
    requires g.rows.Keys == {id} && Due(g.rows[id], now) && Free(g, p)
    ensures Enabled(g, Claim(p, 1, {}, now, [id])) && t == Next(c, g, Claim(p, 1, {}, now, [id]))
    ensures t == g.(rows := g.rows[id := g.rows[id].(attemptCount := g.rows[id].attemptCount + 1)],
                    flights := g.flights[(p, id) := Flight(g.rows[id].attemptCount + 1, false)])
  {
    ClaimsTheOnlyRow(g.rows, id, now);
    t := Next(c, g, Claim(p, 1, {}, now, [id]));
    assert Bumped(g.rows, [id]) == g.rows[id := g.rows[id].(attemptCount := g.rows[id].attemptCount + 1)];
    assert Taken(g, p, [id]) == g.flights[(p, id) := Flight(g.rows[id].attemptCount + 1, false)];
  }

  lemma OneFailure(c: Config, g: State, p: nat, id: string, now: int) returns (t: State)
    requires (p, id) in g.flights && g.flights[(p, id)].attempts >= 1 && id in g.rows && g.rows[id].publishedAt.None?
    ensures t == Next(c, g, MarkFailed(p, id, "", now))
    ensures var n := g.flights[(p, id)].attempts;
            t == g.(rows := g.rows[id := g.rows[id].(lastError := Some(""), nextAttemptAt := NextAttempt(c, n, now),
                                                     deadLetteredAt := DeadLetter(c, n, now))],
                    flights := g.flights[(p, id) := Flight(n, true)])
  {
    t := Next(c, g, MarkFailed(p, id, "", now));
  }

  function At(n: nat): int {
    n * 300000
  }

  /** The event after n claims: publisher 1 still holds the first, the others failed. */
  function OnAttempt(c: Config, n: nat): State {
    var row := Row("t", 0, n, None, None, None, None);
    State(map["e" := if n <= 1 then row
                     else row.(nextAttemptAt := NextAttempt(c, n, At(n)), deadLetteredAt := DeadLetter(c, n, At(n)),
                               lastError := Some(""))],
          map[(1, "e") := Flight(1, false)], map[], map[])
  }

  lemma StillDue(c: Config, n: nat)
    requires 1 <= n < c.maxAttempts
    ensures Due(OnAttempt(c, n).rows["e"], At(n + 1))
  {
  }

  lemma OneLetGo(c: Config, g: State, p: nat, id: string) returns (t: State)
    requires (p, id) in g.flights && g.flights[(p, id)].written
    ensures t == Next(c, g, LetGo(p, id)) && t == g.(flights := g.flights - {(p, id)})
  {
    t := Next(c, g, LetGo(p, id));
  }

  /** Publisher 2 claims the event once more and fails. */
  lemma OneMoreFailure(c: Config, n: nat) returns (events: seq<Event>)
    requires 1 <= n < c.maxAttempts
    ensures Reaches(c, OnAttempt(c, n), events, OnAttempt(c, n + 1))
  {
    hide Reaches, IsClaim, Backoff, At;
    var g := OnAttempt(c, n);
    StillDue(c, n);
    var claimed := OneClaim(c, g, 2, "e", At(n + 1));
    ReachesOne(c, g, Claim(2, 1, {}, At(n + 1), ["e"]));
    var failed := OneFailure(c, claimed, 2, "e", At(n + 1));
    ReachesOneMore(c, g, [Claim(2, 1, {}, At(n + 1), ["e"])], claimed, MarkFailed(2, "e", "", At(n + 1)));
    events := [Claim(2, 1, {}, At(n + 1), ["e"])] + [MarkFailed(2, "e", "", At(n + 1))];
    var free := OneLetGo(c, failed, 2, "e");
    ReachesOneMore(c, g, events, failed, LetGo(2, "e"));
    events := events + [LetGo(2, "e")];
    assert free.flights == map[(1, "e") := Flight(1, false)];
    assert free.rows == OnAttempt(c, n + 1).rows;
  }

  lemma FirstClaim(c: Config) returns (events: seq<Event>)
    ensures Reaches(c, Initial(), events, OnAttempt(c, 1))
  {
    hide Reaches, IsClaim;
    var insert := Insert("e", "t", 0);
    ReachesOne(c, Initial(), insert);
    var t := OneClaim(c, Next(c, Initial(), insert), 1, "e", 0);
    assert t.rows == OnAttempt(c, 1).rows && t.flights == OnAttempt(c, 1).flights;
    ReachesOneMore(c, Initial(), [insert], Next(c, Initial(), insert), Claim(1, 1, {}, 0, ["e"]));
    events := [insert] + [Claim(1, 1, {}, 0, ["e"])];
  }

  lemma {:induction false} AllAttemptsUsed(c: Config, n: nat) returns (events: seq<Event>)
    requires 1 <= n <= c.maxAttempts
    ensures Reaches(c, Initial(), events, OnAttempt(c, n))
    decreases n
  {
    hide Reaches, OnAttempt;
    if n == 1 {
      events := FirstClaim(c);
    } else {
      events := AllAttemptsUsed(c, n - 1);
      var more := OneMoreFailure(c, n - 1);
      ReachesAppend(c, Initial(), events, OnAttempt(c, n - 1), more, OnAttempt(c, n));
      events := events + more;
    }
  }

  /** The dead letter is revived by publisher 1's late failure, and claimed again. */
  lemma RevivedAndClaimed(c: Config) returns (events: seq<Event>, t: State)
    requires 2 <= c.maxAttempts
    ensures Reaches(c, OnAttempt(c, c.maxAttempts), events, t)
    ensures Attempts(t, "e") == c.maxAttempts + 1 && t.requeues == map[] && t.lost == map[]
  {
    hide Reaches, IsClaim;
    var n := c.maxAttempts;
    var g := OnAttempt(c, n);
    var failed := OneFailure(c, g, 1, "e", At(n));
    ReachesOne(c, g, MarkFailed(1, "e", "", At(n)));
    var free := OneLetGo(c, failed, 1, "e");
    ReachesOneMore(c, g, [MarkFailed(1, "e", "", At(n))], failed, LetGo(1, "e"));
    events := [MarkFailed(1, "e", "", At(n))] + [LetGo(1, "e")];
    assert Due(free.rows["e"], At(n + 1));
    t := OneClaim(c, free, 1, "e", At(n + 1));
    ReachesOneMore(c, g, events, free, Claim(1, 1, {}, At(n + 1), ["e"]));
    events := events + [Claim(1, 1, {}, At(n + 1), ["e"])];
  }

  /** With a single attempt the second publisher need only claim while the first is at work. */
  lemma ClaimedTwice(c: Config) returns (events: seq<Event>, t: State)
    requires c.maxAttempts == 1
    ensures Reaches(c, OnAttempt(c, 1), events, t)
    ensures Attempts(t, "e") == 2 && t.requeues == map[] && t.lost == map[]
  {
    hide Reaches, IsClaim;
    t := OneClaim(c, OnAttempt(c, 1), 2, "e", 0);
    ReachesOne(c, OnAttempt(c, 1), Claim(2, 1, {}, 0, ["e"]));
    events := [Claim(2, 1, {}, 0, ["e"])];
  }

  /** Main result: with two publishers the bound fails under every configuration: an event is claimed once more than its
      attempts allow, with no requeue and no lost write. */
  lemma TwoPublishersExceedTheBound(c: Config) returns (events: seq<Event>, t: State)
    requires 1 <= c.maxAttempts <= 20 && 100 <= c.baseBackoff <= 300000
    ensures Reaches(c, Initial(), events, t)
    ensures Tally(t.requeues, "e") == 0 && Tally(t.lost, "e") == 0 && ClaimCount(events, "e") == c.maxAttempts + 1
  {
    hide Reaches, OnAttempt, ClaimCount;
    var first := AllAttemptsUsed(c, c.maxAttempts);
    var more;
    if c.maxAttempts == 1 {
      more, t := ClaimedTwice(c);
    } else {
      more, t := RevivedAndClaimed(c);
    }
    ReachesAppend(c, Initial(), first, OnAttempt(c, c.maxAttempts), more, t);
    events := first + more;
    AttemptsCountClaims(c, Initial(), events, t, "e");
  }

  /* ----- backoff ----- */

  /** What may be claimed: an event neither published nor dead, due, and not locked. */
  lemma ClaimedIsDue(g: State, e: Event, id: string)
    requires Enabled(g, e) && Claims(e, id)
    ensures id in g.rows && g.rows[id].publishedAt.None? && g.rows[id].deadLetteredAt.None? && id !in e.locked
    ensures g.rows[id].nextAttemptAt.Some? ==> g.rows[id].nextAttemptAt.value <= e.now
  {
    var i :| 0 <= i < |e.ids| && e.ids[i] == id;
    assert Candidate(g.rows, e.locked, e.now, e.ids[i]);
  }

  /** A claim names each event once and the oldest first, and no more of them than its limit. */
  lemma ClaimIsOrdered(g: State, e: Event)
    requires Enabled(g, e) && (e.Claim? || e.ClaimReplyLost?)
    ensures |e.ids| <= e.limit && forall i, j :: 0 <= i < j < |e.ids| ==>
              && e.ids[i] != e.ids[j] && e.ids[i] in g.rows && e.ids[j] in g.rows
              && g.rows[e.ids[i]].occurredAt <= g.rows[e.ids[j]].occurredAt
  {
    assert forall i :: 0 <= i < |e.ids| ==> Candidate(g.rows, e.locked, e.now, e.ids[i]);
  }

  /** What is counted as lost: a claim whose answer did not arrive, and one let go with no outcome stored. */
  lemma LostIff(c: Config, g: State, e: Event, id: string)
    requires Enabled(g, e)
    ensures Tally(Next(c, g, e).lost, id) == Tally(g.lost, id) +
              if e.ClaimReplyLost? && id in e.ids then 1
              else if e.LetGo? && e.id == id && !g.flights[(e.p, id)].written then 1
              else 0
  {
    hide IsClaim;
  }

  /** A claim below its limit leaves out nothing that could be claimed, and one at its limit nothing older. */
  lemma DueIsClaimed(g: State, e: Event, id: string)
    requires Enabled(g, e) && (e.Claim? || e.ClaimReplyLost?) && id in g.rows && id !in e.locked
    requires g.rows[id].publishedAt.None? && g.rows[id].deadLetteredAt.None?
    requires g.rows[id].nextAttemptAt.None? || g.rows[id].nextAttemptAt.value <= e.now
    ensures id in e.ids || (|e.ids| == e.limit
                            && forall k :: k in e.ids ==> k in g.rows && g.rows[k].occurredAt <= g.rows[id].occurredAt)
  {
    assert Candidate(g.rows, e.locked, e.now, id);
    forall k | k in e.ids
      ensures k in g.rows && (id !in e.ids ==> g.rows[k].occurredAt <= g.rows[id].occurredAt)
    {
      var i :| 0 <= i < |e.ids| && e.ids[i] == k;
      assert Candidate(g.rows, e.locked, e.now, e.ids[i]);
    }
  }

  /** A requeue takes effect on unpublished dead letters only: they are due at once, with their attempts still
      counted. */
  lemma RequeueIff(c: Config, g: State, id: string, now: int)
    ensures var t := Next(c, g, Requeue(id, now));
            if id in g.rows && g.rows[id].publishedAt.None? && g.rows[id].deadLetteredAt.Some?
            then t.rows == g.rows[id := g.rows[id].(deadLetteredAt := None, nextAttemptAt := Some(now),
                                                    lastError := None)]
                 && Tally(t.requeues, id) == Tally(g.requeues, id) + 1
            else t == g
  {
  }

  /** The steps that may bring an event's next attempt forward. */
  predicate Reschedules(e: Event, id: string) {
    (e.MarkFailed? || e.Requeue?) && e.id == id
  }

  lemma ScheduleStep(c: Config, g: State, e: Event, id: string)
    requires Enabled(g, e) && id in g.rows && !Reschedules(e, id)
    ensures var t := Next(c, g, e);
            && id in t.rows && t.rows[id].nextAttemptAt == g.rows[id].nextAttemptAt
            && t.rows[id].deadLetteredAt == g.rows[id].deadLetteredAt
  {
    hide Backoff, Sliced;
  }

  /** Until it is requeued or fails again, an event keeps its schedule: it is not claimed before its time, and not at
      all once it is a dead letter. */
  lemma {:induction false} ScheduleIsKept(c: Config, g: State, events: seq<Event>, t: State, id: string)
    requires Reaches(c, g, events, t) && id in g.rows
    requires forall i :: 0 <= i < |events| ==> !Reschedules(events[i], id)
    ensures forall i :: 0 <= i < |events| && Claims(events[i], id) ==>
              g.rows[id].deadLetteredAt.None? &&
              (g.rows[id].nextAttemptAt.Some? ==> g.rows[id].nextAttemptAt.value <= events[i].now)
    decreases |events|
  {
    hide Next, Enabled, Reschedules;
    if events != [] {
      ScheduleStep(c, g, events[0], id);
      assert forall i :: 0 <= i < |events[1..]| ==> events[1..][i] == events[i + 1];
      ScheduleIsKept(c, Next(c, g, events[0]), events[1..], t, id);
      forall i | 0 <= i < |events| && Claims(events[i], id)
        ensures g.rows[id].deadLetteredAt.None?
        ensures g.rows[id].nextAttemptAt.Some? ==> g.rows[id].nextAttemptAt.value <= events[i].now
      {
        if i == 0 {
          ClaimedIsDue(g, events[0], id);
        } else {
          assert events[i] == events[1..][i - 1];
        }
      }
    }
  }

  /** Main result: after a failed attempt an event is not claimed before its delay has passed, and after its last one
      not at all, whoever claims, unless it is requeued or an earlier attempt of it fails late. */
  lemma FailureIsNotRetriedEarly(
    c: Config, g: State, p: nat, id: string, error: string, now: int, events: seq<Event>, t: State, i: nat)
    requires Enabled(g, MarkFailed(p, id, error, now)) && g.flights[(p, id)].attempts >= 1
    requires id in g.rows && g.rows[id].publishedAt.None?
    requires Reaches(c, Next(c, g, MarkFailed(p, id, error, now)), events, t) && i < |events| && Claims(events[i], id)
    requires forall k :: 0 <= k < |events| ==> !Reschedules(events[k], id)
    ensures g.flights[(p, id)].attempts < c.maxAttempts
    ensures events[i].now >= now + Backoff(c, g.flights[(p, id)].attempts)
  {
    hide Reaches, Backoff;
    ScheduleIsKept(c, Next(c, g, MarkFailed(p, id, error, now)), events, t, id);
  }

  /** The first delay is the base delay. */
  lemma FirstBackoff(c: Config)
    requires 1 <= c.maxAttempts <= 20 && 100 <= c.baseBackoff <= 300000
    ensures Backoff(c, 1) == c.baseBackoff
  {
  }

  lemma {:induction false} Pow2Grows(m: nat, n: nat)
    requires m <= n
    ensures Pow2(m) <= Pow2(n)
  {
    if m < n {
      Pow2Grows(m, n - 1);
    }
  }

  /** Delays never shrink, stay between the base delay and five minutes, and double until they reach it. */
  lemma BackoffGrows(c: Config, m: nat, n: nat)
    requires ValidConfig(c) && 1 <= m <= n
    ensures c.baseBackoff <= Backoff(c, m) <= Backoff(c, n) <= 300000
    ensures Backoff(c, n + 1) == if 2 * Backoff(c, n) <= 300000 then 2 * Backoff(c, n) else 300000
  {
    Pow2Grows(m - 1, n - 1);
    assert c.baseBackoff <= c.baseBackoff * Pow2(m - 1) <= c.baseBackoff * Pow2(n - 1) by {
      MulGrows(c.baseBackoff, 1, Pow2(m - 1));
      MulGrows(c.baseBackoff, Pow2(m - 1), Pow2(n - 1));
    }
    assert c.baseBackoff * Pow2(n) == 2 * (c.baseBackoff * Pow2(n - 1));
  }

  lemma MulGrows(a: nat, x: nat, y: nat)
    requires x <= y
    ensures a * x <= a * y
  {
  }
}
