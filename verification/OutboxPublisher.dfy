/**
 The publisher (outbox-publisher.ts): a batch is claimed, each event is delivered to every destination that subscribes
 to it, with retries, and then marked published or failed.  What the network, the destination provider and the
 database answer is arbitrary.
 */
module OutboxPublisher {
  import opened Common
  import opened Text
  import opened OutboxTable
  import opened OutboxProtocol
  import JsMap

  /** `valid` is what validateDestination finds. */
  datatype Destination = Destination(destinationId: string, eventTypes: seq<string>, valid: bool)

  /** The places in a destination list of the entries that subscribe to an event type, in order. */
  function Subscribed(ds: seq<Destination>, eventType: string): (r: seq<nat>)
    ensures forall i: nat :: i in r <==> i < |ds| && eventType in ds[i].eventTypes
    ensures forall j, k :: 0 <= j < k < |r| ==> r[j] < r[k]
  {
    if ds == [] then []
    else
      var last := |ds| - 1;
      var before := Subscribed(ds[..last], eventType);
      assert forall j :: 0 <= j < |before| ==> before[j] in before;
      before + if eventType in ds[last].eventTypes then [last] else []
  }

  /** One request to the destination at this place in the list. */
  datatype Delivery = Delivery(eventId: string, destination: nat, accepted: bool)

  datatype Local = Local(attempts: nat, error: string, stored: bool)

  datatype Outcome =
    | Sent(at: int)
    | NoDestinations
    | Refused(destination: nat)
    | NotMarked

  /** What the world answers while one event is published: the destination list (None if the provider throws), the
      attempts each destination accepts, what becomes of the two marks, and the clock at each of them. */
  datatype World = World(
    provided: Option<seq<Destination>>, accepts: set<(nat, nat)>, publishedAt: int, published: Reply, failedAt: int,
    failed: Reply)

  /** A destination list that arrived and in which every entry is valid. */
  predicate Usable(provided: Option<seq<Destination>>) {
    provided.Some? && forall d :: d in provided.value ==> d.valid
  }

  /** How one event of a batch went; `local` is the note the publisher keeps of a failure. */
  datatype Record = Record(event: Claimed, world: World, log: seq<Delivery>, outcome: Outcome, local: Option<Local>)

  /** n requests to one destination, of which at most the last was accepted. */
  function Tries(id: string, i: nat, n: nat, accepted: bool): (r: seq<Delivery>)
    ensures |r| == n
  {
    seq(n, k => Delivery(id, i, accepted && k == n - 1))
  }

  /** The destination accepts one of its first n attempts. */
  ghost predicate Obtains(accepts: set<(nat, nat)>, i: nat, n: nat) {
    exists a :: 1 <= a <= n && (i, a) in accepts
  }

  /** The log ends in requests to destination i up to the first it accepts, the n-th, or to all n if it accepts none. */
  ghost predicate EndsInTries(
      log: seq<Delivery>, id: string, i: nat, n: nat, accepted: bool, accepts: set<(nat, nat)>) {
    && n <= |log| && log[|log| - n..] == Tries(id, i, n, accepted)
    && (accepted ==> n >= 1 && (i, n) in accepts && !Obtains(accepts, i, n - 1))
    && (!accepted ==> !Obtains(accepts, i, n))
  }

  /** The log of an event that all these destinations have accepted, one after the other. */
  ghost predicate Accepted(log: seq<Delivery>, id: string, targets: seq<nat>, max: nat, accepts: set<(nat, nat)>)
    decreases |targets|
  {
    if targets == [] then log == []
    else
      var last := |targets| - 1;
      exists n: nat :: EndsInTries(log, id, targets[last], n, true, accepts) && 1 <= n <= max && n <= |log|
                       && Accepted(log[..|log| - n], id, targets[..last], max, accepts)
  }

  /** All attempts at the j-th of these destinations were refused, after the ones before it accepted. */
  ghost predicate GaveUp(
      log: seq<Delivery>, id: string, targets: seq<nat>, j: nat, max: nat, accepts: set<(nat, nat)>) {
    && j < |targets| && EndsInTries(log, id, targets[j], max, false, accepts)
    && Accepted(log[..|log| - max], id, targets[..j], max, accepts)
  }

  function Targets(r: Record): seq<nat> {
    if r.world.provided.Some? then Subscribed(r.world.provided.value, r.event.row.eventType) else []
  }

  ghost predicate ValidRecord(r: Record, max: nat) {
    var id, w := r.event.eventId, r.world;
    && (r.outcome.Sent? <==> r.local.None?)
    && (r.local.Some? ==> r.local.value.attempts == r.event.row.attemptCount + 1
                          && r.local.value.stored == w.failed.Stored?)
    && (r.outcome.NoDestinations? <==> !Usable(w.provided))
    && match r.outcome
       case Sent(at) => at == w.publishedAt && w.published.Stored? && Accepted(r.log, id, Targets(r), max, w.accepts)
       case NotMarked => !w.published.Stored? && Accepted(r.log, id, Targets(r), max, w.accepts)
       case Refused(i) =>
         exists j: nat :: j < |Targets(r)| && Targets(r)[j] == i && GaveUp(r.log, id, Targets(r), j, max, w.accepts)
       case NoDestinations => r.log == []
  }

  /** Whether the mark as published, and the mark as failed, took effect in the table. */
  predicate Marked(r: Record) {
    (r.outcome.Sent? || r.outcome.NotMarked?) && !r.world.published.NotStored?
  }

  predicate MarkedFailed(r: Record) {
    r.local.Some? && !r.world.failed.NotStored?
  }

  /** The table after the marks of one event, and of a batch. */
  function RowsAfter(c: Config, rows: Rows, r: Record): Rows {
    var id := r.event.eventId;
    var published := if Marked(r) then Published(rows, id, r.world.publishedAt) else rows;
    if MarkedFailed(r)
    then FailedTo(published, id, r.local.value.error, NextAttempt(c, r.local.value.attempts, r.world.failedAt),
                  DeadLetter(c, r.local.value.attempts, r.world.failedAt))
    else published
  }

  /** Main result, for the row of the event: a mark as published that took effect sets the time and nothing else; one
      as failed keeps the row unpublished with the error's first 2048 characters, dead from that moment if this was the
      last attempt, and otherwise due again after the base delay doubled with each attempt, at most five minutes; and
      with neither the table is as it was.  Other rows, and a row already published, stay as they were. */
  lemma RowAfterEvent(c: Config, rows: Rows, r: Record, max: nat)
    requires ValidRecord(r, max) && r.event.eventId in rows
    ensures var id, n, t := r.event.eventId, r.event.row.attemptCount + 1, RowsAfter(c, rows, r);
            var sent := (r.outcome.Sent? || r.outcome.NotMarked?) && r.world.published != NotStored;
            var noted := !r.outcome.Sent? && r.world.failed != NotStored;
            && id in t && t == rows[id := t[id]] && (rows[id].publishedAt.Some? ==> t == rows)
            && (rows[id].publishedAt.None? && sent ==>
                  t[id] == rows[id].(publishedAt := Some(r.world.publishedAt)))
            && (rows[id].publishedAt.None? && !sent && noted ==>
                  && r.local.Some? && t[id].lastError.Some? && t[id].lastError.value <= r.local.value.error
                  && |t[id].lastError.value| == (if |r.local.value.error| <= 2048 then |r.local.value.error| else 2048)
                  && t[id] == rows[id].(lastError := t[id].lastError,
                       deadLetteredAt := if n >= c.maxAttempts then Some(r.world.failedAt) else None,
                       nextAttemptAt := if n >= c.maxAttempts then None else Some(r.world.failedAt + Delay(c, n))))
            && (!sent && !noted ==> t == rows)
  {
    hide Accepted, GaveUp, Subscribed;
    if r.local.Some? {
      var n := r.event.row.attemptCount + 1;
      DelayIsBackoff(c, n);
    }
  }

  /** The base delay doubled for each attempt after the first, at most five minutes. */
  function Delay(c: Config, n: nat): int
    requires n >= 1
  {
    var d := c.baseBackoff * TwoTo(n - 1);
    if d > 300000 then 300000 else d
  }

  function TwoTo(n: nat): nat {
    if n == 0 then 1 else TwoTo(n - 1) + TwoTo(n - 1)
  }

  lemma {:induction false} DelayIsBackoff(c: Config, n: nat)
    requires n >= 1
    ensures Delay(c, n) == Backoff(c, n) && TwoTo(n - 1) == Pow2(n - 1)
  {
    if n > 1 {
      DelayIsBackoff(c, n - 1);
    }
  }

  function RowsAfterAll(c: Config, rows: Rows, records: seq<Record>): Rows {
    if records == [] then rows else RowsAfter(c, RowsAfterAll(c, rows, records[..|records| - 1]),
                                              records[|records| - 1])
  }

  lemma RowsOneMore(c: Config, rows: Rows, records: seq<Record>, r: Record)
    ensures RowsAfterAll(c, rows, records + [r]) == RowsAfter(c, RowsAfterAll(c, rows, records), r)
  {
    assert (records + [r])[..|records|] == records;
  }

  /* ----- what the log of a record amounts to ----- */

  function Count(log: seq<Delivery>, d: Delivery): nat {
    multiset(log)[d]
  }

  lemma {:induction false} TriesCount(id: string, i: nat, n: nat, accepted: bool, d: Delivery)
    ensures Count(Tries(id, i, n, accepted), d) ==
              if d.eventId != id || d.destination != i then 0
              else if d.accepted then (if accepted && n > 0 then 1 else 0)
              else if accepted && n > 0 then n - 1 else n
  {
    if n > 0 && accepted {
      TriesCount(id, i, n - 1, false, d);
      assert Tries(id, i, n, true) == Tries(id, i, n - 1, false) + [Delivery(id, i, true)];
    } else if n > 0 {
      TriesCount(id, i, n - 1, false, d);
      assert Tries(id, i, n, accepted) == Tries(id, i, n - 1, false) + [Delivery(id, i, false)];
    }
  }

  lemma EndCounts(log: seq<Delivery>, n: nat, d: Delivery)
    requires n <= |log|
    ensures Count(log, d) == Count(log[..|log| - n], d) + Count(log[|log| - n..], d)
  {
    assert log == log[..|log| - n] + log[|log| - n..];
  }

  /** Requests to destination i at the end of a log count for i and this event only. */
  lemma TriesAtTheEnd(
      log: seq<Delivery>, id: string, i: nat, n: nat, accepted: bool, accepts: set<(nat, nat)>, d: Delivery)
    requires EndsInTries(log, id, i, n, accepted, accepts) && n >= 1
    ensures Count(log, d) == Count(log[..|log| - n], d) +
              if d.eventId != id || d.destination != i then 0
              else if d.accepted then (if accepted then 1 else 0)
              else if accepted then n - 1 else n
  {
    hide Count, Tries, Obtains;
    EndCounts(log, n, d);
    TriesCount(id, i, n, accepted, d);
  }

  /** Strictly increasing. */
  ghost predicate Ascending(targets: seq<nat>) {
    forall j, k :: 0 <= j < k < |targets| ==> targets[j] < targets[k]
  }

  /** Each of the destinations accepted once, after at most max - 1 refusals, and nothing else was sent. */
  lemma {:induction false} AcceptedCounts(
      log: seq<Delivery>, id: string, targets: seq<nat>, max: nat, accepts: set<(nat, nat)>, d: Delivery)
    requires Accepted(log, id, targets, max, accepts) && Ascending(targets)
    ensures d.accepted ==> Count(log, d) == if d.eventId == id && d.destination in targets then 1 else 0
    ensures !d.accepted ==> Count(log, d) <= if d.eventId == id && d.destination in targets then max - 1 else 0
    decreases |targets|
  {
    hide Count, Accepted;
    if targets == [] {
      NothingAccepted(log, id, max, accepts);
      NothingCounts(d);
    } else {
      var last := |targets| - 1;
      var n := LastAccepted(log, id, targets, max, accepts);
      AcceptedCounts(log[..|log| - n], id, targets[..last], max, accepts, d);
      TriesAtTheEnd(log, id, targets[last], n, true, accepts, d);
      assert targets == targets[..last] + [targets[last]] && targets[last] !in targets[..last];
    }
  }

  lemma NothingAccepted(log: seq<Delivery>, id: string, max: nat, accepts: set<(nat, nat)>)
    requires Accepted(log, id, [], max, accepts)
    ensures log == []
  {
  }

  lemma LastAccepted(log: seq<Delivery>, id: string, targets: seq<nat>, max: nat, accepts: set<(nat, nat)>)
      returns (n: nat)
    requires Accepted(log, id, targets, max, accepts) && targets != []
    ensures 1 <= n <= max && n <= |log| && EndsInTries(log, id, targets[|targets| - 1], n, true, accepts)
    ensures Accepted(log[..|log| - n], id, targets[..|targets| - 1], max, accepts)
  {
    var last := |targets| - 1;
    n :| EndsInTries(log, id, targets[last], n, true, accepts) && 1 <= n <= max && n <= |log|
         && Accepted(log[..|log| - n], id, targets[..last], max, accepts);
  }

  /** What accepting means for each of them: one of the first max attempts went through. */
  lemma {:induction false} AcceptedObtain(
      log: seq<Delivery>, id: string, targets: seq<nat>, max: nat, accepts: set<(nat, nat)>, i: nat)
    requires Accepted(log, id, targets, max, accepts) && i in targets
    ensures Obtains(accepts, i, max)
    decreases |targets|
  {
    hide Accepted;
    var last := |targets| - 1;
    var n := LastAccepted(log, id, targets, max, accepts);
    if i in targets[..last] {
      AcceptedObtain(log[..|log| - n], id, targets[..last], max, accepts, i);
    } else {
      assert (targets[last], n) in accepts;
    }
  }

  lemma GaveUpCounts(
      log: seq<Delivery>, id: string, targets: seq<nat>, j: nat, max: nat, accepts: set<(nat, nat)>, d: Delivery)
    requires GaveUp(log, id, targets, j, max, accepts) && max >= 1 && Ascending(targets)
    ensures d.accepted ==> Count(log, d) == if d.eventId == id && d.destination in targets[..j] then 1 else 0
    ensures !d.accepted ==> Count(log, d) <= if d.eventId != id || d.destination !in targets[..j + 1] then 0
                                             else if d.destination in targets[..j] then max - 1 else max
    ensures d == Delivery(id, targets[j], false) ==> Count(log, d) == max
  {
    hide Count, Obtains;
    AcceptedCounts(log[..|log| - max], id, targets[..j], max, accepts, d);
    TriesAtTheEnd(log, id, targets[j], max, false, accepts, d);
    assert targets[..j + 1] == targets[..j] + [targets[j]] && targets[j] !in targets[..j];
  }

  predicate Subscribes(r: Record, i: nat) {
    r.world.provided.Some? && i < |r.world.provided.value|
    && r.event.row.eventType in r.world.provided.value[i].eventTypes
  }

  lemma TargetsAre(r: Record)
    ensures Ascending(Targets(r)) && forall i: nat :: i in Targets(r) <==> Subscribes(r, i)
  {
  }

  /** Main result, for one claim of an event and each entry of the destination list: an entry that does not subscribe
      gets nothing; one that does gets at most maxAttempts requests, accepts at most once, and has accepted whenever the
      event is marked published or could be; and nothing is sent about any other event. */
  lemma DeliveriesPerClaim(r: Record, max: nat, d: Delivery)
    requires ValidRecord(r, max) && max >= 1
    ensures !Subscribes(r, d.destination) || d.eventId != r.event.eventId ==> Count(r.log, d) == 0
    ensures Count(r.log, d.(accepted := true)) <= 1
    ensures Count(r.log, d.(accepted := true)) + Count(r.log, d.(accepted := false)) <= max
    ensures r.outcome.Sent? || r.outcome.NotMarked? ==>
              (Subscribes(r, d.destination) && d.eventId == r.event.eventId ==> Count(r.log, d.(accepted := true)) == 1)
    ensures r.outcome.Refused? && Subscribes(r, d.destination) && d.eventId == r.event.eventId ==>
              && (d.destination < r.outcome.destination ==> Count(r.log, d.(accepted := true)) == 1)
              && (d.destination == r.outcome.destination ==> Count(r.log, d.(accepted := false)) == max)
              && (d.destination > r.outcome.destination ==> Count(r.log, d) == 0)
  {
    hide Accepted, GaveUp, Count, Obtains, Subscribed;
    TargetsAre(r);
    var id, yes, no := r.event.eventId, d.(accepted := true), d.(accepted := false);
    assert d == if d.accepted then yes else no;
    if r.outcome.Sent? || r.outcome.NotMarked? {
      AcceptedCounts(r.log, id, Targets(r), max, r.world.accepts, yes);
      AcceptedCounts(r.log, id, Targets(r), max, r.world.accepts, no);
    } else if r.outcome.Refused? {
      var j: nat :| j < |Targets(r)| && Targets(r)[j] == r.outcome.destination
               && GaveUp(r.log, id, Targets(r), j, max, r.world.accepts);
      GaveUpCounts(r.log, id, Targets(r), j, max, r.world.accepts, yes);
      GaveUpCounts(r.log, id, Targets(r), j, max, r.world.accepts, no);
      TargetsUpTo(r, j, d.destination);
      assert Targets(r)[..j + 1] == Targets(r)[..j] + [Targets(r)[j]];
    } else {
      NothingCounts(yes);
      NothingCounts(no);
    }
  }

  lemma NothingCounts(d: Delivery)
    ensures Count([], d) == 0
  {
  }

  lemma TargetsUpTo(r: Record, j: nat, i: nat)
    requires j < |Targets(r)|
    ensures i in Targets(r)[..j + 1] ==> Subscribes(r, i)
    ensures i in Targets(r)[..j] <==> Subscribes(r, i) && i < Targets(r)[j]
  {
    TargetsAre(r);
    var targets := Targets(r);
    if Subscribes(r, i) && i < targets[j] {
      var k :| 0 <= k < |targets| && targets[k] == i;
      assert k < j;
      assert targets[..j][k] == i;
    }
  }

  /** Main result: what the event ends as follows from what the world answers.  It is published exactly when the list is
      usable, every subscribed entry accepts one of maxAttempts requests, and the mark is stored; it ends as refused by
      an entry exactly when that is the first subscribed entry that accepts none. */
  lemma OutcomeIff(r: Record, max: nat, i: nat)
    requires ValidRecord(r, max) && max >= 1
    ensures r.outcome.NoDestinations? <==>
              r.world.provided == None || exists d :: d in r.world.provided.value && !d.valid
    ensures r.outcome.Sent? <==> r.local == None
    ensures r.local.Some? ==> r.local.value.attempts == r.event.row.attemptCount + 1
                              && (r.local.value.stored <==> r.world.failed == Stored)
    ensures r.outcome == Sent(r.world.publishedAt) <==>
              && Usable(r.world.provided) && r.world.published.Stored?
              && forall k: nat :: Subscribes(r, k) ==> Obtains(r.world.accepts, k, max)
    ensures r.outcome == Refused(i) <==>
              && Usable(r.world.provided) && Subscribes(r, i) && !Obtains(r.world.accepts, i, max)
              && forall k: nat :: k < i && Subscribes(r, k) ==> Obtains(r.world.accepts, k, max)
    ensures r.outcome.NotMarked? <==>
              && Usable(r.world.provided) && !r.world.published.Stored?
              && forall k: nat :: Subscribes(r, k) ==> Obtains(r.world.accepts, k, max)
  {
    hide Accepted, Obtains, Count, Subscribed, Subscribes;
    TargetsAre(r);
    if r.outcome.Sent? || r.outcome.NotMarked? {
      forall k: nat | Subscribes(r, k)
        ensures Obtains(r.world.accepts, k, max)
      {
        AcceptedObtain(r.log, r.event.eventId, Targets(r), max, r.world.accepts, k);
      }
    } else if r.outcome.Refused? {
      RefusedAt(r, max);
      if Subscribes(r, i) && !Obtains(r.world.accepts, i, max) && i != r.outcome.destination {
        assert r.outcome.destination < i;
      }
    }
  }

  lemma RefusedAt(r: Record, max: nat)
    requires ValidRecord(r, max) && max >= 1 && r.outcome.Refused?
    ensures Subscribes(r, r.outcome.destination) && !Obtains(r.world.accepts, r.outcome.destination, max)
    ensures forall k: nat :: k < r.outcome.destination && Subscribes(r, k) ==> Obtains(r.world.accepts, k, max)
  {
    hide Accepted, Obtains, Subscribed, Subscribes;
    TargetsAre(r);
    var id := r.event.eventId;
    var j: nat :| j < |Targets(r)| && Targets(r)[j] == r.outcome.destination
             && GaveUp(r.log, id, Targets(r), j, max, r.world.accepts);
    forall k: nat | k < r.outcome.destination && Subscribes(r, k)
      ensures Obtains(r.world.accepts, k, max)
    {
      TargetsUpTo(r, j, k);
      AcceptedObtain(r.log[..|r.log| - max], id, Targets(r)[..j], max, r.world.accepts, k);
    }
  }

  lemma AcceptedOneMore(
      log: seq<Delivery>, id: string, targets: seq<nat>, j: nat, max: nat, accepts: set<(nat, nat)>, n: nat)
    requires j < |targets| && Accepted(log, id, targets[..j], max, accepts) && 1 <= n <= max
    requires (targets[j], n) in accepts && !Obtains(accepts, targets[j], n - 1)
    ensures Accepted(log + Tries(id, targets[j], n, true), id, targets[..j + 1], max, accepts)
  {
    var more, ts := log + Tries(id, targets[j], n, true), targets[..j + 1];
    assert more[..|more| - n] == log && more[|more| - n..] == Tries(id, targets[j], n, true);
    assert ts[|ts| - 1] == targets[j] && ts[..|ts| - 1] == targets[..j];
    assert EndsInTries(more, id, ts[|ts| - 1], n, true, accepts);
  }

  lemma GaveUpFrom(log: seq<Delivery>, id: string, targets: seq<nat>, j: nat, max: nat, accepts: set<(nat, nat)>)
    requires j < |targets| && Accepted(log, id, targets[..j], max, accepts) && !Obtains(accepts, targets[j], max)
    ensures GaveUp(log + Tries(id, targets[j], max, false), id, targets, j, max, accepts)
  {
    var more := log + Tries(id, targets[j], max, false);
    assert more[..|more| - max] == log && more[|more| - max..] == Tries(id, targets[j], max, false);
  }

  lemma AcceptedNothing(id: string, max: nat, accepts: set<(nat, nat)>)
    ensures Accepted([], id, [], max, accepts)
  {
  }

  lemma ReachesNothing(c: Config, g: State)
    ensures Reaches(c, g, [], g)
  {
  }

  /** Nothing but p's flight of this event has moved, and that flight is still the same attempt. */
  ghost predicate SameAttempt(g: State, t: State, p: nat, id: string) {
    && (p, id) in g.flights && (p, id) in t.flights && t.flights[(p, id)].attempts == g.flights[(p, id)].attempts
    && t.flights - {(p, id)} == g.flights - {(p, id)} && t.requeues == g.requeues
  }

  /** The protocol step a mark amounts to: none if it was not stored. */
  lemma MarkPublishedStep(c: Config, g: State, p: nat, id: string, at: int, reply: Reply)
      returns (events: seq<Event>, t: State)
    requires (p, id) in g.flights
    ensures Reaches(c, g, events, t) && SameAttempt(g, t, p, id)
    ensures t.rows == if reply.NotStored? then g.rows else Published(g.rows, id, at)
  {
    if reply.NotStored? {
      events, t := [], g;
    } else {
      events, t := [MarkPublished(p, id, at)], Next(c, g, MarkPublished(p, id, at));
      ReachesOne(c, g, MarkPublished(p, id, at));
    }
  }

  lemma MarkFailedStep(c: Config, g: State, p: nat, id: string, error: string, now: int, reply: Reply)
      returns (events: seq<Event>, t: State)
    requires (p, id) in g.flights
    ensures Reaches(c, g, events, t) && SameAttempt(g, t, p, id)
    ensures var n := g.flights[(p, id)].attempts;
            t.rows == if reply.NotStored? then g.rows
                      else FailedTo(g.rows, id, error, NextAttempt(c, n, now), DeadLetter(c, n, now))
  {
    if reply.NotStored? {
      events, t := [], g;
    } else {
      events, t := [MarkFailed(p, id, error, now)], Next(c, g, MarkFailed(p, id, error, now));
      ReachesOne(c, g, MarkFailed(p, id, error, now));
    }
  }

  lemma LetGoStep(c: Config, g: State, p: nat, id: string) returns (events: seq<Event>, t: State)
    requires (p, id) in g.flights
    ensures Reaches(c, g, events, t)
    ensures t.rows == g.rows && t.flights == g.flights - {(p, id)} && t.requeues == g.requeues
  {
    events, t := [LetGo(p, id)], Next(c, g, LetGo(p, id));
    ReachesOne(c, g, LetGo(p, id));
  }

  /* ----- a batch ----- */

  function Logs(records: seq<Record>): seq<Delivery> {
    if records == [] then [] else Logs(records[..|records| - 1]) + records[|records| - 1].log
  }

  function PublishedCount(records: seq<Record>): nat {
    if records == [] then 0
    else PublishedCount(records[..|records| - 1]) + if records[|records| - 1].outcome.Sent? then 1 else 0
  }

  /** One record for each claimed event, in the order of the claim. */
  ghost predicate BatchOf(records: seq<Record>, ids: seq<string>, rows: Rows, max: nat) {
    && |records| == |ids|
    && forall i {:trigger records[i]} :: 0 <= i < |ids| ==>
         ids[i] in rows && records[i].event == Claimed(ids[i], rows[ids[i]]) && ValidRecord(records[i], max)
  }

  lemma LogsOneMore(records: seq<Record>, r: Record)
    ensures Logs(records + [r]) == Logs(records) + r.log
    ensures PublishedCount(records + [r]) == PublishedCount(records) + if r.outcome.Sent? then 1 else 0
  {
    assert (records + [r])[..|records|] == records;
  }

  /** The publisher's own notes after a batch: a failure is noted, a success leaves the notes alone. */
  function NotesAfter(notes: map<string, Local>, records: seq<Record>): map<string, Local> {
    if records == [] then notes
    else
      var r := records[|records| - 1];
      var before := NotesAfter(notes, records[..|records| - 1]);
      if r.local.Some? then before[r.event.eventId := r.local.value] else before
  }

  lemma NotesOneMore(notes: map<string, Local>, records: seq<Record>, r: Record)
    ensures NotesAfter(notes, records + [r]) ==
              if r.local.Some? then NotesAfter(notes, records)[r.event.eventId := r.local.value]
              else NotesAfter(notes, records)
  {
    assert (records + [r])[..|records|] == records;
  }

  /** p still has exactly these events to work off, each under the attempt number its claim gave it. */
  ghost predicate InHand(g: State, others: map<(nat, string), Flight>, p: nat, ids: seq<string>, rows: Rows) {
    && JsMap.Distinct(ids)
    && (forall f :: f in g.flights <==> f in others || (f.0 == p && f.1 in ids))
    && (forall f :: f in others ==> f.0 != p && f in g.flights && g.flights[f] == others[f])
    && (forall i :: 0 <= i < |ids| ==> ids[i] in rows)
    && (forall i :: 0 <= i < |ids| ==> (p, ids[i]) in g.flights
                                       && g.flights[(p, ids[i])] == Flight(rows[ids[i]].attemptCount + 1, false))
  }

  lemma NoRecords(notes: map<string, Local>, rows: Rows, max: nat)
    ensures Logs([]) == [] && PublishedCount([]) == 0 && NotesAfter(notes, []) == notes
    ensures BatchOf([], [], rows, max)
    ensures forall c, table :: RowsAfterAll(c, table, []) == table
  {
  }

  lemma BatchOneMore(records: seq<Record>, r: Record, ids: seq<string>, i: nat, rows: Rows, max: nat)
    requires i < |ids| && BatchOf(records, ids[..i], rows, max) && ids[i] in rows
    requires r.event == Claimed(ids[i], rows[ids[i]]) && ValidRecord(r, max)
    ensures BatchOf(records + [r], ids[..i + 1], rows, max)
  {
    hide ValidRecord;
    var more, upTo := records + [r], ids[..i + 1];
    forall k | 0 <= k < |upTo|
      ensures upTo[k] in rows && more[k].event == Claimed(upTo[k], rows[upTo[k]]) && ValidRecord(more[k], max)
    {
      assert upTo[k] == ids[k];
      if k < i {
        assert more[k] == records[k] && ids[..i][k] == ids[k];
      } else {
        assert more[k] == r;
      }
    }
  }

  lemma ClaimStep(c: Config, g: State, p: nat, limit: nat, locked: set<string>, now: int, ids: seq<string>)
      returns (events: seq<Event>, t: State)
    requires IsClaim(g.rows, locked, limit, now, ids) && Free(g, p)
    ensures Reaches(c, g, events, t) && t.rows == Bumped(g.rows, ids) && t.requeues == g.requeues
    ensures InHand(t, g.flights, p, ids, g.rows)
  {
    var e := Claim(p, limit, locked, now, ids);
    events, t := [e], Next(c, g, e);
    ReachesOne(c, g, e);
    forall i | 0 <= i < |ids|
      ensures ids[i] in g.rows && (p, ids[i]) in t.flights
      ensures t.flights[(p, ids[i])] == Flight(g.rows[ids[i]].attemptCount + 1, false)
    {
      assert Candidate(g.rows, locked, now, ids[i]);
    }
  }

  lemma LostClaimStep(c: Config, g: State, p: nat, limit: nat, locked: set<string>, now: int, ids: seq<string>)
      returns (events: seq<Event>, t: State)
    requires IsClaim(g.rows, locked, limit, now, ids) && Free(g, p)
    ensures Reaches(c, g, events, t) && t.rows == Bumped(g.rows, ids) && t.requeues == g.requeues
    ensures t.flights == g.flights
  {
    var e := ClaimReplyLost(p, limit, locked, now, ids);
    events, t := [e], Next(c, g, e);
    ReachesOne(c, g, e);
  }

  lemma NextInHand(g: State, others: map<(nat, string), Flight>, p: nat, ids: seq<string>, rows: Rows)
    requires InHand(g, others, p, ids, rows) && ids != []
    ensures ids[0] in rows && (p, ids[0]) in g.flights
    ensures g.flights[(p, ids[0])].attempts == rows[ids[0]].attemptCount + 1
  {
  }

  lemma WorkedOff(g: State, t: State, others: map<(nat, string), Flight>, p: nat, ids: seq<string>, rows: Rows)
    requires InHand(g, others, p, ids, rows) && ids != [] && t.flights == g.flights - {(p, ids[0])}
    ensures InHand(t, others, p, ids[1..], rows)
  {
    JsMap.TailDistinct(ids);
    assert forall id :: id in ids <==> id == ids[0] || id in ids[1..];
    forall i | 0 <= i < |ids[1..]|
      ensures ids[1..][i] in rows && (p, ids[1..][i]) in t.flights
      ensures t.flights[(p, ids[1..][i])] == Flight(rows[ids[1..][i]].attemptCount + 1, false)
    {
      assert ids[1..][i] == ids[i + 1] && ids[1..][i] in ids[1..];
    }
  }

  lemma NothingInHand(g: State, others: map<(nat, string), Flight>, p: nat, rows: Rows)
    requires InHand(g, others, p, [], rows)
    ensures g.flights == others
  {
    assert forall f :: f in g.flights.Keys <==> f in others.Keys;
    assert g.flights.Keys == others.Keys;
  }

  function Waits(c: Config, n: nat): seq<int> {
    seq(n, i requires 0 <= i < n => Backoff(c, i + 1))
  }

  /** Between two requests to one destination the publisher waits the base delay, doubled each time, at most five
      minutes. */
  lemma WaitsAre(c: Config, n: nat)
    ensures |Waits(c, n)| == n
    ensures forall i :: 0 <= i < n ==>
              Waits(c, n)[i] == if c.baseBackoff * TwoTo(i) > 300000 then 300000 else c.baseBackoff * TwoTo(i)
  {
    forall i | 0 <= i < n
      ensures Waits(c, n)[i] == Delay(c, i + 1)
    {
      DelayIsBackoff(c, i + 1);
    }
  }

  class Publisher {
    const table: OutboxEvents
    const config: Config
    const p: nat
    var deadLetters: map<string, Local>
    /** Every request sent and every wait between two of them, in order. */
    var deliveries: seq<Delivery>
    var waits: seq<int>

    constructor (table: OutboxEvents, config: Config, p: nat)
      requires ValidConfig(config)
      ensures this.table == table && this.config == config && this.p == p
      ensures deadLetters == map[] && deliveries == [] && waits == []
    {
      this.table, this.config, this.p := table, config, p;
      deadLetters, deliveries, waits := map[], [], [];
    }

    /** destinationsFor and the filter: None if the provider threw or any destination is invalid, and otherwise the
        places of the entries that subscribe. */
    method DestinationsFor(eventType: string, answer: Option<seq<Destination>>) returns (r: Option<seq<nat>>)
      ensures r.Some? <==> Usable(answer)
      ensures r.Some? ==> r.value == Subscribed(answer.value, eventType)
    {
      if answer.Some? && forall d :: d in answer.value ==> d.valid {
        r := Some(Subscribed(answer.value, eventType));
      } else {
        r := None;
      }
    }

    /** Up to maxAttempts requests, with a wait after each that fails but the last. */
    method DeliverTo(eventId: string, i: nat, accepts: set<(nat, nat)>)
        returns (delivered: bool, lastError: string, ghost n: nat)
      requires ValidConfig(config)
      modifies this`deliveries, this`waits
      ensures delivered <==> Obtains(accepts, i, config.maxAttempts)
      ensures if delivered then 1 <= n <= config.maxAttempts && (i, n) in accepts && !Obtains(accepts, i, n - 1)
              else n == config.maxAttempts
      ensures deliveries == old(deliveries) + Tries(eventId, i, n, delivered)
      ensures waits == old(waits) + Waits(config, n - 1)
    {
      delivered, lastError := false, "";
      var attempt := 1;
      while attempt <= config.maxAttempts && !delivered
        invariant 1 <= attempt <= config.maxAttempts + 1
        invariant delivered ==> attempt <= config.maxAttempts && (i, attempt) in accepts
        invariant !Obtains(accepts, i, attempt - 1)
        invariant deliveries == old(deliveries) + Tries(eventId, i, if delivered then attempt else attempt - 1,
                                                        delivered)
        invariant waits == old(waits) + Waits(config, if delivered || attempt <= config.maxAttempts then attempt - 1
                                                      else attempt - 2)
        decreases config.maxAttempts + 1 - attempt, !delivered
      {
        var accepted := (i, attempt) in accepts;
        deliveries := deliveries + [Delivery(eventId, i, accepted)];
        assert Tries(eventId, i, attempt, accepted) ==
                 Tries(eventId, i, attempt - 1, false) + [Delivery(eventId, i, accepted)];
        if accepted {
          delivered := true;
        } else {
          lastError := *;
          if attempt < config.maxAttempts {
            waits := waits + [Backoff(config, attempt)];
            assert Waits(config, attempt) == Waits(config, attempt - 1) + [Backoff(config, attempt)];
          }
          attempt := attempt + 1;
        }
      }
      n := if delivered then attempt else attempt - 1;
    }

    /** The deliveries of one event, destination after destination, until one refuses for good. */
    method DeliverAll(eventId: string, targets: seq<nat>, accepts: set<(nat, nat)>)
        returns (refused: Option<(nat, string)>, ghost log: seq<Delivery>)
      requires ValidConfig(config)
      modifies this`deliveries, this`waits
      ensures deliveries == old(deliveries) + log
      ensures refused.None? ==> Accepted(log, eventId, targets, config.maxAttempts, accepts)
      ensures refused.Some? ==>
                exists j: nat :: j < |targets| && targets[j] == refused.value.0
                            && GaveUp(log, eventId, targets, j, config.maxAttempts, accepts)
    {
      hide Accepted, GaveUp, Tries, Obtains;
      log, refused := [], None;
      AcceptedNothing(eventId, config.maxAttempts, accepts);
      assert targets[..0] == [];
      for j := 0 to |targets|
        invariant deliveries == old(deliveries) + log
        invariant Accepted(log, eventId, targets[..j], config.maxAttempts, accepts)
      {
        var delivered, lastError, n := DeliverTo(eventId, targets[j], accepts);
        if !delivered {
          GaveUpFrom(log, eventId, targets, j, config.maxAttempts, accepts);
          log := log + Tries(eventId, targets[j], n, false);
          return Some((targets[j], lastError)), log;
        }
        AcceptedOneMore(log, eventId, targets, j, config.maxAttempts, accepts, n);
        log := log + Tries(eventId, targets[j], n, true);
      }
      assert targets[..|targets|] == targets;
    }

    /** The try block for one event and its catch. */
    method PublishEvent(event: Claimed, world: World, ghost g: State)
        returns (sent: bool, ghost r: Record, ghost events: seq<Event>, ghost t: State)
      requires ValidConfig(config) && g.rows == table.rows
      requires (p, event.eventId) in g.flights && g.flights[(p, event.eventId)].attempts == event.row.attemptCount + 1
      modifies this, table
      ensures Reaches(config, g, events, t) && t.rows == table.rows && t.flights == g.flights - {(p, event.eventId)}
      ensures t.requeues == g.requeues
      ensures r.event == event && r.world == world && ValidRecord(r, config.maxAttempts) && sent == r.outcome.Sent?
      ensures deliveries == old(deliveries) + r.log
      ensures deadLetters == if r.local.Some? then old(deadLetters)[event.eventId := r.local.value]
                             else old(deadLetters)
      ensures table.rows == RowsAfter(config, old(table.rows), r)
    {
      hide Accepted, GaveUp, Reaches, Next, Tries, Subscribed, NextAttempt, DeadLetter, Published, FailedTo;
      var id := event.eventId;
      var error: string := *;
      ghost var outcome, log := NoDestinations, [];
      ReachesNothing(config, g);
      events, t := [], g;
      sent := false;
      var found := DestinationsFor(event.row.eventType, world.provided);
      if found.Some? {
        var refused, requests := DeliverAll(id, found.value, world.accepts);
        log := requests;
        if refused.Some? {
          error, outcome := refused.value.1, Refused(refused.value.0);
        } else {
          sent := table.MarkOutboxPublished(id, world.publishedAt, world.published);
          events, t := MarkPublishedStep(config, g, p, id, world.publishedAt, world.published);
          outcome := if sent then Sent(world.publishedAt) else NotMarked;
        }
      }
      ghost var local: Option<Local> := None;
      if !sent {
        var attempts, now := event.row.attemptCount + 1, world.failedAt;
        var stored := table.MarkOutboxFailed(id, error, NextAttempt(config, attempts, now),
                                             DeadLetter(config, attempts, now), world.failed);
        ghost var more, u := MarkFailedStep(config, t, p, id, error, now, world.failed);
        ReachesAppend(config, g, events, t, more, u);
        events, t := events + more, u;
        deadLetters := deadLetters[id := Local(attempts, error, stored)];
        local := Some(Local(attempts, error, stored));
      }
      r := Record(event, world, log, outcome, local);
      assert found.Some? ==> Targets(r) == found.value;
      ghost var last, u := LetGoStep(config, t, p, id);
      ReachesAppend(config, g, events, t, last, u);
      events, t := events + last, u;
    }

    /** publishBatch.  The claim and every mark are steps of the protocol, taken from a state g in which this publisher
        has nothing in hand. */
    method PublishBatch(
        limit: int, now: int, locked: set<string>, reply: Reply, worlds: string -> World, ghost g: State)
        returns (result: Result<(nat, nat), Error>, ghost ids: seq<string>, ghost records: seq<Record>,
                 ghost events: seq<Event>, ghost t: State)
      requires ValidConfig(config) && g.rows == table.rows && Free(g, p)
      modifies this, table
      ensures Reaches(config, g, events, t) && t.rows == table.rows && t.flights == g.flights
      ensures t.requeues == g.requeues
      ensures result.Ok? <==> 1 <= limit <= 1000 && reply.Stored?
      ensures result.Ok? ==> forall k :: 0 <= k < |records| ==> records[k].world == worlds(records[k].event.eventId)
      ensures result.Ok? ==> 1 <= limit <= 1000 && IsClaim(old(table.rows), locked, limit, now, ids)
                             && BatchOf(records, ids, old(table.rows), config.maxAttempts)
      ensures result.Ok? ==> result.value.0 == PublishedCount(records) && result.value.0 + result.value.1 == |ids|
      ensures result.Ok? ==> table.rows == RowsAfterAll(config, Bumped(old(table.rows), ids), records)
      ensures result.Err? ==> records == []
      ensures 1 <= limit <= 1000 && !reply.Stored? ==>
                result == Err(Unavailable) && IsClaim(old(table.rows), locked, limit, now, ids)
                && table.rows == if reply.NotStored? then old(table.rows) else Bumped(old(table.rows), ids)
      ensures !(1 <= limit <= 1000) ==> result == Err(LimitRange) && table.rows == old(table.rows)
      ensures deliveries == old(deliveries) + Logs(records)
      ensures deadLetters == NotesAfter(old(deadLetters), records)
    {
      hide *;
      ghost var rows := table.rows;
      var claimed;
      claimed, ids := table.ClaimOutbox(limit, now, locked, reply);
      if claimed.Err? {
        NoRecords(deadLetters, rows, config.maxAttempts);
        ReachesNothing(config, g);
        records, events, t := [], [], g;
        if 1 <= limit <= 1000 && !reply.NotStored? {
          events, t := LostClaimStep(config, g, p, limit, locked, now, ids);
        }
        return Err(claimed.error), ids, records, events, t;
      }
      ghost var first, h := ClaimStep(config, g, p, limit, locked, now, ids);
      var published, failed;
      published, failed, records, events, t := WorkOff(claimed.value, worlds, rows, ids, g.flights, h);
      ReachesAppend(config, g, first, h, events, t);
      events := first + events;
      result := Ok((published, failed));
    }

    /** The loop over the claimed events. */
    method WorkOff(
        claimed: seq<Claimed>, worlds: string -> World, ghost rows: Rows, ghost ids: seq<string>,
        ghost others: map<(nat, string), Flight>, ghost g: State)
        returns (published: nat, failed: nat, ghost records: seq<Record>, ghost events: seq<Event>, ghost t: State)
      requires ValidConfig(config) && g.rows == table.rows && InHand(g, others, p, ids, rows)
      requires |claimed| == |ids| && forall i :: 0 <= i < |ids| ==>
                 ids[i] in rows && claimed[i] == Claimed(ids[i], rows[ids[i]])
      modifies this, table
      ensures Reaches(config, g, events, t) && t.rows == table.rows && t.flights == others && t.requeues == g.requeues
      ensures BatchOf(records, ids, rows, config.maxAttempts)
      ensures forall k :: 0 <= k < |records| ==> records[k].world == worlds(records[k].event.eventId)
      ensures published == PublishedCount(records) && published + failed == |ids|
      ensures table.rows == RowsAfterAll(config, old(table.rows), records)
      ensures deliveries == old(deliveries) + Logs(records)
      ensures deadLetters == NotesAfter(old(deadLetters), records)
    {
      hide *;
      NoRecords(deadLetters, rows, config.maxAttempts);
      ReachesNothing(config, g);
      records, events, t := [], [], g;
      published, failed := 0, 0;
      assert ids[0..] == ids && ids[..0] == [];
      for i := 0 to |claimed|
        invariant Reaches(config, g, events, t) && t.rows == table.rows && t.requeues == g.requeues
        invariant table.rows == RowsAfterAll(config, old(table.rows), records)
        invariant InHand(t, others, p, ids[i..], rows)
        invariant BatchOf(records, ids[..i], rows, config.maxAttempts)
        invariant forall k :: 0 <= k < |records| ==> records[k].world == worlds(records[k].event.eventId)
        invariant published == PublishedCount(records) && published + failed == i
        invariant deliveries == old(deliveries) + Logs(records)
        invariant deadLetters == NotesAfter(old(deadLetters), records)
      {
        NextInHand(t, others, p, ids[i..], rows);
        var sent, r, more, u := PublishEvent(claimed[i], worlds(claimed[i].eventId), t);
        ReachesAppend(config, g, events, t, more, u);
        WorkedOff(t, u, others, p, ids[i..], rows);
        BatchOneMore(records, r, ids, i, rows, config.maxAttempts);
        LogsOneMore(records, r);
        RowsOneMore(config, old(table.rows), records, r);
        NotesOneMore(old(deadLetters), records, r);
        assert ids[i..][1..] == ids[i + 1..];
        records, events, t := records + [r], events + more, u;
        if sent {
          published := published + 1;
        } else {
          failed := failed + 1;
        }
      }
      assert ids[..|ids|] == ids && ids[|ids|..] == [];
      NothingInHand(t, others, p, rows);
    }

    /** A dead letter goes back into the queue, and the note about it is dropped. */
    method RequeueDeadLetter(eventId: string, now: int) returns (r: Result<(), Error>)
      modifies this, table
      ensures var valid := 0 < |eventId| <= 256 && ControlFree(eventId);
              && (r.Ok? <==> valid && IsDeadLetter(old(table.rows), eventId))
              && table.rows == (if valid then Requeued(old(table.rows), eventId, now) else old(table.rows))
      ensures deadLetters == if r.Ok? then old(deadLetters) - {eventId} else old(deadLetters)
      ensures deliveries == old(deliveries)
    {
      if eventId == "" || |eventId| > 256 || !ControlFree(eventId) {
        return Err(BadEventId);
      }
      r := table.RequeueOutbox(eventId, now);
      if r.Ok? {
        deadLetters := deadLetters - {eventId};
      }
    }
  }
}
