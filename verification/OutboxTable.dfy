/**
 The outbox_events table as the SQL adapter changes it (postgres-persistence.ts): claiming, marking and requeueing, each
 one transaction.  Locked rows are those another transaction holds while this one runs.
 */
module OutboxTable {
  import opened Common
  import JsMap

  datatype Row = Row(
    eventType: string, occurredAt: int, attemptCount: nat,
    publishedAt: Option<int>, nextAttemptAt: Option<int>, deadLetteredAt: Option<int>, lastError: Option<string>)

  type Rows = map<string, Row>

  predicate Live(r: Row) {
    r.publishedAt.None? && r.deadLetteredAt.None?
  }

  predicate Due(r: Row, now: int) {
    Live(r) && (r.nextAttemptAt.None? || r.nextAttemptAt.value <= now)
  }

  predicate Candidate(rows: Rows, locked: set<string>, now: int, id: string) {
    id in rows && Due(rows[id], now) && id !in locked
  }

  /** What the claiming query may answer: the oldest due rows nobody has locked, oldest first, and as many as the limit
      allows.  Rows of the same age may come in any order. */
  ghost predicate IsClaim(rows: Rows, locked: set<string>, limit: nat, now: int, ids: seq<string>) {
    && JsMap.Distinct(ids) && |ids| <= limit
    && (forall i :: 0 <= i < |ids| ==> Candidate(rows, locked, now, ids[i]))
    && (forall i, j :: 0 <= i < j < |ids| ==> rows[ids[i]].occurredAt <= rows[ids[j]].occurredAt)
    && (forall k :: Candidate(rows, locked, now, k) && k !in ids ==>
          |ids| == limit && forall i :: 0 <= i < |ids| ==> rows[ids[i]].occurredAt <= rows[k].occurredAt)
  }

  function Bumped(rows: Rows, ids: seq<string>): (r: Rows)
    ensures r.Keys == rows.Keys
  {
    map k | k in rows :: if k in ids then rows[k].(attemptCount := rows[k].attemptCount + 1) else rows[k]
  }

  function Published(rows: Rows, id: string, at: int): Rows {
    if id in rows && rows[id].publishedAt.None? then rows[id := rows[id].(publishedAt := Some(at))] else rows
  }

  function Sliced(s: string): string {
    if |s| <= 2048 then s else s[..2048]
  }

  function FailedTo(rows: Rows, id: string, error: string, next: Option<int>, dead: Option<int>): Rows {
    if id in rows && rows[id].publishedAt.None?
    then rows[id := rows[id].(lastError := Some(Sliced(error)), nextAttemptAt := next, deadLetteredAt := dead)]
    else rows
  }

  predicate IsDeadLetter(rows: Rows, id: string) {
    id in rows && rows[id].publishedAt.None? && rows[id].deadLetteredAt.Some?
  }

  function Requeued(rows: Rows, id: string, now: int): Rows {
    if IsDeadLetter(rows, id) then rows[id := rows[id].(nextAttemptAt := Some(now), lastError := None,
                                                        deadLetteredAt := None)] else rows
  }

  datatype Claimed = Claimed(eventId: string, row: Row)

  datatype Error = LimitRange | Unavailable | NotADeadLetter | BadEventId

  /** What became of a write: stored and answered, not stored, or stored with the answer lost. */
  datatype Reply = Stored | NotStored | ReplyLost

  lemma {:induction false} OldestExists(rows: Rows, ids: set<string>)
    requires ids != {} && ids <= rows.Keys
    ensures exists id :: id in ids && forall k :: k in ids ==> rows[id].occurredAt <= rows[k].occurredAt
  {
    var one :| one in ids;
    var rest := ids - {one};
    if rest != {} {
      OldestExists(rows, rest);
      var least :| least in rest && forall k :: k in rest ==> rows[least].occurredAt <= rows[k].occurredAt;
      var best := if rows[one].occurredAt <= rows[least].occurredAt then one else least;
      assert forall k :: k in ids ==> k == one || k in rest;
      assert best in ids && forall k :: k in ids ==> rows[best].occurredAt <= rows[k].occurredAt;
    } else {
      assert ids == {one};
    }
  }

  class OutboxEvents {
    var rows: Rows

    constructor ()
      ensures rows == map[]
    {
      rows := map[];
    }

    /** The SELECT: ORDER BY occurred_at LIMIT, taking one row after another. */
    method SelectDue(limit: nat, now: int, locked: set<string>) returns (ids: seq<string>)
      ensures IsClaim(rows, locked, limit, now, ids)
    {
      hide Due;
      ids := [];
      var left := set k | k in rows && Candidate(rows, locked, now, k);
      while |ids| < limit && left != {}
        invariant JsMap.Distinct(ids) && |ids| <= limit
        invariant forall k :: Candidate(rows, locked, now, k) <==> k in left || k in ids
        invariant forall i :: 0 <= i < |ids| ==> Candidate(rows, locked, now, ids[i])
        invariant forall k :: k in left ==> k !in ids
        invariant forall i, k :: 0 <= i < |ids| && k in left ==> rows[ids[i]].occurredAt <= rows[k].occurredAt
        invariant forall i, j :: 0 <= i < j < |ids| ==> rows[ids[i]].occurredAt <= rows[ids[j]].occurredAt
        decreases |left|
      {
        OldestExists(rows, left);
        var id :| id in left && forall k :: k in left ==> rows[id].occurredAt <= rows[k].occurredAt;
        assert (ids + [id])[..|ids|] == ids;
        ids, left := ids + [id], left - {id};
      }
    }

    /** claimOutbox: the rows are handed out as they were before their attempt count went up. */
    method ClaimOutbox(limit: int, now: int, locked: set<string>, reply: Reply)
        returns (r: Result<seq<Claimed>, Error>, ghost ids: seq<string>)
      modifies this
      ensures !(1 <= limit <= 1000) ==> r == Err(LimitRange) && rows == old(rows)
      ensures 1 <= limit <= 1000 ==>
                && IsClaim(old(rows), locked, limit, now, ids)
                && rows == (if reply.NotStored? then old(rows) else Bumped(old(rows), ids))
                && (reply.Stored? ==> r.Ok? && |r.value| == |ids|
                                      && forall i :: 0 <= i < |ids| ==>
                                        r.value[i] == Claimed(ids[i], old(rows)[ids[i]]))
                && (!reply.Stored? ==> r == Err(Unavailable))
    {
      ids := [];
      if limit < 1 || limit > 1000 {
        return Err(LimitRange), ids;
      }
      var due := SelectDue(limit, now, locked);
      ids := due;
      var before := rows;
      if reply != NotStored && |due| > 0 {
        rows := Bumped(rows, due);
      }
      assert due == [] ==> Bumped(before, due) == before;
      if reply == Stored {
        r := Ok(seq(|due|, i requires 0 <= i < |due| =>
          assert Candidate(before, locked, now, due[i]); Claimed(due[i], before[due[i]])));
      } else {
        r := Err(Unavailable);
      }
    }

    method MarkOutboxPublished(eventId: string, publishedAt: int, reply: Reply) returns (ok: bool)
      modifies this
      ensures ok == reply.Stored?
      ensures rows == if reply.NotStored? then old(rows) else Published(old(rows), eventId, publishedAt)
    {
      if reply != NotStored && eventId in rows && rows[eventId].publishedAt == None {
        rows := rows[eventId := rows[eventId].(publishedAt := Some(publishedAt))];
      }
      ok := reply == Stored;
    }

    method MarkOutboxFailed(
        eventId: string, error: string, nextAttemptAt: Option<int>, deadLetteredAt: Option<int>,
        reply: Reply) returns (ok: bool)
      modifies this
      ensures ok == reply.Stored?
      ensures rows == if reply.NotStored? then old(rows)
                      else FailedTo(old(rows), eventId, error, nextAttemptAt, deadLetteredAt)
    {
      if reply != NotStored && eventId in rows && rows[eventId].publishedAt == None {
        rows := rows[eventId := rows[eventId].(lastError := Some(Sliced(error)), nextAttemptAt := nextAttemptAt,
                                               deadLetteredAt := deadLetteredAt)];
      }
      ok := reply == Stored;
    }

    method RequeueOutbox(eventId: string, now: int) returns (r: Result<(), Error>)
      modifies this
      ensures r == if IsDeadLetter(old(rows), eventId) then Ok(()) else Err(NotADeadLetter)
      ensures rows == Requeued(old(rows), eventId, now)
    {
      if eventId !in rows || rows[eventId].publishedAt != None || rows[eventId].deadLetteredAt == None {
        return Err(NotADeadLetter);
      }
      rows := rows[eventId := rows[eventId].(nextAttemptAt := Some(now), lastError := None, deadLetteredAt := None)];
      r := Ok(());
    }
  }
}
