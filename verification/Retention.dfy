/**
 The retention worker (retention.ts): each batch takes the first expired egress jobs, deletes their objects one by one
 and marks every job whose deletion yields usable evidence.  Deletion and persisting are outside calls, so what they
 did is an argument; `running` is what the worker's flag was when the loop looked at it.
 */
module Retention {
  import opened Common
  import opened Text
  import opened MediaOps
  import opened MediaControl
  import JsMap

  /** One turn of the loop: the flag, the evidence address the storage returned (None if it threw), and whether
      persisting succeeded. */
  datatype Attempt = Attempt(running: bool, evidence: Option<string>, persisted: bool)

  predicate Works(a: Attempt) {
    a.evidence.Some? && Checked(a.evidence.value, 128)
  }

  function ExpiredNow(s: State, now: int): seq<string> {
    ExpiredIds(s.egress.keys, s.egress.vals, now)
  }

  /** The mark goes through: usable evidence for a job that may be marked. */
  predicate MarkOk(s: State, id: string, a: Attempt, now: int) {
    Works(a) && id in s.egress.vals && MarkedDeleted(s.egress.vals[id], a.evidence.value, now).Ok?
  }

  function Marked(s: State, id: string, a: Attempt, now: int): State {
    if MarkOk(s, id, a, now) then Put(s, EgressKind, id, MarkedDeleted(s.egress.vals[id], a.evidence.value, now).value)
    else s
  }

  /** The loop over a batch: the state it leaves and the number it returns, which counts marks that were also
      persisted. */
  function Batch(s: State, ids: seq<string>, attempts: seq<Attempt>, now: int): (State, nat)
    decreases |ids|
  {
    if ids == [] || attempts == [] || !attempts[0].running then (s, 0)
    else
      var (t, n) := Batch(Marked(s, ids[0], attempts[0], now), ids[1..], attempts[1..], now);
      (t, n + if MarkOk(s, ids[0], attempts[0], now) && attempts[0].persisted then 1 else 0)
  }

  function FirstOf(ids: seq<string>, batchSize: nat): seq<string> {
    if |ids| <= batchSize then ids else ids[..batchSize]
  }

  class MediaRetentionWorker {
    const control: MediaOpsControl
    const batchSize: nat

    constructor (control: MediaOpsControl, batchSize: nat)
      requires 1 <= batchSize <= 100
      ensures this.control == control && this.batchSize == batchSize
    {
      this.control, this.batchSize := control, batchSize;
    }

    /** The body of the loop's try block. */
    method DeleteOne(id: string, attempt: Attempt, now: int) returns (counted: bool)
      modifies control
      ensures control.View() == Marked(old(control.View()), id, attempt, now)
      ensures counted == (MarkOk(old(control.View()), id, attempt, now) && attempt.persisted)
    {
      if attempt.evidence.None? || attempt.evidence.value == "" {
        return false;
      }
      var marked := control.MarkEgressDeleted(id, attempt.evidence.value, now);
      counted := marked.Ok? && attempt.persisted;
    }

    method ProcessBatch(attempts: seq<Attempt>, now: int) returns (deleted: nat)
      modifies control
      ensures var batch := FirstOf(ExpiredNow(old(control.View()), now), batchSize);
              (control.View(), deleted) == Batch(old(control.View()), batch, attempts, now)
    {
      hide Marked, MarkOk, ExpiredIds;
      var expired := control.ListExpiredEgress(now);
      var batch := FirstOf(expired, batchSize);
      deleted := 0;
      var i := 0;
      while i < |batch| && i < |attempts| && attempts[i].running
        invariant i <= |batch| && i <= |attempts|
        invariant var (t, n) := Batch(control.View(), batch[i..], attempts[i..], now);
                  Batch(old(control.View()), batch, attempts, now) == (t, n + deleted)
        decreases |batch| - i
      {
        assert batch[i..][1..] == batch[i + 1..] && attempts[i..][1..] == attempts[i + 1..];
        var counted := DeleteOne(batch[i], attempts[i], now);
        deleted := deleted + if counted then 1 else 0;
        i := i + 1;
      }
    }
  }

  /* ----- what a batch does to the expired list ----- */

  /** The ids whose mark the loop makes, when every id of the batch may be marked. */
  function Successes(ids: seq<string>, attempts: seq<Attempt>): set<string> {
    if ids == [] || attempts == [] || !attempts[0].running then {}
    else (if Works(attempts[0]) then {ids[0]} else {}) + Successes(ids[1..], attempts[1..])
  }

  function Without(ids: seq<string>, gone: set<string>): seq<string> {
    if ids == [] then []
    else
      var last := |ids| - 1;
      Without(ids[..last], gone) + if ids[last] in gone then [] else [ids[last]]
  }

  lemma {:induction false} ExpiredIdsAreExpired(keys: seq<string>, vals: map<string, Resource>, now: int, id: string)
    ensures id in ExpiredIds(keys, vals, now) <==> id in keys && id in vals && Expired(vals[id], now)
  {
    if keys != [] {
      ExpiredIdsAreExpired(keys[..|keys| - 1], vals, now, id);
    }
  }

  lemma {:induction false} ExpiredIdsDistinct(keys: seq<string>, vals: map<string, Resource>, now: int)
    requires JsMap.Distinct(keys)
    ensures JsMap.Distinct(ExpiredIds(keys, vals, now))
  {
    if keys != [] {
      var last := |keys| - 1;
      ExpiredIdsDistinct(keys[..last], vals, now);
      ExpiredIdsAreExpired(keys[..last], vals, now, keys[last]);
      var rest := ExpiredIds(keys[..last], vals, now);
      assert (rest + [keys[last]])[..|rest|] == rest && rest + [] == rest;
    }
  }

  /** A job that stops being expired leaves the list, and nothing else moves. */
  lemma {:induction false} OneLeaves(keys: seq<string>, vals: map<string, Resource>, id: string, r: Resource, now: int)
    requires !Expired(r, now)
    ensures ExpiredIds(keys, vals[id := r], now) == Without(ExpiredIds(keys, vals, now), {id})
  {
    if keys != [] {
      var last := |keys| - 1;
      OneLeaves(keys[..last], vals, id, r, now);
      var rest := ExpiredIds(keys[..last], vals, now);
      assert (rest + [keys[last]])[..|rest|] == rest && rest + [] == rest;
    }
  }

  lemma {:induction false} WithoutTwice(ids: seq<string>, a: set<string>, b: set<string>)
    ensures Without(Without(ids, a), b) == Without(ids, a + b)
  {
    if ids != [] {
      var last := |ids| - 1;
      WithoutTwice(ids[..last], a, b);
      var rest := Without(ids[..last], a);
      assert (rest + [ids[last]])[..|rest|] == rest && rest + [] == rest;
    }
  }

  lemma {:induction false} WithoutNothing(ids: seq<string>)
    ensures Without(ids, {}) == ids
  {
    if ids != [] {
      WithoutNothing(ids[..|ids| - 1]);
    }
  }

  lemma {:induction false} InWithout(ids: seq<string>, gone: set<string>, id: string)
    ensures id in Without(ids, gone) <==> id in ids && id !in gone
  {
    if ids != [] {
      InWithout(ids[..|ids| - 1], gone, id);
    }
  }

  lemma MarkLeaves(s: State, id: string, a: Attempt, now: int)
    requires id in ExpiredNow(s, now)
    ensures MarkOk(s, id, a, now) <==> Works(a)
    ensures ExpiredNow(Marked(s, id, a, now), now) == Without(ExpiredNow(s, now), if Works(a) then {id} else {})
  {
    hide Checked, ExpiredIds, Without, JsMap.OrderedMap.Valid, JsMap.Distinct;
    ExpiredIdsAreExpired(s.egress.keys, s.egress.vals, now, id);
    if Works(a) {
      OneLeaves(s.egress.keys, s.egress.vals, id, MarkedDeleted(s.egress.vals[id], a.evidence.value, now).value, now);
    } else {
      WithoutNothing(ExpiredNow(s, now));
    }
  }

  /** Main result: a batch with nothing interleaved removes from the expired list exactly the jobs it attempted whose
      deletion gave usable evidence, and leaves the rest in order. */
  lemma {:induction false} BatchRemovesSuccesses(s: State, ids: seq<string>, attempts: seq<Attempt>, now: int)
    requires JsMap.Distinct(ids) && forall id :: id in ids ==> id in ExpiredNow(s, now)
    ensures ExpiredNow(Batch(s, ids, attempts, now).0, now) == Without(ExpiredNow(s, now), Successes(ids, attempts))
    decreases |ids|
  {
    if ids == [] || attempts == [] || !attempts[0].running {
      WithoutNothing(ExpiredNow(s, now));
    } else {
      var t := Marked(s, ids[0], attempts[0], now);
      var gone := if Works(attempts[0]) then {ids[0]} else {};
      MarkLeaves(s, ids[0], attempts[0], now);
      JsMap.TailDistinct(ids);
      forall id | id in ids[1..]
        ensures id in ExpiredNow(t, now)
      {
        InWithout(ExpiredNow(s, now), gone, id);
      }
      BatchRemovesSuccesses(t, ids[1..], attempts[1..], now);
      WithoutTwice(ExpiredNow(s, now), gone, Successes(ids[1..], attempts[1..]));
    }
  }

  lemma PrefixDistinct(ids: seq<string>, n: nat)
    requires JsMap.Distinct(ids) && n <= |ids|
    ensures JsMap.Distinct(ids[..n])
  {
  }

  /** The batch the worker takes meets what BatchRemovesSuccesses asks for. */
  lemma WorkerBatch(s: State, batchSize: nat, now: int)
    ensures var batch := FirstOf(ExpiredNow(s, now), batchSize);
            JsMap.Distinct(batch) && forall id :: id in batch ==> id in ExpiredNow(s, now)
  {
    ExpiredIdsDistinct(s.egress.keys, s.egress.vals, now);
    if |ExpiredNow(s, now)| > batchSize {
      PrefixDistinct(ExpiredNow(s, now), batchSize);
    }
  }

  /** Main result: the list shrinks exactly when some deletion among the first batchSize jobs gives usable evidence;
      while none does, the worker keeps retrying those jobs and never reaches the ones behind them. */
  lemma ProgressIff(s: State, batchSize: nat, attempts: seq<Attempt>, now: int)
    ensures var batch := FirstOf(ExpiredNow(s, now), batchSize);
            var t := Batch(s, batch, attempts, now).0;
            && (|ExpiredNow(t, now)| < |ExpiredNow(s, now)| <==> Successes(batch, attempts) != {})
            && (Successes(batch, attempts) == {} ==> ExpiredNow(t, now) == ExpiredNow(s, now))
  {
    var batch := FirstOf(ExpiredNow(s, now), batchSize);
    WorkerBatch(s, batchSize, now);
    BatchRemovesSuccesses(s, batch, attempts, now);
    if gone :| gone in Successes(batch, attempts) {
      SuccessesInBatch(batch, attempts, gone);
      WithoutShrinks(ExpiredNow(s, now), Successes(batch, attempts), gone);
    } else {
      WithoutNothing(ExpiredNow(s, now));
    }
  }

  lemma {:induction false} SuccessesInBatch(ids: seq<string>, attempts: seq<Attempt>, id: string)
    requires id in Successes(ids, attempts)
    ensures id in ids
  {
    if id in Successes(ids[1..], attempts[1..]) {
      SuccessesInBatch(ids[1..], attempts[1..], id);
    }
  }

  lemma {:induction false} WithoutShrinks(ids: seq<string>, gone: set<string>, id: string)
    ensures |Without(ids, gone)| <= |ids|
    ensures id in ids && id in gone ==> |Without(ids, gone)| < |ids|
  {
    if ids != [] {
      WithoutShrinks(ids[..|ids| - 1], gone, id);
    }
  }

  /** The loop gets to its i-th job and the storage gives usable evidence for it. */
  predicate Deleted(attempts: seq<Attempt>, i: nat) {
    && i < |attempts| && (forall j :: 0 <= j <= i ==> attempts[j].running)
    && attempts[i].evidence.Some? && Checked(attempts[i].evidence.value, 128)
  }

  lemma DeletedNext(attempts: seq<Attempt>, i: nat)
    requires attempts != [] && attempts[0].running
    ensures Deleted(attempts, i + 1) <==> Deleted(attempts[1..], i)
  {
    hide Checked;
    if Deleted(attempts[1..], i) {
      assert forall j :: 1 <= j <= i + 1 ==> attempts[j] == attempts[1..][j - 1];
    }
    if Deleted(attempts, i + 1) {
      assert forall j :: 0 <= j <= i ==> attempts[1..][j] == attempts[j + 1];
    }
  }

  /** The successes of a batch are the jobs the loop got to, in a row from the first, with usable evidence. */
  lemma {:induction false} SuccessesIff(ids: seq<string>, attempts: seq<Attempt>, id: string)
    ensures id in Successes(ids, attempts) <==>
              exists i: nat :: i < |ids| && ids[i] == id && Deleted(attempts, i)
    decreases |ids|
  {
    hide Checked;
    if ids != [] && attempts != [] && attempts[0].running {
      SuccessesIff(ids[1..], attempts[1..], id);
      if i: nat :| i < |ids[1..]| && ids[1..][i] == id && Deleted(attempts[1..], i) {
        DeletedNext(attempts, i);
        assert ids[i + 1] == id;
      }
      if i: nat :| 0 < i < |ids| && ids[i] == id && Deleted(attempts, i) {
        DeletedNext(attempts, i - 1);
        assert ids[1..][i - 1] == id;
      }
      assert Works(attempts[0]) <==> Deleted(attempts, 0);
    }
  }

  /** The places of the batch whose deletion is counted: the mark was made and then persisted. */
  ghost function Counted(n: nat, attempts: seq<Attempt>): set<nat> {
    set i | 0 <= i < n && Deleted(attempts, i) && attempts[i].persisted
  }

  lemma CountedNext(n: nat, attempts: seq<Attempt>)
    requires n >= 1 && attempts != [] && attempts[0].running
    ensures |Counted(n, attempts)| ==
            |Counted(n - 1, attempts[1..])| + if Works(attempts[0]) && attempts[0].persisted then 1 else 0
  {
    var rest, first := Counted(n - 1, attempts[1..]), if Works(attempts[0]) && attempts[0].persisted then {0} else {};
    forall i: nat
      ensures i in Counted(n, attempts) <==> i in Shifted(rest) + first
    {
      CountedAt(n, attempts, i);
      InShifted(rest, i);
    }
    assert Counted(n, attempts) == Shifted(rest) + first;
    InShifted(rest, 0);
    ShiftedSize(rest);
  }

  lemma CountedAt(n: nat, attempts: seq<Attempt>, i: nat)
    requires n >= 1 && attempts != [] && attempts[0].running
    ensures i in Counted(n, attempts) <==>
              if i == 0 then Works(attempts[0]) && attempts[0].persisted else i - 1 in Counted(n - 1, attempts[1..])
  {
    hide Checked;
    if i > 0 {
      DeletedNext(attempts, i - 1);
    }
  }

  ghost function Shifted(s: set<nat>): set<nat> {
    set i | i in s :: i + 1
  }

  lemma InShifted(s: set<nat>, i: nat)
    ensures i in Shifted(s) <==> i > 0 && i - 1 in s
  {
    if i > 0 && i - 1 in s {
      assert (i - 1) + 1 in Shifted(s);
    }
  }

  lemma {:induction false} ShiftedSize(s: set<nat>)
    ensures |Shifted(s)| == |s|
  {
    if x :| x in s {
      ShiftedSize(s - {x});
      forall i: nat
        ensures i in Shifted(s) <==> i in Shifted(s - {x}) + {x + 1}
      {
        InShifted(s, i);
        InShifted(s - {x}, i);
      }
      assert Shifted(s) == Shifted(s - {x}) + {x + 1};
      InShifted(s - {x}, x + 1);
    } else {
      assert s == {} && Shifted(s) == {};
    }
  }

  /** Main result: the number returned is that of the deletions that were marked and persisted. */
  lemma {:induction false} BatchCounts(s: State, ids: seq<string>, attempts: seq<Attempt>, now: int)
    requires JsMap.Distinct(ids) && forall id :: id in ids ==> id in ExpiredNow(s, now)
    ensures Batch(s, ids, attempts, now).1 == |Counted(|ids|, attempts)|
    decreases |ids|
  {
    hide Marked, MarkOk, ExpiredNow, Counted;
    if ids == [] || attempts == [] || !attempts[0].running {
      NoneCounted(|ids|, attempts);
    } else {
      var t := Marked(s, ids[0], attempts[0], now);
      MarkLeaves(s, ids[0], attempts[0], now);
      JsMap.TailDistinct(ids);
      forall id | id in ids[1..]
        ensures id in ExpiredNow(t, now)
      {
        InWithout(ExpiredNow(s, now), if Works(attempts[0]) then {ids[0]} else {}, id);
      }
      BatchCounts(t, ids[1..], attempts[1..], now);
      CountedNext(|ids|, attempts);
    }
  }

  lemma NoneCounted(n: nat, attempts: seq<Attempt>)
    requires n == 0 || attempts == [] || !attempts[0].running
    ensures Counted(n, attempts) == {}
  {
    assert forall i :: i in Counted(n, attempts) ==> n > 0 && attempts != [] && attempts[0].running;
  }

  /** Every turn goes through. */
  predicate AllSucceed(attempts: seq<Attempt>) {
    forall i :: 0 <= i < |attempts| ==> attempts[i].running && Works(attempts[i]) && attempts[i].persisted
  }

  lemma {:induction false} AllMarked(s: State, ids: seq<string>, attempts: seq<Attempt>, now: int)
    requires |ids| <= |attempts| && AllSucceed(attempts)
    requires JsMap.Distinct(ids) && forall id :: id in ids ==> id in ExpiredNow(s, now)
    ensures Successes(ids, attempts) == (set id | id in ids) && Batch(s, ids, attempts, now).1 == |ids|
    decreases |ids|
  {
    hide Marked, MarkOk, ExpiredNow, Works;
    if ids != [] {
      assert attempts[0].running && Works(attempts[0]);
      var t := Marked(s, ids[0], attempts[0], now);
      MarkLeaves(s, ids[0], attempts[0], now);
      JsMap.TailDistinct(ids);
      forall id | id in ids[1..]
        ensures id in ExpiredNow(t, now)
      {
        InWithout(ExpiredNow(s, now), {ids[0]}, id);
      }
      AllMarked(t, ids[1..], attempts[1..], now);
    }
  }

  lemma {:induction false} WithoutPrefix(ids: seq<string>, n: nat, gone: set<string>)
    requires JsMap.Distinct(ids) && n <= |ids| && gone == set id | id in ids[..n]
    ensures Without(ids, gone) == ids[n..]
  {
    if n < |ids| {
      var last := |ids| - 1;
      assert ids[..last][..n] == ids[..n];
      WithoutPrefix(ids[..last], n, gone);
      assert ids[last] !in gone by {
        assert forall id :: id in ids[..n] ==> id in ids[..last];
      }
      assert ids[n..] == ids[..last][n..] + [ids[last]];
    } else {
      assert ids[..n] == ids;
      WithoutAll(ids, gone);
    }
  }

  lemma {:induction false} WithoutAll(ids: seq<string>, gone: set<string>)
    requires forall id :: id in ids ==> id in gone
    ensures Without(ids, gone) == []
  {
    if ids != [] {
      WithoutAll(ids[..|ids| - 1], gone);
    }
  }

  /** When everything succeeds a batch takes the first min(batchSize, expired) jobs off the list and returns their
      number. */
  lemma PerfectBatch(s: State, batchSize: nat, attempts: seq<Attempt>, now: int)
    requires batchSize <= |attempts| && AllSucceed(attempts)
    ensures var expired := ExpiredNow(s, now);
            var batch := FirstOf(expired, batchSize);
            Batch(s, batch, attempts, now).1 == |batch|
            && ExpiredNow(Batch(s, batch, attempts, now).0, now) == expired[|batch|..]
  {
    var expired := ExpiredNow(s, now);
    var batch := FirstOf(expired, batchSize);
    WorkerBatch(s, batchSize, now);
    BatchRemovesSuccesses(s, batch, attempts, now);
    AllMarked(s, batch, attempts, now);
    assert batch == expired[..|batch|];
    ExpiredIdsDistinct(s.egress.keys, s.egress.vals, now);
    WithoutPrefix(expired, |batch|, Successes(batch, attempts));
  }

  lemma OneMoreRound(k: nat, batchSize: nat)
    ensures (k + 1) * batchSize == k * batchSize + batchSize && k * batchSize >= 0
  {
  }

  /** The state after a number of batches, each given its own attempts. */
  function AfterBatches(s: State, batchSize: nat, rounds: seq<seq<Attempt>>, now: int): State
    decreases |rounds|
  {
    if rounds == [] then s
    else AfterBatches(Batch(s, FirstOf(ExpiredNow(s, now), batchSize), rounds[0], now).0, batchSize, rounds[1..], now)
  }

  /** Main result: with everything succeeding, n expired jobs are gone after k batches exactly when k * batchSize >= n,
      that is after ceil(n / batchSize) batches and not before. */
  lemma {:induction false} ClearedAfter(s: State, batchSize: nat, rounds: seq<seq<Attempt>>, now: int)
    requires forall i :: 0 <= i < |rounds| ==> batchSize <= |rounds[i]| && AllSucceed(rounds[i])
    ensures ExpiredNow(AfterBatches(s, batchSize, rounds, now), now) == [] <==>
              |rounds| * batchSize >= |ExpiredNow(s, now)|
    decreases |rounds|
  {
    hide Batch, ExpiredNow, AllSucceed;
    if rounds != [] {
      PerfectBatch(s, batchSize, rounds[0], now);
      var t := Batch(s, FirstOf(ExpiredNow(s, now), batchSize), rounds[0], now).0;
      ClearedAfter(t, batchSize, rounds[1..], now);
      OneMoreRound(|rounds[1..]|, batchSize);
    }
  }
}
