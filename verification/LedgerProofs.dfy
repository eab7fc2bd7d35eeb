/** What every run of the ledger keeps. */
module LedgerProofs {
  import opened Common
  import opened Ledger
  import JsMap

  datatype Event =
    | PlanAdded(plan: Plan)
    | UsageRecorded(usage: Usage)
    | InvoiceIssued(tenantId: string, period: string, planId: string, invoiceId: string, now: int)
    | DraftIssued(invoiceId: string)
    | InvoicePaid(invoiceId: string)
    | InvoiceVoided(invoiceId: string)

  function StateOf<T>(s: State, r: Result<(State, T), Error>): State {
    match r
    case Ok(pair) => pair.0
    case Err(_) => s
  }

  function Next(s: State, e: Event): State {
    match e
    case PlanAdded(plan) => (match WithPlan(s, plan) case Ok(t) => t case Err(_) => s)
    case UsageRecorded(usage) => StateOf(s, Record(s, usage))
    case InvoiceIssued(tenantId, period, planId, invoiceId, now) =>
      StateOf(s, Issue(s, tenantId, period, planId, invoiceId, now))
    case DraftIssued(id) => StateOf(s, Transition(s, id, Issued, {Draft}))
    case InvoicePaid(id) => StateOf(s, Transition(s, id, Paid, {Issued}))
    case InvoiceVoided(id) => StateOf(s, Transition(s, id, Void, {Draft, Issued}))
  }

  /** Invoice ids come from randomUUID. */
  predicate Enabled(s: State, e: Event) {
    e.InvoiceIssued? ==> e.invoiceId !in s.invoices.vals
  }

  ghost predicate Reaches(s: State, events: seq<Event>, t: State)
    decreases |events|
  {
    if events == [] then t == s else Enabled(s, events[0]) && Reaches(Next(s, events[0]), events[1..], t)
  }

  /* ----- invoices and their lines ----- */

  ghost predicate AllDifferent(us: seq<Usage>) {
    forall i, j :: 0 <= i < j < |us| ==> us[i].dedupeKey != us[j].dedupeKey
  }

  /** The lines are those of the sources at some non-negative prices, and the total is their sum. */
  ghost predicate BilledFrom(i: Invoice, us: seq<Usage>) {
    && |i.lines| == |us| && i.totalFen == Total(i.lines)
    && (forall k :: 0 <= k < |us| ==> i.lines[k] == LineOf(us[k], i.lines[k].unitPriceFen)
                                      && i.lines[k].unitPriceFen >= 0)
    && (forall k :: 0 <= k < |us| ==> Billable(us[k], i.tenantId, i.billingPeriod))
  }

  ghost predicate InvoiceOk(s: State, id: string) {
    id in s.invoices.vals ==>
      && s.invoices.vals[id].invoiceId == id && IsPeriod(s.invoices.vals[id].billingPeriod)
      && id in s.sources && BilledFrom(s.invoices.vals[id], s.sources[id]) && AllDifferent(s.sources[id])
      && forall k :: 0 <= k < |s.sources[id]| ==> Known(s, s.sources[id][k])
  }

  /** The dedupe table has this usage under its key. */
  predicate Known(s: State, u: Usage) {
    u.dedupeKey in s.dedupe && s.dedupe[u.dedupeKey] == u
  }

  predicate SamePeriod(i: Invoice, j: Invoice) {
    InvoiceFor(i, j.tenantId, j.billingPeriod)
  }

  ghost predicate OnePerPeriod(s: State) {
    forall a, b ::
      a in s.invoices.vals && b in s.invoices.vals && SamePeriod(s.invoices.vals[a], s.invoices.vals[b]) ==> a == b
  }

  ghost predicate RecordsOk(s: State) {
    && (forall id :: id in s.records.vals ==> s.records.vals[id].usageRecordId == id && Known(s, s.records.vals[id]))
    && (forall p, m :: p in s.plans && m in s.plans[p].overageUnitPrices ==> s.plans[p].overageUnitPrices[m] >= 0)
  }

  ghost predicate Inv(s: State) {
    RecordsOk(s) && OnePerPeriod(s) && forall id :: InvoiceOk(s, id)
  }

  lemma {:induction false} MatchingFrom(us: seq<Usage>, tenantId: string, period: string, k: nat)
    requires k < |Matching(us, tenantId, period)|
    ensures Matching(us, tenantId, period)[k] in us && Billable(Matching(us, tenantId, period)[k], tenantId, period)
  {
    var last := |us| - 1;
    if k < |Matching(us[..last], tenantId, period)| {
      MatchingFrom(us[..last], tenantId, period, k);
    }
  }

  lemma {:induction false} MatchingComplete(us: seq<Usage>, tenantId: string, period: string, u: Usage)
    requires u in us && Billable(u, tenantId, period)
    ensures u in Matching(us, tenantId, period)
  {
    var last := |us| - 1;
    if u in us[..last] {
      MatchingComplete(us[..last], tenantId, period, u);
    }
  }

  lemma {:induction false} MatchingDifferent(us: seq<Usage>, tenantId: string, period: string)
    requires AllDifferent(us)
    ensures AllDifferent(Matching(us, tenantId, period))
  {
    if us != [] {
      var last := |us| - 1;
      var rest := Matching(us[..last], tenantId, period);
      MatchingDifferent(us[..last], tenantId, period);
      forall k | 0 <= k < |rest|
        ensures rest[k].dedupeKey != us[last].dedupeKey
      {
        MatchingFrom(us[..last], tenantId, period, k);
      }
    }
  }

  lemma RecordsDifferent(s: State)
    requires RecordsOk(s)
    ensures AllDifferent(JsMap.Values(s.records))
    ensures forall k :: 0 <= k < |s.records.keys| ==> Known(s, JsMap.Values(s.records)[k])
  {
    var us, keys := JsMap.Values(s.records), s.records.keys;
    forall i, j | 0 <= i < j < |us|
      ensures us[i].dedupeKey != us[j].dedupeKey
    {
      JsMap.DistinctAt(keys, j);
      assert keys[i] in keys[..j] && keys[i] in keys && keys[j] in keys;
      assert Known(s, us[i]) && Known(s, us[j]);
    }
    forall k | 0 <= k < |keys|
      ensures Known(s, us[k])
    {
      assert keys[k] in keys;
    }
  }

  lemma NewInvoiceOk(s: State, tenantId: string, period: string, planId: string, invoiceId: string, now: int)
    requires RecordsOk(s) && planId in s.plans
    ensures var us := Matching(JsMap.Values(s.records), tenantId, period);
            BilledFrom(NewInvoice(s, tenantId, period, s.plans[planId], invoiceId, now), us) && AllDifferent(us)
            && forall k :: 0 <= k < |us| ==> Known(s, us[k])
  {
    hide AllDifferent, Known, Matching, Total;
    var all := JsMap.Values(s.records);
    var us := Matching(all, tenantId, period);
    RecordsDifferent(s);
    MatchingDifferent(all, tenantId, period);
    forall k | 0 <= k < |us|
      ensures Known(s, us[k]) && Billable(us[k], tenantId, period)
    {
      MatchingFrom(all, tenantId, period, k);
    }
    assert forall k :: 0 <= k < |us| ==> Price(s.plans[planId], us[k].metric) >= 0;
  }

  /** An invoice that has not changed is still in order when the dedupe table has only grown. */
  lemma InvoiceCarries(s: State, t: State, id: string)
    requires InvoiceOk(s, id) && id in s.invoices.vals
    requires id in t.invoices.vals && t.invoices.vals[id] == s.invoices.vals[id].(status := t.invoices.vals[id].status)
    requires id in s.sources ==> id in t.sources && t.sources[id] == s.sources[id]
    requires forall u :: Known(s, u) ==> Known(t, u)
    ensures InvoiceOk(t, id)
  {
    hide AllDifferent, IsPeriod, Known, Total;
  }

  lemma AddedInvoice(s: State, t: State, i: Invoice, us: seq<Usage>)
    requires Inv(s) && i.invoiceId !in s.invoices.vals && IsPeriod(i.billingPeriod)
    requires t.invoices.vals == s.invoices.vals[i.invoiceId := i] && t.sources == s.sources[i.invoiceId := us]
    requires t.records == s.records && t.plans == s.plans && t.dedupe == s.dedupe
    requires BilledFrom(i, us) && AllDifferent(us) && forall k :: 0 <= k < |us| ==> Known(s, us[k])
    requires forall id :: id in s.invoices.vals ==> !InvoiceFor(s.invoices.vals[id], i.tenantId, i.billingPeriod)
    ensures Inv(t)
  {
    hide BilledFrom, AllDifferent, Known, RecordsOk, IsPeriod;
    RecordsUnchanged(s, t);
    KnownSame(s, t);
    forall id
      ensures InvoiceOk(t, id)
    {
      assert InvoiceOk(s, id);
      if id in s.invoices.vals {
        InvoiceCarries(s, t, id);
      }
    }
    forall a, b | a in t.invoices.vals && b in t.invoices.vals && SamePeriod(t.invoices.vals[a], t.invoices.vals[b])
      ensures a == b
    {
      assert a in s.invoices.vals && b in s.invoices.vals ==> SamePeriod(s.invoices.vals[a], s.invoices.vals[b]);
    }
  }

  lemma IssueKeeps(s: State, tenantId: string, period: string, planId: string, invoiceId: string, now: int)
    requires Inv(s) && invoiceId !in s.invoices.vals && Issue(s, tenantId, period, planId, invoiceId, now).Ok?
    ensures Inv(Issue(s, tenantId, period, planId, invoiceId, now).value.0)
  {
    hide BilledFrom, AllDifferent, Known, Matching, FindInvoice, OnePerPeriod, IsPeriod, InvoiceOk, Inv;
    var t := Issue(s, tenantId, period, planId, invoiceId, now).value.0;
    if FindInvoice(JsMap.Values(s.invoices), tenantId, period).None? {
      InvRecords(s);
      NewInvoiceOk(s, tenantId, period, planId, invoiceId, now);
      NoneFound(s, tenantId, period);
      AddedInvoice(s, t, NewInvoice(s, tenantId, period, s.plans[planId], invoiceId, now),
                   Matching(JsMap.Values(s.records), tenantId, period));
    }
  }

  lemma InvRecords(s: State)
    requires Inv(s)
    ensures RecordsOk(s)
  {
  }

  lemma KnownSame(s: State, t: State)
    requires s.dedupe == t.dedupe
    ensures forall u :: Known(s, u) <==> Known(t, u)
  {
  }

  lemma RecordsUnchanged(s: State, t: State)
    requires RecordsOk(s) && t.records == s.records && t.plans == s.plans && t.dedupe == s.dedupe
    ensures RecordsOk(t)
  {
  }

  lemma NoneFound(s: State, tenantId: string, period: string)
    requires FindInvoice(JsMap.Values(s.invoices), tenantId, period).None?
    ensures forall id :: id in s.invoices.vals ==> !InvoiceFor(s.invoices.vals[id], tenantId, period)
  {
    var all := JsMap.Values(s.invoices);
    forall id | id in s.invoices.vals
      ensures !InvoiceFor(s.invoices.vals[id], tenantId, period)
    {
      assert id in s.invoices.keys;
      var k :| 0 <= k < |s.invoices.keys| && s.invoices.keys[k] == id;
      assert all[k] in all;
    }
  }

  /** A step that leaves invoices, but for a status, as they were. */
  lemma InvoicesCarry(s: State, t: State)
    requires Inv(s) && RecordsOk(t) && t.sources == s.sources && t.invoices.vals.Keys == s.invoices.vals.Keys
    requires forall id :: id in s.invoices.vals ==>
               t.invoices.vals[id] == s.invoices.vals[id].(status := t.invoices.vals[id].status)
    requires forall u :: Known(s, u) ==> Known(t, u)
    ensures Inv(t)
  {
    hide InvoiceOk, Known, RecordsOk;
    forall id
      ensures InvoiceOk(t, id)
    {
      assert InvoiceOk(s, id);
      if id in s.invoices.vals {
        InvoiceCarries(s, t, id);
      } else {
        NoInvoice(t, id);
      }
    }
    forall a, b | a in t.invoices.vals && b in t.invoices.vals && SamePeriod(t.invoices.vals[a], t.invoices.vals[b])
      ensures a == b
    {
      assert SamePeriod(s.invoices.vals[a], s.invoices.vals[b]);
    }
  }

  lemma NoInvoice(s: State, id: string)
    requires id !in s.invoices.vals
    ensures InvoiceOk(s, id)
  {
  }

  lemma KnownGrows(s: State, t: State, u: Usage)
    requires u.dedupeKey !in s.dedupe && t.dedupe == s.dedupe[u.dedupeKey := u]
    ensures Known(t, u) && forall v :: Known(s, v) ==> Known(t, v)
  {
  }

  lemma NewRecord(s: State, u: Usage)
    requires RecordsOk(s) && Record(s, u).Ok?
    ensures var t := Record(s, u).value.0;
            RecordsOk(t) && t.invoices == s.invoices && t.sources == s.sources && forall v :: Known(s, v) ==>
              Known(t, v)
  {
    hide Known;
    var t := Record(s, u).value.0;
    if u.dedupeKey !in s.dedupe {
      KnownGrows(s, t, u);
      assert t.records.vals == s.records.vals[u.usageRecordId := u] && t.plans == s.plans;
    }
  }

  lemma RecordKeeps(s: State, u: Usage)
    requires Inv(s) && Record(s, u).Ok?
    ensures Inv(Record(s, u).value.0)
  {
    hide Record, Inv, Known, RecordsOk;
    InvRecords(s);
    NewRecord(s, u);
    InvoicesCarry(s, Record(s, u).value.0);
  }

  lemma TransitionKeeps(s: State, invoiceId: string, status: Status, allowed: set<Status>)
    requires Inv(s) && Transition(s, invoiceId, status, allowed).Ok?
    ensures Inv(Transition(s, invoiceId, status, allowed).value.0)
  {
    hide Inv, Known, RecordsOk;
    var t := Transition(s, invoiceId, status, allowed).value.0;
    InvRecords(s);
    RecordsUnchanged(s, t);
    KnownSame(s, t);
    InvoicesCarry(s, t);
  }

  lemma PlanKeeps(s: State, p: Plan)
    requires Inv(s) && WithPlan(s, p).Ok?
    ensures Inv(WithPlan(s, p).value)
  {
    hide Inv, IsPeriod, InvoiceOk;
    InvRecords(s);
    KnownSame(s, WithPlan(s, p).value);
    InvoicesCarry(s, WithPlan(s, p).value);
  }

  /** An invoice keeps all but its status, and paid and void ones keep that too. */
  ghost predicate Frozen(s: State, t: State, id: string) {
    id in s.invoices.vals && id in s.sources ==>
      && id in t.invoices.vals && id in t.sources && t.sources[id] == s.sources[id]
      && t.invoices.vals[id] == s.invoices.vals[id].(status := t.invoices.vals[id].status)
      && (s.invoices.vals[id].status.Paid? || s.invoices.vals[id].status.Void? ==>
            t.invoices.vals[id] == s.invoices.vals[id])
  }

  lemma InvStep(s: State, e: Event)
    requires Inv(s) && Enabled(s, e)
    ensures Inv(Next(s, e))
  {
    hide Inv, WithPlan, Record, Issue, Transition;
    match e
    case PlanAdded(plan) => if WithPlan(s, plan).Ok? { PlanKeeps(s, plan); }
    case UsageRecorded(usage) => if Record(s, usage).Ok? { RecordKeeps(s, usage); }
    case InvoiceIssued(tenantId, period, planId, invoiceId, now) =>
      if Issue(s, tenantId, period, planId, invoiceId, now).Ok? {
        IssueKeeps(s, tenantId, period, planId, invoiceId, now);
      }
    case DraftIssued(id) => if Transition(s, id, Issued, {Draft}).Ok? { TransitionKeeps(s, id, Issued, {Draft}); }
    case InvoicePaid(id) => if Transition(s, id, Paid, {Issued}).Ok? { TransitionKeeps(s, id, Paid, {Issued}); }
    case InvoiceVoided(id) =>
      if Transition(s, id, Void, {Draft, Issued}).Ok? { TransitionKeeps(s, id, Void, {Draft, Issued}); }
  }

  lemma FrozenByIssue(
      s: State, tenantId: string, period: string, planId: string, invoiceId: string, now: int, id: string)
    requires invoiceId !in s.invoices.vals
    ensures Frozen(s, StateOf(s, Issue(s, tenantId, period, planId, invoiceId, now)), id)
  {
    hide FindInvoice, Matching, IsPeriod, NewInvoice;
  }

  lemma FrozenByTransition(s: State, invoiceId: string, status: Status, allowed: set<Status>, id: string)
    requires Paid !in allowed && Void !in allowed
    ensures Frozen(s, StateOf(s, Transition(s, invoiceId, status, allowed)), id)
  {
  }

  lemma FrozenOtherwise(s: State, t: State, id: string)
    requires t.invoices == s.invoices && t.sources == s.sources
    ensures Frozen(s, t, id)
  {
  }

  lemma FrozenStep(s: State, e: Event, id: string)
    requires Enabled(s, e)
    ensures Frozen(s, Next(s, e), id)
  {
    hide Frozen, Issue, Transition, ValidPlan;
    match e
    case PlanAdded(plan) => FrozenOtherwise(s, Next(s, e), id);
    case UsageRecorded(usage) => FrozenOtherwise(s, Next(s, e), id);
    case InvoiceIssued(tenantId, period, planId, invoiceId, now) =>
      FrozenByIssue(s, tenantId, period, planId, invoiceId, now, id);
    case DraftIssued(invoiceId) => FrozenByTransition(s, invoiceId, Issued, {Draft}, id);
    case InvoicePaid(invoiceId) => FrozenByTransition(s, invoiceId, Paid, {Issued}, id);
    case InvoiceVoided(invoiceId) => FrozenByTransition(s, invoiceId, Void, {Draft, Issued}, id);
  }

  lemma {:induction false} Run(s: State, events: seq<Event>, t: State, id: string)
    requires Inv(s) && Reaches(s, events, t)
    ensures Inv(t) && Frozen(s, t, id)
    decreases |events|
  {
    hide Inv, Next, Enabled;
    if events != [] {
      InvStep(s, events[0]);
      FrozenStep(s, events[0], id);
      Run(Next(s, events[0]), events[1..], t, id);
    }
  }

  lemma StartsOk()
    ensures Inv(Initial())
  {
  }

  /* ----- the main results ----- */

  /** A tenant has at most one invoice per period. */
  lemma OneInvoicePerPeriod(events: seq<Event>, t: State, a: string, b: string)
    requires Reaches(Initial(), events, t) && a in t.invoices.vals && b in t.invoices.vals
    requires t.invoices.vals[b].tenantId == t.invoices.vals[a].tenantId
    requires t.invoices.vals[b].billingPeriod == t.invoices.vals[a].billingPeriod
    ensures a == b
  {
    StartsOk();
    Run(Initial(), events, t, a);
  }

  /** No dedupe key is billed on two lines, of one invoice or of two. */
  lemma BilledOnce(events: seq<Event>, t: State, a: string, i: nat, b: string, j: nat)
    requires Reaches(Initial(), events, t) && a in t.invoices.vals && b in t.invoices.vals && a in t.sources
    requires b in t.sources
    requires i < |t.sources[a]| && j < |t.sources[b]| && t.sources[a][i].dedupeKey == t.sources[b][j].dedupeKey
    ensures a == b && i == j
  {
    hide IsPeriod;
    StartsOk();
    Run(Initial(), events, t, a);
    assert InvoiceOk(t, a) && InvoiceOk(t, b);
    var u := t.sources[a][i];
    assert Known(t, u) && Known(t, t.sources[b][j]);
    assert Billable(u, t.invoices.vals[a].tenantId, t.invoices.vals[a].billingPeriod);
    assert Billable(u, t.invoices.vals[b].tenantId, t.invoices.vals[b].billingPeriod);
    PeriodLength(t.invoices.vals[a].billingPeriod);
    PeriodLength(t.invoices.vals[b].billingPeriod);
  }

  lemma PeriodLength(p: string)
    requires IsPeriod(p)
    ensures |p| == 7
  {
  }

  function Exact(lines: seq<Line>): real {
    if lines == [] then 0.0
    else
      var last := lines[|lines| - 1];
      Exact(lines[..|lines| - 1]) + last.quantity * last.unitPriceFen as real
  }

  lemma {:induction false} RoundingError(lines: seq<Line>)
    requires forall k :: 0 <= k < |lines| ==>
               lines[k].amountFen == Round(lines[k].quantity * lines[k].unitPriceFen as real)
    ensures -(|lines| as real) / 2.0 <= Exact(lines) - Total(lines) as real <= |lines| as real / 2.0
  {
    if lines != [] {
      var last := |lines| - 1;
      RoundingError(lines[..last]);
      var x := lines[last].quantity * lines[last].unitPriceFen as real;
      assert lines[last].amountFen == Round(x);
      assert -0.5 <= x - Round(x) as real <= 0.5;
    }
  }

  /** Whatever has happened to an invoice since, each line is one of its sources at a non-negative price, its total is
      the sum of its lines, and differs from the exact sum of quantity times price by at most half a fen per line. */
  lemma TotalsAddUp(events: seq<Event>, t: State, id: string)
    requires Reaches(Initial(), events, t) && id in t.invoices.vals
    ensures var i := t.invoices.vals[id];
            id in t.sources && BilledFrom(i, t.sources[id])
            && -(|i.lines| as real) / 2.0 <= Exact(i.lines) - i.totalFen as real <= |i.lines| as real / 2.0
  {
    hide IsPeriod;
    StartsOk();
    Run(Initial(), events, t, id);
    assert InvoiceOk(t, id);
    RoundingError(t.invoices.vals[id].lines);
  }

  /** A usage is billed under its own tenant and period, hence on the one invoice they have. */
  lemma BilledOnItsInvoice(s: State, id: string, b: string, k: nat)
    requires Inv(s) && id in s.invoices.vals && b in s.invoices.vals && b in s.sources && k < |s.sources[b]|
    requires Billable(s.sources[b][k], s.invoices.vals[id].tenantId, s.invoices.vals[id].billingPeriod)
    ensures b == id
  {
    hide IsPeriod;
    assert InvoiceOk(s, id) && InvoiceOk(s, b);
    PeriodLength(s.invoices.vals[id].billingPeriod);
    PeriodLength(s.invoices.vals[b].billingPeriod);
    assert SamePeriod(s.invoices.vals[id], s.invoices.vals[b]);
  }

  /** Once an invoice of a tenant and period exists, usage of that period which is not on it never will be, on any
      invoice: neither a late record, nor what a voided invoice billed, since it is not made again. */
  lemma LateUsageIsNeverBilled(
      events: seq<Event>, s: State, later: seq<Event>, t: State, id: string, u: Usage, b: string)
    requires Reaches(Initial(), events, s) && Reaches(s, later, t)
    requires id in s.invoices.vals && Billable(u, s.invoices.vals[id].tenantId, s.invoices.vals[id].billingPeriod)
    requires id in s.sources && u !in s.sources[id]
    ensures b in t.invoices.vals && b in t.sources ==> u !in t.sources[b]
  {
    hide Inv, Billable, IsPeriod;
    StartsOk();
    Run(Initial(), events, s, id);
    Run(s, later, t, id);
    if b in t.invoices.vals && b in t.sources {
      forall k | 0 <= k < |t.sources[b]|
        ensures t.sources[b][k] == u ==> b == id
      {
        if t.sources[b][k] == u {
          BilledOnItsInvoice(t, id, b, k);
        }
      }
    }
  }

  /** A new invoice bills every record of its tenant and period that the ledger then holds, and nothing else. */
  lemma NewInvoiceIsComplete(
      events: seq<Event>, s: State, tenantId: string, period: string, planId: string, invoiceId: string, now: int,
      u: Usage)
    requires Reaches(Initial(), events, s) && invoiceId !in s.invoices.vals
    requires Issue(s, tenantId, period, planId, invoiceId, now).Ok?
    ensures var (t, i) := Issue(s, tenantId, period, planId, invoiceId, now).value;
            i.invoiceId == invoiceId ==>
              invoiceId in t.sources && (u in t.sources[invoiceId] <==>
                                           Billable(u, tenantId, period) && u in JsMap.Values(s.records))
  {
    StartsOk();
    Run(Initial(), events, s, invoiceId);
    hide Inv, Matching, FindInvoice, IsPeriod;
    var (t, i) := Issue(s, tenantId, period, planId, invoiceId, now).value;
    var all := JsMap.Values(s.records);
    if i.invoiceId == invoiceId {
      ExistingIsOld(s, tenantId, period, invoiceId);
      var us := Matching(all, tenantId, period);
      if u in us {
        var k :| 0 <= k < |us| && us[k] == u;
        MatchingFrom(all, tenantId, period, k);
      }
      if u in all && Billable(u, tenantId, period) {
        MatchingComplete(all, tenantId, period, u);
      }
    }
  }

  lemma ExistingIsOld(s: State, tenantId: string, period: string, invoiceId: string)
    requires Inv(s) && invoiceId !in s.invoices.vals
    ensures var r := FindInvoice(JsMap.Values(s.invoices), tenantId, period); r.Some? ==> r.value.invoiceId != invoiceId
  {
    var all := JsMap.Values(s.invoices);
    var r := FindInvoice(all, tenantId, period);
    if r.Some? {
      var k :| 0 <= k < |all| && all[k] == r.value;
      assert s.invoices.keys[k] in s.invoices.keys;
      assert InvoiceOk(s, s.invoices.keys[k]);
    }
  }

  predicate Holds(s: State, u: Usage) {
    u.usageRecordId in s.records.vals && s.records.vals[u.usageRecordId] == u
  }

  /** A new usage leaves all others to be billed exactly when its record id is new: under an id already taken it
      replaces the earlier record, which no later invoice will find. */
  lemma ReusedIdReplacesRecord(events: seq<Event>, s: State, u: Usage)
    requires Reaches(Initial(), events, s) && Record(s, u).Ok? && u.dedupeKey !in s.dedupe
    ensures var t := Record(s, u).value.0;
            (forall v :: Holds(s, v) ==> Holds(t, v)) <==> u.usageRecordId !in s.records.vals
  {
    StartsOk();
    Run(Initial(), events, s, "");
    var t := Record(s, u).value.0;
    if u.usageRecordId in s.records.vals {
      var v := s.records.vals[u.usageRecordId];
      assert Known(s, v);
      assert Holds(s, v) && !Holds(t, v);
    }
  }

  /* ----- plans change under an unchanged effective date ----- */

  /** The effective date is all that an accepted plan leaves as it was: the one stored afterwards is the plan before
      if and only if the new plan equals it, so any other price under the same date takes its place. */
  lemma PlanUnchangedIff(events: seq<Event>, s: State, q: Plan)
    requires Reaches(Initial(), events, s) && q.planId in s.plans
    ensures WithPlan(s, q).Ok? <==> ValidPlan(q) && q.effectiveFrom == s.plans[q.planId].effectiveFrom
    ensures WithPlan(s, q).Ok? ==> (WithPlan(s, q).value.plans[q.planId] == s.plans[q.planId] <==>
                                      q == s.plans[q.planId])
  {
  }

  /** Over whole runs: a plan's effective date never changes, and an invoice keeps the prices it was made with. */
  lemma {:induction false} EffectiveDateStays(s: State, events: seq<Event>, t: State, planId: string)
    requires Reaches(s, events, t) && planId in s.plans
    ensures planId in t.plans && t.plans[planId].effectiveFrom == s.plans[planId].effectiveFrom
    decreases |events|
  {
    hide ValidPlan, Issue, Transition, Record, Enabled;
    if events != [] {
      PlansStep(s, events[0]);
      EffectiveDateStays(Next(s, events[0]), events[1..], t, planId);
    }
  }

  lemma PlansStep(s: State, e: Event)
    ensures forall p :: p in s.plans ==> p in Next(s, e).plans
                                         && Next(s, e).plans[p].effectiveFrom == s.plans[p].effectiveFrom
  {
    hide ValidPlan, FindInvoice, Matching, IsPeriod, NewInvoice, JsMap.OrderedMap.Valid, JsMap.Distinct;
  }

  lemma InvoicesKeepTheirPrices(events: seq<Event>, s: State, later: seq<Event>, t: State, id: string)
    requires Reaches(Initial(), events, s) && Reaches(s, later, t) && id in s.invoices.vals
    ensures id in t.invoices.vals && t.invoices.vals[id].lines == s.invoices.vals[id].lines
    ensures t.invoices.vals[id].totalFen == s.invoices.vals[id].totalFen
  {
    hide Inv;
    StartsOk();
    Run(Initial(), events, s, id);
    Run(s, later, t, id);
    HasSources(s, id);
  }

  lemma HasSources(s: State, id: string)
    requires Inv(s) && id in s.invoices.vals
    ensures id in s.sources
  {
    assert InvoiceOk(s, id);
  }

  function PricedAt(price: int): Plan {
    Plan("p", "CNY", "2024-01", [], map["minutes" := price])
  }

  const OneMinute := Usage("u", "t", "minutes", 1.0, "2024-01-15", "2024-01-16", "d")

  function BillOf(price: int): seq<Event> {
    [PlanAdded(PricedAt(1)), UsageRecorded(OneMinute), PlanAdded(PricedAt(price)),
     InvoiceIssued("t", "2024-01", "p", "i", 0)]
  }

  /** Its input: a usage recorded while the plan charged 1 fen is billed at 2, after the plan was added again with that
      price and the same effective date. */
  lemma PriceChangesUnderSameDate() returns (t: State)
    ensures PricedAt(1).effectiveFrom == PricedAt(2).effectiveFrom
    ensures Reaches(Initial(), BillOf(2), t) && t.plans == map["p" := PricedAt(2)]
    ensures "i" in t.invoices.vals && t.invoices.vals["i"].lines == [LineOf(OneMinute, 2)]
    ensures LineOf(OneMinute, 1).amountFen == 1 && LineOf(OneMinute, 2).amountFen == 2
  {
    hide Reaches, BillOf, JsMap.OrderedMap.Valid, JsMap.Distinct;
    t := BilledRun(2);
    assert (1.0 * 1 as real + 0.5).Floor == 1 && (1.0 * 2 as real + 0.5).Floor == 2;
  }

  lemma PlanStep(s: State, price: int)
    requires price >= 0 && ("p" in s.plans ==> s.plans["p"].effectiveFrom == "2024-01")
    ensures Next(s, PlanAdded(PricedAt(price))) == s.(plans := s.plans["p" := PricedAt(price)])
  {
    hide JsMap.OrderedMap.Valid, JsMap.Distinct;
    assert "2024-01"[4] == '-' && IsPeriod("2024-01");
  }

  lemma UsageStep(s: State)
    requires "d" !in s.dedupe
    ensures Next(s, UsageRecorded(OneMinute)) ==
              s.(records := JsMap.Set(s.records, "u", OneMinute), dedupe := s.dedupe["d" := OneMinute])
  {
    hide JsMap.OrderedMap.Valid, JsMap.Distinct;
  }

  lemma InvoiceStep(s: State, price: int)
    requires s.plans == map["p" := PricedAt(price)] && s.records == JsMap.Set(JsMap.Empty(), "u", OneMinute)
    requires s.invoices == JsMap.Empty()
    ensures var t := Next(s, InvoiceIssued("t", "2024-01", "p", "i", 0));
            t.plans == s.plans && "i" in t.invoices.vals && t.invoices.vals["i"].lines == [LineOf(OneMinute, price)]
  {
    hide JsMap.OrderedMap.Valid, JsMap.Distinct, LineOf, Total, Matching;
    assert IsPeriod("2024-01");
    assert JsMap.Values(s.invoices) == [];
    OneMatches(s);
    assert LinesFor([OneMinute], PricedAt(price)) == [LineOf(OneMinute, price)];
  }

  lemma OneMatches(s: State)
    requires s.records == JsMap.Set(JsMap.Empty(), "u", OneMinute)
    ensures Matching(JsMap.Values(s.records), "t", "2024-01") == [OneMinute]
  {
    assert JsMap.Values(s.records) == [OneMinute];
    assert [OneMinute][..0] == [];
    assert OneMinute.windowStart[..7] == "2024-01";
  }

  lemma ReachesFour(s: State, e: seq<Event>)
    requires |e| == 4 && !e[0].InvoiceIssued? && !e[1].InvoiceIssued? && !e[2].InvoiceIssued?
    requires Enabled(Next(Next(Next(s, e[0]), e[1]), e[2]), e[3])
    ensures Reaches(s, e, Next(Next(Next(Next(s, e[0]), e[1]), e[2]), e[3]))
  {
    hide Next;
    var a := Next(s, e[0]);
    var b := Next(a, e[1]);
    var c := Next(b, e[2]);
    var t := Next(c, e[3]);
    assert e[3..][1..] == [] && e[3..][0] == e[3] && Reaches(c, e[3..], t);
    assert e[2..][1..] == e[3..] && Reaches(b, e[2..], t);
    assert e[1..][1..] == e[2..] && Reaches(a, e[1..], t);
  }

  lemma BilledRun(price: int) returns (t: State)
    requires price >= 0
    ensures Reaches(Initial(), BillOf(price), t) && t.plans == map["p" := PricedAt(price)]
    ensures "i" in t.invoices.vals && t.invoices.vals["i"].lines == [LineOf(OneMinute, price)]
  {
    hide JsMap.OrderedMap.Valid, JsMap.Distinct, Next, Reaches, LineOf, ValidPlan;
    PlanStep(Initial(), 1);
    var a := Next(Initial(), PlanAdded(PricedAt(1)));
    UsageStep(a);
    var b := Next(a, UsageRecorded(OneMinute));
    PlanStep(b, price);
    var c := Next(b, PlanAdded(PricedAt(price)));
    InvoiceStep(c, price);
    t := Next(c, InvoiceIssued("t", "2024-01", "p", "i", 0));
    ReachesFour(Initial(), BillOf(price));
  }

  /* ----- single operations ----- */

  function DigitOf(n: nat): char
    requires n < 10
  {
    '0' + n as char
  }

  /** A year and a month as yyyy-mm */
  function PeriodOf(year: nat, month: nat): string
    requires year < 10000 && month < 100
  {
    [DigitOf(year / 1000), DigitOf(year / 100 % 10), DigitOf(year / 10 % 10), DigitOf(year % 10), '-',
     DigitOf(month / 10), DigitOf(month % 10)]
  }

  /** The accepted periods are the months of the years 0 to 9999 as text. */
  lemma PeriodIff(p: string)
    ensures IsPeriod(p) <==>
              exists year: nat, month: nat :: year < 10000 && 1 <= month <= 12 && p == PeriodOf(year, month)
  {
    if IsPeriod(p) {
      PeriodHasParts(p);
    }
    forall year: nat, month: nat | year < 10000 && 1 <= month <= 12 && p == PeriodOf(year, month)
      ensures IsPeriod(p)
    {
      PartsArePeriod(year, month);
    }
  }

  function ValueOf(c: char): (n: nat)
    requires Digit(c)
    ensures n < 10 && DigitOf(n) == c
  {
    c as nat - '0' as nat
  }

  lemma DigitIsDigit(n: nat)
    requires n < 10
    ensures Digit(DigitOf(n))
  {
  }

  lemma PartsArePeriod(year: nat, month: nat)
    requires year < 10000 && 1 <= month <= 12
    ensures IsPeriod(PeriodOf(year, month))
  {
    DigitIsDigit(year / 1000);
    DigitIsDigit(year / 100 % 10);
    DigitIsDigit(year / 10 % 10);
    DigitIsDigit(year % 10);
  }

  lemma Parts(a: nat, b: nat, c: nat, d: nat)
    requires a < 10 && b < 10 && c < 10 && d < 10
    ensures var n := 1000 * a + 100 * b + 10 * c + d;
            n / 1000 == a && n / 100 % 10 == b && n / 10 % 10 == c && n % 10 == d
  {
    var n := 1000 * a + 100 * b + 10 * c + d;
    assert n / 100 == 10 * a + b && n / 10 == 100 * a + 10 * b + c;
  }

  lemma PeriodHasParts(p: string)
    requires IsPeriod(p)
    ensures exists year: nat, month: nat :: year < 10000 && 1 <= month <= 12 && p == PeriodOf(year, month)
  {
    var a, b, c, d := ValueOf(p[0]), ValueOf(p[1]), ValueOf(p[2]), ValueOf(p[3]);
    var e, f := ValueOf(p[5]), ValueOf(p[6]);
    Parts(a, b, c, d);
    Parts(0, 0, e, f);
    assert DigitOf(e) == '1' ==> e == 1;
    assert DigitOf(e) == '0' ==> e == 0;
    assert p == PeriodOf(1000 * a + 100 * b + 10 * c + d, 10 * e + f);
  }

  /** A plan is accepted exactly in CNY, from a month on, with allowances and prices that are not negative, and under a
      known id only with the date it had; it is then the plan of that id. */
  lemma PlanIff(s: State, q: Plan)
    ensures var r := WithPlan(s, q);
            && (r.Ok? <==>
                  && q.currency == "CNY" && |q.effectiveFrom| >= 7 && IsPeriod(q.effectiveFrom[..7])
                  && (forall a :: a in q.allowances ==> a >= 0.0)
                  && (forall m :: m in q.overageUnitPrices ==> q.overageUnitPrices[m] >= 0)
                  && (q.planId in s.plans ==> s.plans[q.planId].effectiveFrom == q.effectiveFrom))
            && (r.Ok? ==> r.value == s.(plans := s.plans[q.planId := q]))
  {
    hide JsMap.OrderedMap.Valid, JsMap.Distinct;
    assert |q.effectiveFrom| == 7 ==> q.effectiveFrom[..7] == q.effectiveFrom;
    if forall a :: a in q.allowances ==> a >= 0.0 {
      assert forall i :: 0 <= i < |q.allowances| ==> q.allowances[i] in q.allowances;
    }
  }

  /** Usage is accepted with a quantity that is not negative and a dedupe key of at most 256 characters; only the first
      under a dedupe key is entered, and every later one is answered with it. */
  lemma UsageIff(s: State, u: Usage)
    ensures var r := Record(s, u);
            && (r.Ok? <==> u.quantity >= 0.0 && 1 <= |u.dedupeKey| <= 256)
            && (r.Ok? && u.dedupeKey in s.dedupe ==> r.value == (s, s.dedupe[u.dedupeKey]))
            && (r.Ok? && u.dedupeKey !in s.dedupe ==>
                  var t := r.value.0;
                  && r.value.1 == u && t == s.(records := t.records, dedupe := s.dedupe[u.dedupeKey := u])
                  && t.records.vals == s.records.vals[u.usageRecordId := u])
  {
    hide JsMap.OrderedMap.Valid, JsMap.Distinct;
  }

  /** The whole number next to x, halves going up. */
  predicate Nearest(n: int, x: real) {
    n as real - 0.5 <= x < n as real + 0.5
  }

  lemma RoundIsNearest(x: real, n: int)
    ensures Round(x) == n <==> Nearest(n, x)
  {
    assert x + 0.5 - 1.0 < (x + 0.5).Floor as real <= x + 0.5;
  }

  /** The line bills this usage at the plan's price for its metric, or for nothing if the plan has none. */
  predicate Bills(l: Line, u: Usage, p: Plan) {
    && l.usageMetric == u.metric && l.quantity == u.quantity && l.usageWindowStart == u.windowStart
    && l.usageWindowEnd == u.windowEnd
    && (u.metric in p.overageUnitPrices ==> l.unitPriceFen == p.overageUnitPrices[u.metric])
    && (u.metric !in p.overageUnitPrices ==> l.unitPriceFen == 0)
    && Nearest(l.amountFen, u.quantity * l.unitPriceFen as real)
  }

  lemma LineBills(u: Usage, p: Plan)
    ensures Bills(LineOf(u, Price(p, u.metric)), u, p)
  {
    var x := u.quantity * Price(p, u.metric) as real;
    RoundIsNearest(x, Round(x));
  }

  /** The places, in order, of the usage of a tenant and period. */
  ghost predicate Places(us: seq<Usage>, tenantId: string, period: string, at: seq<nat>) {
    && (forall k :: 0 <= k < |at| ==> at[k] < |us|)
    && (forall k, l :: 0 <= k < l < |at| ==> at[k] < at[l])
    && (forall i :: 0 <= i < |us| ==> (i in at <==> us[i].tenantId == tenantId && period <= us[i].windowStart))
  }

  lemma OneMorePlace(us: seq<Usage>, tenantId: string, period: string, at: seq<nat>)
    requires us != [] && Places(us[..|us| - 1], tenantId, period, at)
    ensures var last := |us| - 1;
            Places(us, tenantId, period, if us[last].tenantId == tenantId && period <= us[last].windowStart
                                         then at + [last] else at)
  {
    var last := |us| - 1;
    assert last !in at;
    forall i | 0 <= i < last
      ensures i in at <==> us[i].tenantId == tenantId && period <= us[i].windowStart
    {
      assert us[..last][i] == us[i];
    }
  }

  /** The usage billed is that at these places. */
  lemma {:induction false} MatchingPlaces(us: seq<Usage>, tenantId: string, period: string) returns (at: seq<nat>)
    ensures |at| == |Matching(us, tenantId, period)| && Places(us, tenantId, period, at)
    ensures forall k :: 0 <= k < |at| ==> us[at[k]] == Matching(us, tenantId, period)[k]
  {
    hide Places, StartsWith;
    if us == [] {
      at := [];
      NoPlaces(tenantId, period);
    } else {
      var last := |us| - 1;
      var rest := MatchingPlaces(us[..last], tenantId, period);
      PeriodIsPrefix(us[last].windowStart, period);
      OneMorePlace(us, tenantId, period, rest);
      PlacesIn(us[..last], tenantId, period, rest);
      at := if Billable(us[last], tenantId, period) then rest + [last] else rest;
    }
    PlacesIn(us, tenantId, period, at);
  }

  lemma NoPlaces(tenantId: string, period: string)
    ensures Places([], tenantId, period, [])
  {
  }

  lemma PlacesIn(us: seq<Usage>, tenantId: string, period: string, at: seq<nat>)
    requires Places(us, tenantId, period, at)
    ensures forall k :: 0 <= k < |at| ==> at[k] < |us|
  {
  }

  lemma PeriodIsPrefix(s: string, p: string)
    ensures StartsWith(s, p) <==> p <= s
  {
  }

  predicate IsOf(v: Invoice, tenantId: string, period: string) {
    v.tenantId == tenantId && v.billingPeriod == period
  }

  /** Main result: an invoice is made exactly for a tenant, a month and a known plan, unless there is one for them,
      which is then the answer.  It is a draft whose lines bill, in order, exactly the held usage of that tenant and
      month at the plan's prices, and whose total is their sum. */
  lemma InvoiceIff(events: seq<Event>, s: State, tenantId: string, period: string, planId: string, invoiceId: string,
                   now: int) returns (at: seq<nat>)
    requires Reaches(Initial(), events, s) && invoiceId !in s.invoices.vals
    ensures var r, us := Issue(s, tenantId, period, planId, invoiceId, now), JsMap.Values(s.records);
            && (r.Ok? <==> tenantId != "" && IsPeriod(period) && planId in s.plans)
            && Places(us, tenantId, period, at)
            && (r.Ok? && (forall k :: k in s.invoices.vals ==> !IsOf(s.invoices.vals[k], tenantId, period)) ==>
                  var (t, v) := r.value;
                  && t.invoices.vals == s.invoices.vals[invoiceId := v] && t.records == s.records && t.plans == s.plans
                  && v.invoiceId == invoiceId && v.tenantId == tenantId && v.billingPeriod == period
                  && v.status == Draft && v.createdAt == now && |v.lines| == |at| && v.totalFen == Total(v.lines)
                  && forall k :: 0 <= k < |at| ==> at[k] < |us| && Bills(v.lines[k], us[at[k]], s.plans[planId]))
            && (r.Ok? && (exists k :: k in s.invoices.vals && IsOf(s.invoices.vals[k], tenantId, period)) ==>
                  r.value.0 == s && IsOf(r.value.1, tenantId, period))
  {
    hide JsMap.OrderedMap.Valid, JsMap.Distinct, Matching, FindInvoice, IsPeriod, Total, Bills, LineOf, Price, Reaches,
         Places;
    var us := JsMap.Values(s.records);
    at := MatchingPlaces(us, tenantId, period);
    PlacesIn(us, tenantId, period, at);
    var known := JsMap.Values(s.invoices);
    if FindInvoice(known, tenantId, period).None? {
      NoneFound(s, tenantId, period);
    } else {
      FoundIsThere(s, tenantId, period);
    }
    if planId in s.plans {
      var p := s.plans[planId];
      forall k | 0 <= k < |at|
        ensures Bills(LinesFor(Matching(us, tenantId, period), p)[k], us[at[k]], p)
      {
        LineBills(us[at[k]], p);
      }
    }
  }

  lemma FoundIsThere(s: State, tenantId: string, period: string)
    requires FindInvoice(JsMap.Values(s.invoices), tenantId, period).Some?
    ensures exists k :: k in s.invoices.vals && InvoiceFor(s.invoices.vals[k], tenantId, period)
  {
    var all := JsMap.Values(s.invoices);
    var found := FindInvoice(all, tenantId, period).value;
    var i :| 0 <= i < |all| && all[i] == found;
    assert s.invoices.keys[i] in s.invoices.keys;
    assert s.invoices.vals[s.invoices.keys[i]] == found;
  }

  /** The steps an invoice may take. */
  predicate MayTurn(from: Status, to: Status) {
    || (from == Draft && to == Issued)
    || (from == Issued && to == Paid)
    || ((from == Draft || from == Issued) && to == Void)
  }

  function Turns(e: Event): Option<(string, Status)> {
    match e
    case DraftIssued(id) => Some((id, Issued))
    case InvoicePaid(id) => Some((id, Paid))
    case InvoiceVoided(id) => Some((id, Void))
    case _ => None
  }

  /** Main result: an invoice's status changes exactly when a step asks for a turn its status allows; issued only from
      draft, paid only from issued, void only while neither paid nor void. */
  lemma StatusTurnsIff(s: State, e: Event, id: string)
    requires Enabled(s, e) && id in s.invoices.vals
    ensures id in Next(s, e).invoices.vals
    ensures var from, to := s.invoices.vals[id].status, Next(s, e).invoices.vals[id].status;
            && (to != from <==> Turns(e).Some? && Turns(e).value.0 == id && MayTurn(from, Turns(e).value.1))
            && (to != from ==> to == Turns(e).value.1)
  {
    hide JsMap.OrderedMap.Valid, JsMap.Distinct, Matching, FindInvoice, IsPeriod, NewInvoice, ValidPlan;
  }
}
