/**
 The usage ledger (ledger.ts): usage records, price plans and the invoices made from them.  Quantities are reals and
 amounts whole fen; the clock and the random ids are arguments.
 */
module Ledger {
  import opened Common
  import JsMap

  datatype Error = Conflict

  datatype Usage = Usage(
      usageRecordId: string, tenantId: string, metric: string, quantity: real, windowStart: string, windowEnd: string,
      dedupeKey: string)

  datatype Plan = Plan(
      planId: string, currency: string, effectiveFrom: string, allowances: seq<real>,
      overageUnitPrices: map<string, int>)

  datatype Status = Draft | Issued | Paid | Void

  datatype Line = Line(
      usageMetric: string, quantity: real, unitPriceFen: int, amountFen: int, usageWindowStart: string,
      usageWindowEnd: string)

  datatype Invoice = Invoice(
      invoiceId: string, tenantId: string, billingPeriod: string, status: Status, lines: seq<Line>, totalFen: int,
      createdAt: int)

  /** `sources` is not in the program: it remembers, per invoice, the records its lines were made from. */
  datatype State = State(
    records: JsMap.Map<string, Usage>, plans: map<string, Plan>, invoices: JsMap.Map<string, Invoice>,
    dedupe: map<string, Usage>, sources: map<string, seq<Usage>>)

  function Initial(): State {
    State(JsMap.Empty(), map[], JsMap.Empty(), map[], map[])
  }

  predicate Digit(c: char) {
    '0' <= c <= '9'
  }

  /** yyyy-mm */
  predicate IsPeriod(p: string) {
    && |p| == 7 && Digit(p[0]) && Digit(p[1]) && Digit(p[2]) && Digit(p[3]) && p[4] == '-'
    && ((p[5] == '0' && '1' <= p[6] <= '9') || (p[5] == '1' && '0' <= p[6] <= '2'))
  }

  predicate ValidPlan(p: Plan) {
    && p.currency == "CNY"
    && IsPeriod(if |p.effectiveFrom| <= 7 then p.effectiveFrom else p.effectiveFrom[..7])
    && (forall i :: 0 <= i < |p.allowances| ==> p.allowances[i] >= 0.0)
    && (forall m :: m in p.overageUnitPrices ==> p.overageUnitPrices[m] >= 0)
  }

  function WithPlan(s: State, p: Plan): Result<State, Error> {
    if !ValidPlan(p) then Err(Conflict)
    else if p.planId in s.plans && s.plans[p.planId].effectiveFrom != p.effectiveFrom then Err(Conflict)
    else Ok(s.(plans := s.plans[p.planId := p]))
  }

  function Record(s: State, u: Usage): Result<(State, Usage), Error> {
    if u.quantity < 0.0 then Err(Conflict)
    else if u.dedupeKey == "" || |u.dedupeKey| > 256 then Err(Conflict)
    else if u.dedupeKey in s.dedupe then Ok((s, s.dedupe[u.dedupeKey]))
    else Ok((s.(records := JsMap.Set(s.records, u.usageRecordId, u), dedupe := s.dedupe[u.dedupeKey := u]), u))
  }

  predicate StartsWith(s: string, p: string) {
    |p| <= |s| && s[..|p|] == p
  }

  predicate Billable(u: Usage, tenantId: string, period: string) {
    u.tenantId == tenantId && StartsWith(u.windowStart, period)
  }

  /** The records of a tenant and a period, in the order of the map. */
  function Matching(us: seq<Usage>, tenantId: string, period: string): (r: seq<Usage>) {
    if us == [] then []
    else
      var last := |us| - 1;
      Matching(us[..last], tenantId, period) + if Billable(us[last], tenantId, period) then [us[last]] else []
  }

  function Price(p: Plan, metric: string): int {
    if metric in p.overageUnitPrices then p.overageUnitPrices[metric] else 0
  }

  /** Math.round: halves go up. */
  function Round(x: real): int {
    (x + 0.5).Floor
  }

  function LineOf(u: Usage, price: int): Line {
    Line(u.metric, u.quantity, price, Round(u.quantity * price as real), u.windowStart, u.windowEnd)
  }

  function LinesFor(us: seq<Usage>, p: Plan): (r: seq<Line>)
    ensures |r| == |us| && forall i :: 0 <= i < |us| ==> r[i] == LineOf(us[i], Price(p, us[i].metric))
  {
    seq(|us|, i requires 0 <= i < |us| => LineOf(us[i], Price(p, us[i].metric)))
  }

  function Total(lines: seq<Line>): int {
    if lines == [] then 0 else Total(lines[..|lines| - 1]) + lines[|lines| - 1].amountFen
  }

  predicate InvoiceFor(i: Invoice, tenantId: string, period: string) {
    i.tenantId == tenantId && i.billingPeriod == period
  }

  /** The first invoice of a tenant and a period. */
  function FindInvoice(known: seq<Invoice>, tenantId: string, period: string): (r: Option<Invoice>)
    ensures r.Some? ==> r.value in known && InvoiceFor(r.value, tenantId, period)
    ensures r.None? ==> forall i :: i in known ==> !InvoiceFor(i, tenantId, period)
  {
    if known == [] then None
    else
      var last := |known| - 1;
      assert known == known[..last] + [known[last]];
      var earlier := FindInvoice(known[..last], tenantId, period);
      if earlier.Some? then earlier else if InvoiceFor(known[last], tenantId, period) then Some(known[last]) else None
  }

  function NewInvoice(s: State, tenantId: string, period: string, plan: Plan, invoiceId: string, now: int): Invoice {
    var lines := LinesFor(Matching(JsMap.Values(s.records), tenantId, period), plan);
    Invoice(invoiceId, tenantId, period, Draft, lines, Total(lines), now)
  }

  function Issue(s: State, tenantId: string, period: string, planId: string, invoiceId: string, now: int)
    : Result<(State, Invoice), Error>
  {
    if tenantId == "" || !IsPeriod(period) then Err(Conflict)
    else if planId !in s.plans then Err(Conflict)
    else
      var existing := FindInvoice(JsMap.Values(s.invoices), tenantId, period);
      if existing.Some? then Ok((s, existing.value))
      else
        var invoice := NewInvoice(s, tenantId, period, s.plans[planId], invoiceId, now);
        Ok((s.(invoices := JsMap.Set(s.invoices, invoiceId, invoice),
               sources := s.sources[invoiceId := Matching(JsMap.Values(s.records), tenantId, period)]), invoice))
  }

  /** issue, markPaid and void */
  function Transition(s: State, invoiceId: string, status: Status, allowed: set<Status>)
    : Result<(State, Invoice), Error>
  {
    if invoiceId !in s.invoices.vals then Err(Conflict)
    else if s.invoices.vals[invoiceId].status !in allowed then Err(Conflict)
    else
      var updated := s.invoices.vals[invoiceId].(status := status);
      Ok((s.(invoices := JsMap.Set(s.invoices, invoiceId, updated)), updated))
  }

  class UsageLedger {
    var records: JsMap.Map<string, Usage>
    var plans: map<string, Plan>
    var invoices: JsMap.Map<string, Invoice>
    var dedupe: map<string, Usage>
    ghost var sources: map<string, seq<Usage>>

    ghost function View(): State
      reads this
    {
      State(records, plans, invoices, dedupe, sources)
    }

    constructor ()
      ensures View() == Initial()
    {
      records, plans, invoices, dedupe, sources := JsMap.Empty(), map[], JsMap.Empty(), map[], map[];
    }

    ghost predicate DoneAs<T>(before: State, expected: Result<(State, T), Error>, r: Result<T, Error>)
      reads this
    {
      match expected
      case Ok((s, value)) => View() == s && r == Ok(value)
      case Err(e) => View() == before && r == Err(e)
    }

    method AddPlan(plan: Plan) returns (r: Result<(), Error>)
      modifies this
      ensures var after := WithPlan(old(View()), plan);
              if after.Ok? then View() == after.value && r == Ok(()) else View() == old(View()) && r == Err(after.error)
    {
      if !ValidPlan(plan) {
        return Err(Conflict);
      }
      if plan.planId in plans && plans[plan.planId].effectiveFrom != plan.effectiveFrom {
        return Err(Conflict);
      }
      plans := plans[plan.planId := plan];
      r := Ok(());
    }

    method RecordUsage(input: Usage) returns (r: Result<Usage, Error>)
      modifies this
      ensures DoneAs(old(View()), Record(old(View()), input), r)
    {
      if input.quantity < 0.0 || input.dedupeKey == "" || |input.dedupeKey| > 256 {
        return Err(Conflict);
      }
      if input.dedupeKey in dedupe {
        return Ok(dedupe[input.dedupeKey]);
      }
      records := JsMap.Set(records, input.usageRecordId, input);
      dedupe := dedupe[input.dedupeKey := input];
      r := Ok(input);
    }

    method IssueInvoice(tenantId: string, period: string, planId: string, invoiceId: string, now: int)
        returns (r: Result<Invoice, Error>)
      modifies this
      ensures DoneAs(old(View()), Issue(old(View()), tenantId, period, planId, invoiceId, now), r)
    {
      hide IsPeriod, FindInvoice, Matching;
      if tenantId == "" || !IsPeriod(period) {
        return Err(Conflict);
      }
      if planId !in plans {
        return Err(Conflict);
      }
      var existing := FindInvoice(JsMap.Values(invoices), tenantId, period);
      if existing != None {
        return Ok(existing.value);
      }
      var used := Matching(JsMap.Values(records), tenantId, period);
      var lines := LinesFor(used, plans[planId]);
      var invoice := Invoice(invoiceId, tenantId, period, Draft, lines, Total(lines), now);
      invoices := JsMap.Set(invoices, invoiceId, invoice);
      sources := sources[invoiceId := used];
      r := Ok(invoice);
    }

    method TransitionInvoice(invoiceId: string, status: Status, allowed: set<Status>)
        returns (r: Result<Invoice, Error>)
      modifies this
      ensures DoneAs(old(View()), Transition(old(View()), invoiceId, status, allowed), r)
    {
      if invoiceId !in invoices.vals || invoices.vals[invoiceId].status !in allowed {
        return Err(Conflict);
      }
      var updated := invoices.vals[invoiceId].(status := status);
      invoices := JsMap.Set(invoices, invoiceId, updated);
      r := Ok(updated);
    }

    method IssueDraft(invoiceId: string) returns (r: Result<Invoice, Error>)
      modifies this
      ensures DoneAs(old(View()), Transition(old(View()), invoiceId, Issued, {Draft}), r)
    {
      r := TransitionInvoice(invoiceId, Issued, {Draft});
    }

    method MarkPaid(invoiceId: string) returns (r: Result<Invoice, Error>)
      modifies this
      ensures DoneAs(old(View()), Transition(old(View()), invoiceId, Paid, {Issued}), r)
    {
      r := TransitionInvoice(invoiceId, Paid, {Issued});
    }

    method VoidInvoice(invoiceId: string) returns (r: Result<Invoice, Error>)
      modifies this
      ensures DoneAs(old(View()), Transition(old(View()), invoiceId, Void, {Draft, Issued}), r)
    {
      r := TransitionInvoice(invoiceId, Void, {Draft, Issued});
    }
  }
}
