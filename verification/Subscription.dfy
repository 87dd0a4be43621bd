/** What a commerce has paid for: payments and status changes as Mercado Pago
    reports them, and the state derived from the dates whenever it is read. */
module Subscription {
  import opened Prelude
  import opened Calendar

  const NO_EXPIRY_DAYS := 36_500

  datatype Status = TRIAL | ACTIVE | PAST_DUE | CANCELLED

  datatype Policy = WarnOnly | ReadOnly | Block

  /** Instants are milliseconds. */
  datatype Tenant = Tenant(status: Status, trialEndsAt: Option<int>, currentPeriodEnd: Option<int>, policy: Policy,
                           isDemo: bool, demoExpiresAt: Option<int>)

  datatype PaymentEvent = PaymentEvent(tenant: nat, payment: nat, periodEnd: Option<int>)

  /** A payment id appears once in the events of the whole platform. */
  datatype Platform = Platform(tenants: map<nat, Tenant>, events: seq<PaymentEvent>)

  datatype Error = TenantNotFound | AlreadyProcessed

  function MaxDate(a: Option<int>, b: int): int { if a.Some? && a.value > b then a.value else b }

  function ConvertDemoIfPaid(t: Tenant): Tenant {
    if t.isDemo then t.(isDemo := false, demoExpiresAt := None) else t
  }

  /** Webhooks carry the instant they are handled at. */
  datatype Delivery =
    | Payment(tenant: nat, payment: nat, approved: bool, now: int, offset: int)
    | Preapproval(tenant: nat, mpStatus: string)

  predicate Processed(p: Platform, payment: nat) {
    exists k :: 0 <= k < |p.events| && p.events[k].payment == payment
  }

  function PaidUntil(t: Tenant, now: int, offset: int): int { AddOneMonth(MaxDate(t.currentPeriodEnd, now), offset) }

  /** The event goes in first: a payment id already there stops everything. */
  function ApplyPayment(p: Platform, tenant: nat, payment: nat, approved: bool, now: int, offset: int)
    : Result<Platform, Error>
  {
    if tenant !in p.tenants then Err(TenantNotFound)
    else if Processed(p, payment) then Err(AlreadyProcessed)
    else
      var t := p.tenants[tenant];
      var periodEnd := if approved then Some(PaidUntil(t, now, offset)) else None;
      var next := if approved then ConvertDemoIfPaid(t.(currentPeriodEnd := periodEnd, status := ACTIVE))
                  else t.(status := PAST_DUE);
      Ok(Platform(p.tenants[tenant := next], p.events + [PaymentEvent(tenant, payment, periodEnd)]))
  }

  function MapPreapprovalStatus(mpStatus: string): Status {
    if mpStatus == "authorized" then ACTIVE
    else if mpStatus == "paused" then PAST_DUE
    else if mpStatus == "cancelled" then CANCELLED
    else TRIAL
  }

  function ApplyPreapprovalStatus(p: Platform, tenant: nat, mpStatus: string): Result<Platform, Error> {
    if tenant !in p.tenants then Err(TenantNotFound)
    else
      var status := MapPreapprovalStatus(mpStatus);
      var t := p.tenants[tenant].(status := status);
      Ok(p.(tenants := p.tenants[tenant := if status == ACTIVE then ConvertDemoIfPaid(t) else t]))
  }

  function Attempt(p: Platform, d: Delivery): Result<Platform, Error> {
    match d
    case Payment(tenant, payment, approved, now, offset) => ApplyPayment(p, tenant, payment, approved, now, offset)
    case Preapproval(tenant, mpStatus) => ApplyPreapprovalStatus(p, tenant, mpStatus)
  }

  function Step(p: Platform, d: Delivery): Platform {
    var r := Attempt(p, d);
    if r.Ok? then r.value else p
  }

  function Exec(p: Platform, run: seq<Delivery>): Platform
  {
    if |run| == 0 then p else Step(Exec(p, run[..|run| - 1]), run[|run| - 1])
  }

  // ----- resolveState -----

  datatype State = InTrial | Active | Grace | Expired | Cancelled

  /** Whole days, rounded up; negative once past. */
  function DaysUntil(target: int, now: int): int { -((now - target) / MS_PER_DAY) }

  function FromDays(remaining: int, graceDays: nat, current: State): State {
    if remaining > 0 then current else if remaining > 0 - graceDays then Grace else Expired
  }

  function ResolveState(t: Tenant, graceDays: nat, now: int): (State, int) {
    if t.status == CANCELLED then
      if t.currentPeriodEnd.Some? && t.currentPeriodEnd.value > now
      then (Active, DaysUntil(t.currentPeriodEnd.value, now))
      else (Cancelled, if t.currentPeriodEnd.Some? then DaysUntil(t.currentPeriodEnd.value, now) else 0)
    else if t.currentPeriodEnd.Some? then
      var remaining := DaysUntil(t.currentPeriodEnd.value, now);
      (FromDays(remaining, graceDays, Active), remaining)
    else if t.trialEndsAt.Some? then
      var remaining := DaysUntil(t.trialEndsAt.value, now);
      (FromDays(remaining, graceDays, InTrial), remaining)
    else (Active, NO_EXPIRY_DAYS)
  }

  predicate Overdue(state: State) { state == Expired || state == Cancelled }

  predicate BlocksWrites(t: Tenant, graceDays: nat, now: int) {
    Overdue(ResolveState(t, graceDays, now).0) && (t.policy == ReadOnly || t.policy == Block)
  }

  predicate BlocksAccess(t: Tenant, graceDays: nat, now: int) {
    Overdue(ResolveState(t, graceDays, now).0) && t.policy == Block
  }

  lemma DaysUntilBounds(target: int, now: int, k: int)
    ensures DaysUntil(target, now) > k <==> now < target - k * MS_PER_DAY
  {
    var late := now - target;
    assert late == late / MS_PER_DAY * MS_PER_DAY + late % MS_PER_DAY;
    if late / MS_PER_DAY < -k {
      assert late / MS_PER_DAY * MS_PER_DAY <= (-k - 1) * MS_PER_DAY;
    } else {
      assert late / MS_PER_DAY * MS_PER_DAY >= -k * MS_PER_DAY;
    }
  }

  /** The same verdict from the instants alone: up to the due date, the grace
      period after it, and everything later. */
  function ByDate(due: int, graceDays: nat, now: int, current: State): State {
    if now < due then current else if now < due + graceDays * MS_PER_DAY then Grace else Expired
  }

  lemma FromDaysIsByDate(due: int, graceDays: nat, now: int, current: State)
    ensures FromDays(DaysUntil(due, now), graceDays, current) == ByDate(due, graceDays, now, current)
  {
    DaysUntilBounds(due, now, 0);
    DaysUntilBounds(due, now, 0 - graceDays);
  }

  function Rank(s: State): nat {
    match s
    case InTrial => 0
    case Active => 0
    case Grace => 1
    case Expired => 2
    case Cancelled => 2
  }

  /** Time alone never improves a state, and an unpaid day past the grace period
      blocks exactly what the policy says. */
  lemma StateOnlyWorsens(t: Tenant, graceDays: nat, now: int, later: int)
    requires now <= later
    ensures Rank(ResolveState(t, graceDays, now).0) <= Rank(ResolveState(t, graceDays, later).0)
    ensures BlocksWrites(t, graceDays, now) ==> BlocksWrites(t, graceDays, later)
    ensures BlocksAccess(t, graceDays, now) ==> BlocksAccess(t, graceDays, later) && BlocksWrites(t, graceDays, now)
  {
    if t.status != CANCELLED {
      var due, current := if t.currentPeriodEnd.Some? then t.currentPeriodEnd else t.trialEndsAt,
                          if t.currentPeriodEnd.Some? then Active else InTrial;
      if due.Some? {
        FromDaysIsByDate(due.value, graceDays, now, current);
        FromDaysIsByDate(due.value, graceDays, later, current);
      }
    }
  }

  /** When a paying commerce is active, in grace and expired, to the millisecond. */
  lemma PaidStateByDate(t: Tenant, graceDays: nat, now: int)
    requires t.status != CANCELLED && t.currentPeriodEnd.Some?
    ensures var due := t.currentPeriodEnd.value;
            && (ResolveState(t, graceDays, now).0 == Active <==> now < due)
            && (ResolveState(t, graceDays, now).0 == Grace <==> due <= now < due + graceDays * MS_PER_DAY)
            && (ResolveState(t, graceDays, now).0 == Expired <==> due + graceDays * MS_PER_DAY <= now)
  {
    FromDaysIsByDate(t.currentPeriodEnd.value, graceDays, now, Active);
  }

  /** The due date that counts is the paid period, then the trial; without either
      there is none. A cancelled commerce keeps what it paid for and no grace. */
  lemma StateByDate(t: Tenant, graceDays: nat, now: int)
    ensures var s, paid, grace := ResolveState(t, graceDays, now).0, t.currentPeriodEnd, graceDays * MS_PER_DAY;
            if t.status == CANCELLED then s == if paid.Some? && now < paid.value then Active else Cancelled
            else if paid.None? && t.trialEndsAt.Some? then
              && (s == InTrial <==> now < t.trialEndsAt.value)
              && (s == Grace <==> t.trialEndsAt.value <= now < t.trialEndsAt.value + grace)
              && (s == Expired <==> t.trialEndsAt.value + grace <= now)
            else paid.None? ==> s == Active
  {
    if t.status == CANCELLED {
      if t.currentPeriodEnd.Some? { DaysUntilBounds(t.currentPeriodEnd.value, now, 0); }
    } else if t.currentPeriodEnd.None? && t.trialEndsAt.Some? {
      FromDaysIsByDate(t.trialEndsAt.value, graceDays, now, InTrial);
    }
  }

  /** The days shown are the whole days left, rounded up, and the policy decides what
      an expired or cancelled commerce may still do. */
  lemma DaysAndPolicy(t: Tenant, graceDays: nat, now: int)
    ensures var (s, days) := ResolveState(t, graceDays, now);
            var due := if t.currentPeriodEnd.Some? || t.status == CANCELLED then t.currentPeriodEnd else t.trialEndsAt;
            && (due.Some? ==> (days - 1) * MS_PER_DAY < due.value - now <= days * MS_PER_DAY)
            && (due.None? ==> days == if t.status == CANCELLED then 0 else 36_500)
            && (BlocksWrites(t, graceDays, now) <==> (s == Expired || s == Cancelled) && t.policy != WarnOnly)
            && (BlocksAccess(t, graceDays, now) <==> (s == Expired || s == Cancelled) && t.policy == Block)
  {
    var due := if t.currentPeriodEnd.Some? || t.status == CANCELLED then t.currentPeriodEnd else t.trialEndsAt;
    if due.Some? {
      var days := ResolveState(t, graceDays, now).1;
      assert days == DaysUntil(due.value, now);
      DaysUntilBounds(due.value, now, days);
      DaysUntilBounds(due.value, now, days - 1);
    }
  }

  // ----- Payments -----

  /** An approved payment of a new id adds exactly the month that starts at the
      later of the paid-up date and now; the commerce is active right after. */
  lemma ApprovedPaymentAddsOneMonth(p: Platform, tenant: nat, payment: nat, now: int, offset: int, graceDays: nat)
    requires tenant in p.tenants && !Processed(p, payment)
    ensures ApplyPayment(p, tenant, payment, true, now, offset).Ok?
    ensures var before := p.tenants[tenant];
            var after := ApplyPayment(p, tenant, payment, true, now, offset).value.tenants[tenant];
            var start := MaxDate(before.currentPeriodEnd, now);
            var c := DateAt(start, offset);
            && after.currentPeriodEnd == Some(start + MonthLength(c.year, c.month) * MS_PER_DAY)
            && 28 <= MonthLength(c.year, c.month) <= 31
            && ResolveState(after, graceDays, now).0 == Active
            && !BlocksWrites(after, graceDays, now)
            && !after.isDemo && (before.isDemo ==> after.demoExpiresAt == None)
  {
    PaidMonth(p.tenants[tenant], now, offset);
    PaidIsActive(ApplyPayment(p, tenant, payment, true, now, offset).value.tenants[tenant], graceDays, now);
  }

  lemma PaidMonth(t: Tenant, now: int, offset: int)
    ensures var start := MaxDate(t.currentPeriodEnd, now);
            var length := MonthLength(DateAt(start, offset).year, DateAt(start, offset).month);
            && 28 <= length <= 31 && PaidUntil(t, now, offset) == start + length * MS_PER_DAY
            && PaidUntil(t, now, offset) > start >= now
  {
    OneMonthForward(MaxDate(t.currentPeriodEnd, now), offset);
  }

  lemma PaidIsActive(t: Tenant, graceDays: nat, now: int)
    requires t.status == ACTIVE && t.currentPeriodEnd.Some? && t.currentPeriodEnd.value > now
    ensures ResolveState(t, graceDays, now).0 == Active && !BlocksWrites(t, graceDays, now)
  {
    PaidStateByDate(t, graceDays, now);
  }

  /** What a status change of the preapproval writes, word by word. */
  lemma PreapprovalWrites(p: Platform, tenant: nat, mpStatus: string)
    requires tenant in p.tenants
    ensures var after := Step(p, Preapproval(tenant, mpStatus));
            && after == p.(tenants := p.tenants[tenant := after.tenants[tenant]])
            && var t, u := p.tenants[tenant], after.tenants[tenant];
               && (u.status == ACTIVE <==> mpStatus == "authorized") && (u.status == PAST_DUE <==> mpStatus == "paused")
               && (u.status == CANCELLED <==> mpStatus == "cancelled")
               && u.trialEndsAt == t.trialEndsAt && u.currentPeriodEnd == t.currentPeriodEnd && u.policy == t.policy
               && (u.isDemo <==> t.isDemo && mpStatus != "authorized")
               && (mpStatus != "authorized" || !t.isDemo ==> u.demoExpiresAt == t.demoExpiresAt)
  {
    assert "authorized" != "paused" && "authorized" != "cancelled" && "paused" != "cancelled" by {
      assert "authorized"[0] != "paused"[0] && "authorized"[0] != "cancelled"[0] && "paused"[0] != "cancelled"[0];
    }
  }

  /** A payment that is not approved only marks the debt. */
  lemma RejectedPaymentWrites(p: Platform, tenant: nat, payment: nat, now: int, offset: int)
    requires tenant in p.tenants && !Processed(p, payment)
    ensures Step(p, Payment(tenant, payment, false, now, offset))
         == Platform(p.tenants[tenant := p.tenants[tenant].(status := PAST_DUE)],
                     p.events + [PaymentEvent(tenant, payment, None)])
  {
  }

  predicate NotEarlier(a: Option<int>, b: Option<int>) { a.Some? ==> b.Some? && a.value <= b.value }

  lemma StepNeverShortens(p: Platform, d: Delivery)
    ensures Step(p, d).tenants.Keys == p.tenants.Keys
    ensures forall t :: t in p.tenants ==>
        NotEarlier(p.tenants[t].currentPeriodEnd, Step(p, d).tenants[t].currentPeriodEnd)
    ensures d.Preapproval? ==> forall t :: t in p.tenants ==>
              Step(p, d).tenants[t].currentPeriodEnd == p.tenants[t].currentPeriodEnd
              && Step(p, d).tenants[t].trialEndsAt == p.tenants[t].trialEndsAt
  {
    if d.Payment? && d.tenant in p.tenants {
      PaidMonth(p.tenants[d.tenant], d.now, d.offset);
    } else if d.Preapproval? && d.tenant in p.tenants {
      PreapprovalWrites(p, d.tenant, d.mpStatus);
    }
  }

  /** No sequence of webhooks ever shortens a paid period. */
  lemma {:induction false} PaidPeriodNeverShrinks(p: Platform, run: seq<Delivery>, tenant: nat)
    requires tenant in p.tenants
    ensures tenant in Exec(p, run).tenants
    ensures NotEarlier(p.tenants[tenant].currentPeriodEnd, Exec(p, run).tenants[tenant].currentPeriodEnd)
    decreases |run|
  {
    if |run| > 0 {
      PaidPeriodNeverShrinks(p, run[..|run| - 1], tenant);
      StepNeverShortens(Exec(p, run[..|run| - 1]), run[|run| - 1]);
    }
  }

  // ----- Duplicates -----

  /** A delivery of a payment that reaches the events table. */
  predicate Counts(p: Platform, d: Delivery, payment: nat) {
    d.Payment? && d.payment == payment && d.tenant in p.tenants
  }

  predicate Repeats(p: Platform, run: seq<Delivery>, n: nat)
    requires n < |run|
  {
    run[n].Payment? && (Processed(p, run[n].payment) || exists k :: 0 <= k < n && Counts(p, run[k], run[n].payment))
  }

  /** The run without the repeated deliveries. */
  function FirstDeliveries(p: Platform, run: seq<Delivery>, n: nat): seq<Delivery>
    requires n <= |run|
  {
    if n == 0 then [] else
      FirstDeliveries(p, run, n - 1) + (if Repeats(p, run, n - 1) then [] else [run[n - 1]])
  }

  lemma {:induction false} ProcessedIff(p: Platform, run: seq<Delivery>, n: nat, payment: nat)
    requires n <= |run|
    ensures Exec(p, run[..n]).tenants.Keys == p.tenants.Keys
    ensures Processed(Exec(p, run[..n]), payment)
       <==> Processed(p, payment) || exists k :: 0 <= k < n && Counts(p, run[k], payment)
    decreases n
  {
    if n > 0 {
      var before := run[..n - 1];
      assert run[..n][..n - 1] == before;
      ProcessedIff(p, run, n - 1, payment);
      StepProcesses(Exec(p, before), run[n - 1], payment);
    }
  }

  lemma StepProcesses(p: Platform, d: Delivery, payment: nat)
    ensures Step(p, d).tenants.Keys == p.tenants.Keys
    ensures Processed(Step(p, d), payment) <==> Processed(p, payment) || Counts(p, d, payment)
  {
    var t := Step(p, d);
    if k :| 0 <= k < |p.events| && p.events[k].payment == payment {
      assert t.events[k] == p.events[k];
    }
    if d.Payment? && Attempt(p, d).Ok? {
      assert t.events[|p.events|].payment == d.payment;
    }
  }

  /** Any number of repeated webhooks leaves the platform as if only the first
      delivery of each payment had arrived. */
  lemma {:induction false} OnlyFirstDeliveriesMatter(p: Platform, run: seq<Delivery>, n: nat)
    requires n <= |run|
    ensures Exec(p, run[..n]) == Exec(p, FirstDeliveries(p, run, n))
    decreases n
  {
    if n > 0 {
      var upto, before, d := run[..n], run[..n - 1], run[n - 1];
      assert upto[..n - 1] == before;
      OnlyFirstDeliveriesMatter(p, run, n - 1);
      if Repeats(p, run, n - 1) {
        ProcessedIff(p, run, n - 1, d.payment);
        assert Attempt(Exec(p, before), d).Err?;
        assert FirstDeliveries(p, run, n) == FirstDeliveries(p, run, n - 1);
      } else {
        var kept := FirstDeliveries(p, run, n - 1);
        assert (kept + [d])[..|kept|] == kept;
      }
    }
  }

  predicate Credited(p: Platform, payment: nat) {
    exists k :: 0 <= k < |p.events| && p.events[k].payment == payment && p.events[k].periodEnd.Some?
  }

  lemma StepCredits(p: Platform, d: Delivery, payment: nat)
    ensures Credited(Step(p, d), payment)
       <==> Credited(p, payment) || (Counts(p, d, payment) && !Processed(p, payment) && d.approved)
  {
    var t := Step(p, d);
    if k :| 0 <= k < |p.events| && p.events[k].payment == payment && p.events[k].periodEnd.Some? {
      assert t.events[k] == p.events[k];
    }
    if d.Payment? && Attempt(p, d).Ok? {
      assert t.events[|p.events|] == PaymentEvent(d.tenant, d.payment, t.events[|p.events|].periodEnd);
    }
  }

  /** A payment is ever credited exactly when the first delivery that reaches its
      commerce already reports it approved: one first reported as pending is
      recorded under its id, and the later approval is taken for a repetition. */
  lemma {:induction false} CreditedIffApprovedFirst(p: Platform, run: seq<Delivery>, n: nat, payment: nat)
    requires n <= |run| && !Processed(p, payment)
    ensures Credited(Exec(p, run[..n]), payment)
       <==> exists k :: 0 <= k < n && Counts(p, run[k], payment) && run[k].approved
                        && forall j :: 0 <= j < k ==> !Counts(p, run[j], payment)
    decreases n
  {
    if n > 0 {
      var before := run[..n - 1];
      assert run[..n][..n - 1] == before;
      CreditedIffApprovedFirst(p, run, n - 1, payment);
      ProcessedIff(p, run, n - 1, payment);
      StepCredits(Exec(p, before), run[n - 1], payment);
    }
  }

  /** Such a payment: pending, then approved. The commerce stays past due. */
  lemma PendingThenApprovedIsLost(p: Platform, tenant: nat, payment: nat, now: int, later: int, offset: int)
    requires tenant in p.tenants && !Processed(p, payment)
    ensures var first := Payment(tenant, payment, false, now, offset);
            var second := Payment(tenant, payment, true, later, offset);
            var after := Exec(p, [first, second]);
            && tenant in after.tenants && after.tenants[tenant] == p.tenants[tenant].(status := PAST_DUE)
  {
    var first, second := Payment(tenant, payment, false, now, offset), Payment(tenant, payment, true, later, offset);
    var run := [first, second];
    assert run[..1] == [first] && [first][..0] == [];
    assert Exec(p, [first]) == Step(p, first);
    StepProcesses(p, first, payment);
    assert Attempt(Step(p, first), second).Err?;
  }

  // ----- The service -----

  predicate Outcome(spec: Result<Platform, Error>, before: Platform, after: Platform, error: Option<Error>) {
    match spec
    case Ok(s) => error == None && after == s
    case Err(e) => error == Some(e) && after == before
  }

  /** A payment id is recorded once. */
  predicate Valid(p: Platform) {
    forall j, k :: 0 <= j < k < |p.events| ==> p.events[j].payment != p.events[k].payment
  }

  /** And no request shortens what a commerce has paid for. */
  predicate Kept(before: Platform, after: Platform) {
    && (Valid(before) ==> Valid(after))
    && forall t :: t in before.tenants ==>
         t in after.tenants && NotEarlier(before.tenants[t].currentPeriodEnd, after.tenants[t].currentPeriodEnd)
  }

  lemma OutcomeKeepsValid(before: Platform, d: Delivery, after: Platform, error: Option<Error>)
    requires Outcome(Attempt(before, d), before, after, error)
    ensures Kept(before, after)
  {
    assert after == Step(before, d);
    StepNeverShortens(before, d);
    StepRecordsOnce(before, d);
  }

  lemma StepRecordsOnce(p: Platform, d: Delivery)
    ensures Valid(p) ==> Valid(Step(p, d))
  {
    var t := Step(p, d);
    if d.Payment? && Attempt(p, d).Ok? {
      assert forall k :: 0 <= k < |p.events| ==> t.events[k] == p.events[k] && p.events[k].payment != d.payment;
    }
  }

  class Billing {
    var tenants: map<nat, Tenant>
    var events: seq<PaymentEvent>

    function State(): Platform
      reads this
    {
      Platform(tenants, events)
    }

    constructor (tenants: map<nat, Tenant>)
      ensures State() == Platform(tenants, [])
    {
      this.tenants, events := tenants, [];
    }

    method ConvertDemo(tenant: nat)
      requires tenant in tenants
      modifies this
      ensures events == old(events)
      ensures tenants == old(tenants)[tenant := ConvertDemoIfPaid(old(tenants)[tenant])]
    {
      if tenants[tenant].isDemo {
        tenants := tenants[tenant := tenants[tenant].(isDemo := false, demoExpiresAt := None)];
      }
    }

    method ReceivePayment(tenant: nat, payment: nat, approved: bool, now: int, offset: int)
      returns (error: Option<Error>)
      modifies this
      ensures Outcome(ApplyPayment(old(State()), tenant, payment, approved, now, offset), old(State()), State(), error)
    {
      if tenant !in tenants { return Some(TenantNotFound); }
      var t := tenants[tenant];
      var periodEnd: Option<int> := None;
      if approved {
        var start := MaxDate(t.currentPeriodEnd, now);
        periodEnd := Some(AddOneMonth(start, offset));
      }
      for k := 0 to |events|
        invariant State() == old(State())
        invariant forall j :: 0 <= j < k ==> events[j].payment != payment
      {
        if events[k].payment == payment { return Some(AlreadyProcessed); }
      }
      events := events + [PaymentEvent(tenant, payment, periodEnd)];
      if approved {
        tenants := tenants[tenant := t.(currentPeriodEnd := periodEnd, status := ACTIVE)];
        ConvertDemo(tenant);
      } else {
        tenants := tenants[tenant := t.(status := PAST_DUE)];
      }
      error := None;
    }

    method ReceivePreapproval(tenant: nat, mpStatus: string) returns (error: Option<Error>)
      modifies this
      ensures Outcome(ApplyPreapprovalStatus(old(State()), tenant, mpStatus), old(State()), State(), error)
    {
      if tenant !in tenants { return Some(TenantNotFound); }
      var status := MapPreapprovalStatus(mpStatus);
      tenants := tenants[tenant := tenants[tenant].(status := status)];
      if status == ACTIVE { ConvertDemo(tenant); }
      error := None;
    }

    /** The dispatch by kind of webhook. */
    method Dispatch(d: Delivery) returns (error: Option<Error>)
      modifies this
      ensures Outcome(Attempt(old(State()), d), old(State()), State(), error)
    {
      match d
      case Payment(tenant, payment, approved, now, offset) =>
          error := ReceivePayment(tenant, payment, approved, now, offset);
      case Preapproval(tenant, mpStatus) => error := ReceivePreapproval(tenant, mpStatus);
    }

    /** Whatever arrives: a payment id is recorded once and no paid period shrinks. */
    method Process(d: Delivery) returns (error: Option<Error>)
      modifies this
      ensures Outcome(Attempt(old(State()), d), old(State()), State(), error)
      ensures Kept(old(State()), State())
    {
      ghost var before := State();
      error := Dispatch(d);
      OutcomeKeepsValid(before, d, State(), error);
    }
  }
}
