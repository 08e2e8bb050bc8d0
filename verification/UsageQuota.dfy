/**
 Monthly usage under a plan limit (backend/legacy_sqlite.py and the quota part of backend/main.py).
 Each SQL transaction is one atomic step; a plan may change between any two of them, so the limit an
 increment is called with may be stale.
 */
module UsageQuota {
  import opened Logs
  import opened Text

  const UNLIMITED := -1

  datatype Subscription = Subscription(
    plan: string, status: string, customerId: Option<string>, subscriptionId: Option<string>)

  datatype Tables = Tables(usage: map<(string, string), nat>, subscriptions: map<string, Subscription>)

  const EMPTY := Tables(map[], map[])

  function Count(t: Tables, org: string, month: string): (n: nat)
  {
    if (org, month) in t.usage then t.usage[(org, month)] else 0
  }

  predicate Grants(limit: int, count: nat)
  {
    limit == UNLIMITED || count < limit
  }

  /** Two transactions of the store: an increment under a limit, and a subscription upsert. */
  datatype Op =
    | Try(org: string, month: string, limit: int)
    | Update(org: string, sub: Subscription)

  /** The upsert keeps a stored Stripe id when the new row has none. */
  function Upsert(was: Option<Subscription>, sub: Subscription): (r: Subscription)
  {
    if was.None? then sub
    else sub.(
      customerId := if sub.customerId.Some? then sub.customerId else was.value.customerId,
      subscriptionId := if sub.subscriptionId.Some? then sub.subscriptionId else was.value.subscriptionId)
  }

  function Stored(t: Tables, org: string): (s: Option<Subscription>)
  {
    if org in t.subscriptions then Some(t.subscriptions[org]) else None
  }

  function Step(t: Tables, op: Op): (next: Tables)
  {
    match op
    case Try(org, month, limit) =>
      var n := Count(t, org, month);
      if Grants(limit, n) then t.(usage := t.usage[(org, month) := n + 1]) else t
    case Update(org, sub) => t.(subscriptions := t.subscriptions[org := Upsert(Stored(t, org), sub)])
  }

  function Run(ops: seq<Op>): (t: Tables)
  {
    if ops == [] then EMPTY else Step(Run(ops[..|ops| - 1]), ops[|ops| - 1])
  }

  predicate Concerns(op: Op, org: string, month: string)
  {
    op.Try? && op.org == org && op.month == month
  }

  /** How many increments of the pair were granted during the run. */
  function Granted(ops: seq<Op>, org: string, month: string): (n: nat)
  {
    if ops == [] then 0
    else
      var rest, op := ops[..|ops| - 1], ops[|ops| - 1];
      Granted(rest, org, month)
      + (if Concerns(op, org, month) && Grants(op.limit, Count(Run(rest), org, month)) then 1 else 0)
  }

  /** The stored count is the number of granted calls, whatever else ran in between. */
  lemma {:induction false} CountIsGranted(ops: seq<Op>, org: string, month: string)
    ensures Count(Run(ops), org, month) == Granted(ops, org, month)
  {
    if ops != [] { CountIsGranted(ops[..|ops| - 1], org, month); }
  }

  // ----- the reference: one organisation and month on its own -----

  function CountAfter(limits: seq<int>): (n: nat)
  {
    if limits == [] then 0
    else
      var n := CountAfter(limits[..|limits| - 1]);
      if Grants(limits[|limits| - 1], n) then n + 1 else n
  }

  /** The limits the increments of one pair were called with. */
  function LimitsFor(ops: seq<Op>, org: string, month: string): (limits: seq<int>)
  {
    if ops == [] then []
    else
      var op := ops[|ops| - 1];
      LimitsFor(ops[..|ops| - 1], org, month) + (if Concerns(op, org, month) then [op.limit] else [])
  }

  lemma CountAfterSnoc(limits: seq<int>, limit: int)
    ensures CountAfter(limits + [limit])
            == var n := CountAfter(limits); if Grants(limit, n) then n + 1 else n
  {
    assert (limits + [limit])[..|limits|] == limits;
  }

  /** Other organisations, other months and plan changes do not matter: only the pair's own limits do. */
  lemma {:induction false} PairsAreIndependent(ops: seq<Op>, org: string, month: string)
    ensures Count(Run(ops), org, month) == CountAfter(LimitsFor(ops, org, month))
  {
    if ops != [] {
      var rest, op := ops[..|ops| - 1], ops[|ops| - 1];
      PairsAreIndependent(rest, org, month);
      if Concerns(op, org, month) {
        CountAfterSnoc(LimitsFor(rest, org, month), op.limit);
      } else {
        assert LimitsFor(ops, org, month) == LimitsFor(rest, org, month);
      }
    }
  }

  /** Under one constant limit, exactly as many calls are granted as the limit leaves room for. */
  lemma {:induction false} ConstantLimit(limits: seq<int>, limit: int)
    requires forall i :: 0 <= i < |limits| ==> limits[i] == limit
    ensures CountAfter(limits)
            == if limit == -1 then |limits|
               else if limit < 0 then 0
               else if |limits| < limit then |limits| else limit
  {
    if limits != [] { ConstantLimit(limits[..|limits| - 1], limit); }
  }

  /** At least as generous, with `UNLIMITED` above every number. */
  predicate LimitLe(a: int, b: int)
  {
    b == UNLIMITED || (a != UNLIMITED && a <= b)
  }

  /** Raising limits, call by call, never lowers the number of granted calls. */
  lemma {:induction false} GenerousLimitsGrantMore(a: seq<int>, b: seq<int>)
    requires |a| == |b| && forall i :: 0 <= i < |a| ==> LimitLe(a[i], b[i])
    ensures CountAfter(a) <= CountAfter(b)
  {
    if a != [] {
      var n := |a| - 1;
      assert forall i :: 0 <= i < n ==> LimitLe(a[..n][i], b[..n][i]);
      GenerousLimitsGrantMore(a[..n], b[..n]);
      assert LimitLe(a[n], b[n]);
    }
  }

  /** However plans change, the count never exceeds the largest finite limit used. */
  lemma {:induction false} CountBounded(limits: seq<int>, top: nat)
    requires forall i :: 0 <= i < |limits| ==> limits[i] != UNLIMITED && limits[i] <= top
    ensures CountAfter(limits) <= top
  {
    if limits != [] { CountBounded(limits[..|limits| - 1], top); }
  }

  /** Over every run: `n` calls of a pair under one finite limit grant exactly `min(n, limit)`. */
  lemma QuotaExact(ops: seq<Op>, org: string, month: string, limit: nat)
    requires forall i :: 0 <= i < |LimitsFor(ops, org, month)| ==> LimitsFor(ops, org, month)[i] == limit
    ensures var n := |LimitsFor(ops, org, month)|;
            Granted(ops, org, month) == if n < limit then n else limit
  {
    CountIsGranted(ops, org, month);
    PairsAreIndependent(ops, org, month);
    ConstantLimit(LimitsFor(ops, org, month), limit);
  }

  /** A Stripe customer id, once stored, is never lost to an update that brings none. */
  lemma {:induction false} CustomerIdKept(ops: seq<Op>, later: seq<Op>, org: string)
    requires Stored(Run(ops), org).Some? && Stored(Run(ops), org).value.customerId.Some?
    ensures Stored(Run(ops + later), org).Some? && Stored(Run(ops + later), org).value.customerId.Some?
    ensures (forall i :: 0 <= i < |later| && later[i].Update? && later[i].org == org ==> later[i].sub.customerId.None?)
            ==> Stored(Run(ops + later), org).value.customerId == Stored(Run(ops), org).value.customerId
  {
    if later == [] {
      assert ops + later == ops;
    } else {
      var init := later[..|later| - 1];
      CustomerIdKept(ops, init, org);
      assert (ops + later)[..|ops + later| - 1] == ops + init;
      assert (ops + later)[|ops + later| - 1] == later[|later| - 1];
      assert forall i :: 0 <= i < |init| ==> init[i] == later[i];
    }
  }

  // ----- the handlers -----

  function LimitOfPlan(plan: string): (limit: int)
    ensures limit in {10, 500, UNLIMITED}
  {
    match plan
    case "free" => 10
    case "pro" => 500
    case "team" => UNLIMITED
    case _ => 10
  }

  /** `_get_plan_limit`: a missing subscription or an empty plan counts as free. */
  function PlanLimit(t: Tables, org: string): (limit: int)
    ensures limit in {10, 500, UNLIMITED}
  {
    var s := Stored(t, org);
    LimitOfPlan(if s.None? || s.value.plan == "" then "free" else Lower(s.value.plan))
  }

  // ----- limits taken from stored plans, read in a transaction of their own -----

  /**
   Every increment carries the limit of the plan that was stored at some earlier moment: a diagnosis reads
   the plan in one transaction and increments in another, and anything may run in between.
   */
  ghost predicate LimitsWereRead(ops: seq<Op>)
  {
    forall i :: 0 <= i < |ops| && ops[i].Try? ==> ReadBefore(ops, i, ops[i].org, ops[i].limit)
  }

  ghost predicate ReadBefore(ops: seq<Op>, i: nat, org: string, limit: int)
    requires i <= |ops|
  {
    exists j :: 0 <= j <= i && limit == PlanLimit(Run(ops[..j]), org)
  }

  /** How many increments of the pair were asked for. */
  function Asked(ops: seq<Op>, org: string, month: string): (n: nat)
  {
    |LimitsFor(ops, org, month)|
  }

  /** The limit a stored plan name stands for. */
  function LimitOfName(plan: string): (limit: int)
    ensures limit in {10, 500, UNLIMITED}
  {
    LimitOfPlan(if plan == "" then "free" else Lower(plan))
  }

  lemma RunSnoc(ops: seq<Op>, op: Op)
    ensures Run(ops + [op]) == Step(Run(ops), op)
  {
    assert (ops + [op])[..|ops|] == ops;
  }

  lemma FreeIsTen()
    ensures forall org :: PlanLimit(EMPTY, org) == 10
  {
  }

  lemma PlanStored(t: Tables, o: string, sub: Subscription, org: string)
    ensures PlanLimit(Step(t, Update(o, sub)), org) == if o == org then LimitOfName(sub.plan) else PlanLimit(t, org)
  {
  }

  /** The plans by name, in any case: 500 for pro, no limit for team, 10 for every other name. */
  lemma LimitByName(plan: string)
    ensures LimitOfName(plan) == if Lower(plan) == "pro" then 500 else if Lower(plan) == "team" then -1 else 10
  {
    if plan == "" { assert Lower(plan) == ""; }
  }

  /** How the limit of the stored plan develops from moment `k` on. */
  lemma {:induction false} StoredPlanFrom(ops: seq<Op>, k: nat, j: nat, org: string, limits: set<int>)
    requires k <= j <= |ops| && PlanLimit(Run(ops[..k]), org) in limits
    requires forall i :: k <= i < |ops| && ops[i].Update? && ops[i].org == org ==>
                    LimitOfName(ops[i].sub.plan) in limits
    ensures PlanLimit(Run(ops[..j]), org) in limits
    decreases j
  {
    if k < j {
      StoredPlanFrom(ops, k, j - 1, org, limits);
      assert ops[..j] == ops[..j - 1] + [ops[j - 1]];
      RunSnoc(ops[..j - 1], ops[j - 1]);
      if ops[j - 1].Update? { PlanStored(Run(ops[..j - 1]), ops[j - 1].org, ops[j - 1].sub, org); }
    }
  }

  /** The limits that one pair's increments carry come from its own increments. */
  lemma {:induction false} LimitsAreCarried(ops: seq<Op>, n: nat, org: string, month: string, k: nat)
    requires n <= |ops| && k < |LimitsFor(ops[..n], org, month)|
    ensures exists i :: 0 <= i < n && Concerns(ops[i], org, month) && ops[i].limit == LimitsFor(ops[..n], org, month)[k]
  {
    assert n > 0 && ops[..n][..n - 1] == ops[..n - 1];
    if k < |LimitsFor(ops[..n - 1], org, month)| { LimitsAreCarried(ops, n - 1, org, month, k); }
  }

  /** Every increment of the pair carries a limit read from the stored plan at moment `k` or later. */
  ghost predicate ReadSince(ops: seq<Op>, k: nat, org: string, month: string)
  {
    forall i :: 0 <= i < |ops| && Concerns(ops[i], org, month) ==> ReadBetween(ops, k, i, org, ops[i].limit)
  }

  ghost predicate ReadBetween(ops: seq<Op>, k: nat, i: nat, org: string, limit: int)
    requires i <= |ops|
  {
    exists j :: k <= j <= i && limit == PlanLimit(Run(ops[..j]), org)
  }

  lemma ReadFromTheStart(ops: seq<Op>, org: string, month: string)
    requires LimitsWereRead(ops)
    ensures ReadSince(ops, 0, org, month)
  {
    forall i | 0 <= i < |ops| && Concerns(ops[i], org, month) ensures ReadBetween(ops, 0, i, org, ops[i].limit) {
      assert ReadBefore(ops, i, org, ops[i].limit);
    }
  }

  lemma LimitsWithin(ops: seq<Op>, k: nat, org: string, month: string, limits: set<int>)
    requires k <= |ops| && ReadSince(ops, k, org, month) && PlanLimit(Run(ops[..k]), org) in limits
    requires forall i :: k <= i < |ops| && ops[i].Update? && ops[i].org == org ==>
                    LimitOfName(ops[i].sub.plan) in limits
    ensures forall n :: 0 <= n < Asked(ops, org, month) ==> LimitsFor(ops, org, month)[n] in limits
  {
    assert ops[..|ops|] == ops;
    forall n | 0 <= n < Asked(ops, org, month) ensures LimitsFor(ops, org, month)[n] in limits {
      LimitsAreCarried(ops, |ops|, org, month, n);
      var i :| 0 <= i < |ops| && Concerns(ops[i], org, month) && ops[i].limit == LimitsFor(ops, org, month)[n];
      assert ReadBetween(ops, k, i, org, ops[i].limit);
      var j :| k <= j <= i && ops[i].limit == PlanLimit(Run(ops[..j]), org);
      StoredPlanFrom(ops, k, j, org, limits);
    }
  }

  /** The organisation's updates avoid a plan name. */
  ghost predicate NeverOn(ops: seq<Op>, org: string, name: string)
  {
    forall i :: 0 <= i < |ops| && ops[i].Update? && ops[i].org == org ==> Lower(ops[i].sub.plan) != name
  }

  /** However stale the limits, an organisation never put on "team" gets at most 500 diagnoses a month. */
  lemma NeverUnlimitedStaysBounded(ops: seq<Op>, org: string, month: string)
    requires LimitsWereRead(ops) && NeverOn(ops, org, "team")
    ensures Granted(ops, org, month) <= 500
  {
    FreeIsTen();
    assert ops[..0] == [];
    ReadFromTheStart(ops, org, month);
    forall i | 0 <= i < |ops| && ops[i].Update? && ops[i].org == org ensures LimitOfName(ops[i].sub.plan) in {10, 500} {
      LimitByName(ops[i].sub.plan);
    }
    LimitsWithin(ops, 0, org, month, {10, 500});
    CountIsGranted(ops, org, month);
    PairsAreIndependent(ops, org, month);
    CountBounded(LimitsFor(ops, org, month), 500);
  }

  /** An organisation never put on "pro" or "team" gets exactly the first ten diagnoses of a month. */
  lemma FreeGetsTen(ops: seq<Op>, org: string, month: string)
    requires LimitsWereRead(ops) && NeverOn(ops, org, "team") && NeverOn(ops, org, "pro")
    ensures Granted(ops, org, month) == if Asked(ops, org, month) < 10 then Asked(ops, org, month) else 10
  {
    FreeIsTen();
    assert ops[..0] == [];
    ReadFromTheStart(ops, org, month);
    forall i | 0 <= i < |ops| && ops[i].Update? && ops[i].org == org ensures LimitOfName(ops[i].sub.plan) in {10} {
      LimitByName(ops[i].sub.plan);
    }
    LimitsWithin(ops, 0, org, month, {10});
    QuotaExact(ops, org, month, 10);
  }

  /** Just before moment `k` the organisation was put on the named plan, and it stays there. */
  ghost predicate OnPlanSince(ops: seq<Op>, k: nat, org: string, name: string)
  {
    && 0 < k <= |ops| && ops[k - 1].Update? && ops[k - 1].org == org
    && forall i :: k - 1 <= i < |ops| && ops[i].Update? && ops[i].org == org ==> Lower(ops[i].sub.plan) == name
  }

  lemma PlanInForce(ops: seq<Op>, k: nat, org: string, name: string)
    requires OnPlanSince(ops, k, org, name)
    ensures exists plan :: Lower(plan) == name && PlanLimit(Run(ops[..k]), org) == LimitOfName(plan)
  {
    assert ops[..k] == ops[..k - 1] + [ops[k - 1]];
    RunSnoc(ops[..k - 1], ops[k - 1]);
    PlanStored(Run(ops[..k - 1]), org, ops[k - 1].sub, org);
    assert Lower(ops[k - 1].sub.plan) == name;
  }

  lemma PlanLimitsWithin(ops: seq<Op>, k: nat, org: string, month: string, name: string, limit: int)
    requires OnPlanSince(ops, k, org, name) && ReadSince(ops, k, org, month)
    requires forall plan :: Lower(plan) == name ==> LimitOfName(plan) == limit
    ensures forall n :: 0 <= n < Asked(ops, org, month) ==> LimitsFor(ops, org, month)[n] == limit
  {
    PlanInForce(ops, k, org, name);
    LimitsWithin(ops, k, org, month, {limit});
  }

  /** An organisation put on "pro", in any case, whose calls all read that plan gets exactly min(n, 500). */
  lemma ProGetsFiveHundred(ops: seq<Op>, k: nat, org: string, month: string)
    requires OnPlanSince(ops, k, org, "pro") && ReadSince(ops, k, org, month)
    ensures Granted(ops, org, month) == if Asked(ops, org, month) < 500 then Asked(ops, org, month) else 500
  {
    forall plan | Lower(plan) == "pro" ensures LimitOfName(plan) == 500 { LimitByName(plan); }
    PlanLimitsWithin(ops, k, org, month, "pro", 500);
    QuotaExact(ops, org, month, 500);
  }

  /** An organisation put on "team", in any case, whose calls all read that plan is never refused. */
  lemma TeamGetsAll(ops: seq<Op>, k: nat, org: string, month: string)
    requires OnPlanSince(ops, k, org, "team") && ReadSince(ops, k, org, month)
    ensures Granted(ops, org, month) == Asked(ops, org, month)
  {
    forall plan | Lower(plan) == "team" ensures LimitOfName(plan) == -1 { LimitByName(plan); }
    PlanLimitsWithin(ops, k, org, month, "team", -1);
    CountIsGranted(ops, org, month);
    PairsAreIndependent(ops, org, month);
    ConstantLimit(LimitsFor(ops, org, month), -1);
  }

  /** An update stores the new plan and status, and a Stripe id only where it brings one. */
  lemma UpdateMeaning(t: Tables, org: string, sub: Subscription, other: string)
    ensures var s := Stored(Step(t, Update(org, sub)), org);
            && s.Some? && s.value.plan == sub.plan && s.value.status == sub.status
            && (sub.customerId.Some? ==> s.value.customerId == sub.customerId)
            && (sub.subscriptionId.Some? ==> s.value.subscriptionId == sub.subscriptionId)
            && (sub.customerId.None? && Stored(t, org).Some? ==> s.value.customerId == Stored(t, org).value.customerId)
            && (sub.subscriptionId.None? && Stored(t, org).Some? ==>
                  s.value.subscriptionId == Stored(t, org).value.subscriptionId)
    ensures other != org ==> Stored(Step(t, Update(org, sub)), other) == Stored(t, other)
    ensures Step(t, Update(org, sub)).usage == t.usage
  {
  }

  lemma ReadLimitAppends(ops: seq<Op>, op: Op, j: nat)
    requires LimitsWereRead(ops) && j <= |ops|
    requires op.Try? ==> op.limit == PlanLimit(Run(ops[..j]), op.org)
    ensures LimitsWereRead(ops + [op])
  {
    var all := ops + [op];
    assert forall n :: 0 <= n <= |ops| ==> all[..n] == ops[..n];
    forall i | 0 <= i < |all| && all[i].Try? ensures ReadBefore(all, i, all[i].org, all[i].limit) {
      if i < |ops| {
        assert all[i] == ops[i] && ReadBefore(ops, i, ops[i].org, ops[i].limit);
        var n :| 0 <= n <= i && ops[i].limit == PlanLimit(Run(ops[..n]), ops[i].org);
        assert all[i].limit == PlanLimit(Run(all[..n]), all[i].org);
      } else {
        assert all[i].limit == PlanLimit(Run(all[..j]), all[i].org);
      }
    }
  }

  class UsageDb {
    var usage: map<(string, string), nat>
    var subscriptions: map<string, Subscription>
    ghost var ops: seq<Op>

    ghost function Snapshot(): (t: Tables)
      reads this
    {
      Tables(usage, subscriptions)
    }

    /** The tables are what the transactions so far made of them. */
    ghost predicate Valid()
      reads this
    {
      Snapshot() == Run(ops)
    }

    constructor ()
      ensures Valid() && ops == []
    {
      usage, subscriptions, ops := map[], map[], [];
    }

    /** `get_usage`: how many calls of the pair were granted. */
    method GetUsage(org: string, month: string) returns (n: nat)
      requires Valid()
      ensures n == Count(Snapshot(), org, month) == Granted(ops, org, month)
    {
      CountIsGranted(ops, org, month);
      if (org, month) in usage {
        return usage[(org, month)];
      }
      return 0;
    }

    /** `try_increment_usage_with_limit`: the new count, or nothing when the limit is reached. */
    method TryIncrement(org: string, limit: int, month: string) returns (r: Option<nat>)
      requires Valid()
      modifies this`usage, this`ops
      ensures Valid() && ops == old(ops) + [Try(org, month, limit)]
      ensures Snapshot() == Step(old(Snapshot()), Try(org, month, limit))
      ensures r.Some? <==> Grants(limit, Count(old(Snapshot()), org, month))
      ensures r.Some? ==> r.value == Count(Snapshot(), org, month) == Count(old(Snapshot()), org, month) + 1
      ensures r.None? ==> Snapshot() == old(Snapshot())
    {
      var current := GetUsage(org, month);
      RunSnoc(ops, Try(org, month, limit));
      ops := ops + [Try(org, month, limit)];
      if limit != UNLIMITED && current >= limit {
        return None;
      }
      if (org, month) in usage {
        usage := usage[(org, month) := usage[(org, month)] + 1];
      } else {
        usage := usage[(org, month) := 1];
      }
      return Some(usage[(org, month)]);
    }

    /** `update_subscription`. */
    method UpdateSubscription(org: string, sub: Subscription)
      requires Valid()
      modifies this`subscriptions, this`ops
      ensures Valid() && ops == old(ops) + [Update(org, sub)]
      ensures old(LimitsWereRead(ops)) ==> LimitsWereRead(ops)
      ensures Snapshot() == Step(old(Snapshot()), Update(org, sub))
    {
      RunSnoc(ops, Update(org, sub));
      if LimitsWereRead(ops) { ReadLimitAppends(ops, Update(org, sub), 0); }
      ops := ops + [Update(org, sub)];
      if org in subscriptions {
        var was := subscriptions[org];
        subscriptions := subscriptions[org := Subscription(
          sub.plan, sub.status,
          if sub.customerId.Some? then sub.customerId else was.customerId,
          if sub.subscriptionId.Some? then sub.subscriptionId else was.subscriptionId)];
      } else {
        subscriptions := subscriptions[org := sub];
      }
    }

    /** The quota part of `diagnose`: a granted diagnosis costs one, a refused one nothing. */
    method Diagnose(org: string, month: string) returns (r: Option<nat>)
      requires Valid()
      modifies this`usage, this`ops
      ensures Valid() && ops == old(ops) + [Try(org, month, PlanLimit(Run(old(ops)), org))]
      ensures old(LimitsWereRead(ops)) ==> LimitsWereRead(ops)
      ensures r.Some? <==> Grants(PlanLimit(old(Snapshot()), org), Count(old(Snapshot()), org, month))
      ensures PlanLimit(old(Snapshot()), org) != UNLIMITED && r.Some? ==> r.value <= PlanLimit(old(Snapshot()), org)
    {
      var stored := if org in subscriptions then subscriptions[org].plan else "";
      var plan := if stored == "" then "free" else Lower(stored);
      if LimitsWereRead(ops) {
        assert ops[..|ops|] == ops;
        ReadLimitAppends(ops, Try(org, month, LimitOfPlan(plan)), |ops|);
      }
      r := TryIncrement(org, LimitOfPlan(plan), month);
    }
  }
}
