/** The billing views over the ClickHouse rows. */
module Cogs {
  import opened Calendar
  import opened Sums
  import opened SpendLoop
  import opened Ledgers
  import opened Keys

  /** The rows both queries select: the tenant's, in the current calendar month. */
  predicate Selected(e: Event, tenant: string, now: nat)
  {
    e.who.tenant == tenant && PeriodInt(Month(e.at)) == PeriodInt(Month(now))
  }

  function CustomerCost(tenant: string, customer: string, now: nat): Event -> int
  {
    (e: Event) => if Selected(e, tenant, now) && e.who.customer == customer then e.cost else 0
  }

  function TenantCost(tenant: string, now: nat): Event -> int
  {
    (e: Event) => if Selected(e, tenant, now) then e.cost else 0
  }

  /** cogs.Customer. */
  function Customer(rows: seq<Event>, tenant: string, customer: string, now: nat): int
  {
    Sum(rows, CustomerCost(tenant, customer, now))
  }

  ghost function Total(keys: set<string>, m: map<string, int>): int
    requires keys <= m.Keys
  {
    if keys == {} then 0
    else
      var k :| k in keys;
      m[k] + Total(keys - {k}, m)
  }

  lemma {:induction false} TotalPick(keys: set<string>, m: map<string, int>, k: string)
    requires keys <= m.Keys && k in keys
    ensures Total(keys, m) == m[k] + Total(keys - {k}, m)
    decreases keys
  {
    var j :| j in keys && Total(keys, m) == m[j] + Total(keys - {j}, m);
    if j == k {
    } else {
      TotalPick(keys - {j}, m, k);
      TotalPick(keys - {k}, m, j);
      assert keys - {j} - {k} == keys - {k} - {j};
    }
  }

  lemma {:induction false} TotalAgrees(keys: set<string>, m: map<string, int>, n: map<string, int>)
    requires keys <= m.Keys && keys <= n.Keys && forall k :: k in keys ==> m[k] == n[k]
    ensures Total(keys, m) == Total(keys, n)
    decreases keys
  {
    if keys == {} {
    } else {
      var k :| k in keys;
      TotalPick(keys, m, k);
      TotalPick(keys, n, k);
      TotalAgrees(keys - {k}, m, n);
    }
  }

  /** Adding to one entry adds to the total. */
  lemma TotalAfterAdd(m: map<string, int>, k: string, cost: int)
    ensures var n := m[k := (if k in m then m[k] else 0) + cost];
            Total(n.Keys, n) == Total(m.Keys, m) + cost
  {
    var n := m[k := (if k in m then m[k] else 0) + cost];
    TotalPick(n.Keys, n, k);
    TotalAgrees(n.Keys - {k}, m, n);
    if k in m {
      assert n.Keys == m.Keys;
      TotalPick(m.Keys, m, k);
    } else {
      assert n.Keys - {k} == m.Keys;
    }
  }

  predicate HasRows(rows: seq<Event>, tenant: string, customer: string, now: nat)
  {
    exists e :: e in rows && Selected(e, tenant, now) && e.who.customer == customer
  }

  /** The entry of one customer: none without selected rows, else what `Customer` answers. */
  ghost predicate EntryOk(out: map<string, int>, rows: seq<Event>, tenant: string, c: string, now: nat)
  {
    && (c in out <==> HasRows(rows, tenant, c, now))
    && (if c in out then out[c] else 0) == Customer(rows, tenant, c, now)
  }

  function Credit(out: map<string, int>, e: Event, tenant: string, now: nat): map<string, int>
  {
    if Selected(e, tenant, now) then
      out[e.who.customer := (if e.who.customer in out then out[e.who.customer] else 0) + e.cost]
    else out
  }

  lemma EntryStep(out: map<string, int>, rows: seq<Event>, e: Event, tenant: string, c: string, now: nat)
    requires EntryOk(out, rows, tenant, c, now)
    ensures EntryOk(Credit(out, e, tenant, now), rows + [e], tenant, c, now)
  {
    SumAppend(rows, e, CustomerCost(tenant, c, now));
    if HasRows(rows, tenant, c, now) {
      var f :| f in rows && Selected(f, tenant, now) && f.who.customer == c;
      assert f in rows + [e];
    }
    assert e in rows + [e];
  }

  lemma TotalStep(out: map<string, int>, rows: seq<Event>, e: Event, tenant: string, now: nat)
    requires Total(out.Keys, out) == Sum(rows, TenantCost(tenant, now))
    ensures var next := Credit(out, e, tenant, now); Total(next.Keys, next) == Sum(rows + [e], TenantCost(tenant, now))
  {
    SumAppend(rows, e, TenantCost(tenant, now));
    TotalAfterAdd(out, e.who.customer, e.cost);
  }

  /** cogs.ByCustomer: grouped by customer, with entries that sum to the tenant's month. */
  method ByCustomer(rows: seq<Event>, tenant: string, now: nat) returns (out: map<string, int>)
    ensures forall c :: EntryOk(out, rows, tenant, c, now)
    ensures Total(out.Keys, out) == Sum(rows, TenantCost(tenant, now))
  {
    out := map[];
    for i := 0 to |rows|
      invariant forall c :: EntryOk(out, rows[..i], tenant, c, now)
      invariant Total(out.Keys, out) == Sum(rows[..i], TenantCost(tenant, now))
    {
      assert rows[..i + 1] == rows[..i] + [rows[i]];
      forall c { EntryStep(out, rows[..i], rows[i], tenant, c, now); }
      TotalStep(out, rows[..i], rows[i], tenant, now);
      out := Credit(out, rows[i], tenant, now);
    }
    assert rows[..|rows|] == rows;
  }

  /** The query's calendar month is the spend key's. */
  lemma CustomerIsTheRowSum(rows: seq<Event>, tenant: string, customer: string, now: nat)
    ensures Customer(rows, tenant, customer, now) == Sum(rows, EventIn(Who(tenant, customer), Month(now)))
  {
    forall i | 0 <= i < |rows|
      ensures CustomerCost(tenant, customer, now)(rows[i]) == EventIn(Who(tenant, customer), Month(now))(rows[i])
    {
      if PeriodInt(Month(rows[i].at)) == PeriodInt(Month(now)) {
        PeriodIntIsInjective(Month(rows[i].at), Month(now));
      }
      assert rows[i].who == Who(tenant, customer) <==> rows[i].who.tenant == tenant && rows[i].who.customer == customer;
    }
    SumLe(rows, CustomerCost(tenant, customer, now), EventIn(Who(tenant, customer), Month(now)));
    SumLe(rows, EventIn(Who(tenant, customer), Month(now)), CustomerCost(tenant, customer, now));
  }

  /** What billing reports for a customer this month is never below what the budget service
      enforces against, in any state of any run; the difference is the unmatched rows. */
  lemma BillingCoversBudget(start: nat, config: Config, run: seq<Label>, tenant: string, customer: string)
    requires Valid(Start(start, config), run)
    ensures var s := Exec(Start(start, config), run);
            var who := Who(tenant, customer);
            Customer(s.rows, tenant, customer, s.now) - SpentNow(s, who) == Sum(s.copies, Unmatched(who, Month(s.now)))
    ensures var s := Exec(Start(start, config), run);
            SpentNow(s, Who(tenant, customer)) <= Customer(s.rows, tenant, customer, s.now)
  {
    var s := Exec(Start(start, config), run);
    LiveCounterIsComplete(start, config, run, Who(tenant, customer), Month(s.now));
    CounterNeverExceedsRows(start, config, run, Who(tenant, customer), Month(s.now));
    CustomerIsTheRowSum(s.rows, tenant, customer, s.now);
  }
}
