/** How the services print their Redis keys and month labels. */
module Keys {
  import opened Calendar
  import opened SpendLoop
  import opened Text

  function Digit(d: nat): char
    requires d < 10
  {
    ('0' as int + d) as char
  }

  /** n with at least `width` digits. */
  function Decimal(n: nat, width: nat): (s: string)
    ensures |s| >= width
    ensures forall k :: 0 <= k < |s| ==> '0' <= s[k] <= '9'
    decreases n + width
  {
    if n == 0 && width == 0 then []
    else Decimal(n / 10, if width == 0 then 0 else width - 1) + [Digit(n % 10)]
  }

  function Number(s: string): int
  {
    if s == [] then 0 else 10 * Number(s[..|s| - 1]) + (s[|s| - 1] as int - '0' as int)
  }

  lemma {:induction false} DecimalReadsBack(n: nat, width: nat)
    ensures Number(Decimal(n, width)) == n
    decreases n + width
  {
    if n == 0 && width == 0 {
    } else {
      var w := if width == 0 then 0 else width - 1;
      DecimalReadsBack(n / 10, w);
      assert Decimal(n, width)[..|Decimal(n / 10, w)|] == Decimal(n / 10, w);
    }
  }

  function Power10(k: nat): nat { if k == 0 then 1 else 10 * Power10(k - 1) }

  lemma {:induction false} DecimalWidth(n: nat, width: nat, bound: nat)
    requires 0 < width && n < bound && bound == Power10(width)
    ensures |Decimal(n, width)| == width
    decreases width
  {
    if width == 1 {
      assert Power10(0) == 1;
      assert Decimal(n / 10, 0) == [];
    } else {
      DecimalWidth(n / 10, width - 1, Power10(width - 1));
    }
  }

  function Year(month: nat): nat { 1970 + month / 12 }

  /** spend.Period: the layout 200601. */
  function Label(month: nat): string
  {
    Decimal(Year(month), 4) + Decimal(month % 12 + 1, 2)
  }

  /** cogs.periodInt. */
  function PeriodInt(month: nat): nat
  {
    Year(month) * 100 + month % 12 + 1
  }

  lemma NumberAppend(a: string, c: char)
    ensures Number(a + [c]) == 10 * Number(a) + (c as int - '0' as int)
  {
    assert (a + [c])[..|a|] == a;
  }

  /** Two digits behind a number multiply it by a hundred. */
  lemma NumberAppendTwo(a: string, b: string)
    requires |b| == 2
    ensures Number(a + b) == 100 * Number(a) + Number(b)
  {
    assert a + b == (a + [b[0]]) + [b[1]];
    assert b == ([] + [b[0]]) + [b[1]];
    NumberAppend(a + [b[0]], b[1]);
    NumberAppend(a, b[0]);
    NumberAppend([] + [b[0]], b[1]);
    NumberAppend([], b[0]);
  }

  lemma PowersOfTen()
    ensures Power10(2) == 100 && Power10(4) == 10000
  {
    assert Power10(1) == 10 && Power10(3) == 1000;
  }

  /** The two spellings of a month agree up to the year 9999 ... */
  lemma LabelIsPeriodInt(month: nat)
    requires Year(month) < 10000
    ensures |Label(month)| == 6 && Number(Label(month)) == PeriodInt(month)
  {
    var y, m := Year(month), month % 12 + 1;
    PowersOfTen();
    DecimalWidth(y, 4, 10000);
    DecimalWidth(m, 2, 100);
    DecimalReadsBack(y, 4);
    DecimalReadsBack(m, 2);
    NumberAppendTwo(Decimal(y, 4), Decimal(m, 2));
  }

  /** ... and both order months as time does. */
  lemma PeriodsAreMonotone(t: nat, u: nat)
    requires t <= u
    ensures PeriodInt(Month(t)) <= PeriodInt(Month(u))
    ensures Month(t) < Month(u) ==> PeriodInt(Month(t)) < PeriodInt(Month(u))
  {
    MonthMonotone(t, u);
    var a, b := Month(t), Month(u);
    assert a / 12 <= b / 12;
  }

  lemma PeriodIntIsInjective(a: nat, b: nat)
    requires PeriodInt(a) == PeriodInt(b)
    ensures a == b
  {
    assert Year(a) == Year(b) by {
      assert a % 12 + 1 < 100 && b % 12 + 1 < 100;
    }
  }

  // ---- Keys ---------------------------------------------------------------------------

  function Print(k: Key): string
  {
    match k
    case SpendKey(w, month) => "spend:" + w.tenant + ":" + w.customer + ":" + Label(month)
    case LimitKey(w) => "limit:" + w.tenant + ":" + w.customer
    case RateKey(w, bucket) => "rl:" + w.tenant + ":" + w.customer + ":" + Decimal(bucket, 1)
  }

  /** The tenant holds no colon and the year has four digits. */
  predicate Ordinary(k: Key)
  {
    ':' !in k.who.tenant && (k.SpendKey? ==> Year(k.month) < 10000)
  }

  lemma FirstColon(a: string, x: string, b: string, y: string)
    requires ':' !in a && ':' !in b && a + ":" + x == b + ":" + y
    ensures a == b && x == y
  {
    var s := a + ":" + x;
    assert s == b + ":" + y;
    assert s[|a|] == ':' && s[|b|] == ':';
    assert a == s[..|a|] && b == s[..|b|];
    assert x == s[|a| + 1..] && y == s[|b| + 1..];
  }

  lemma LastColon(a: string, x: string, b: string, y: string)
    requires ':' !in x && ':' !in y && a + ":" + x == b + ":" + y
    ensures a == b && x == y
  {
    var s := a + ":" + x;
    assert s == b + ":" + y;
    assert s[|a|] == ':' && s[|b|] == ':';
    assert a == s[..|a|] && b == s[..|b|];
    assert x == s[|a| + 1..] && y == s[|b| + 1..];
  }

  lemma PrefixCancels(p: string, x: string, y: string)
    requires p + x == p + y
    ensures x == y
  {
    assert x == (p + x)[|p|..] && y == (p + y)[|p|..];
  }

  lemma LabelIsInjective(a: nat, b: nat)
    requires Year(a) < 10000 && Year(b) < 10000 && Label(a) == Label(b)
    ensures a == b
  {
    LabelIsPeriodInt(a);
    LabelIsPeriodInt(b);
    PeriodIntIsInjective(a, b);
  }

  /** The tail of a spend or rate key determines customer and suffix, whatever colons the
      customer holds. */
  lemma TailsDiffer(p: string, v: Who, x: string, w: Who, y: string)
    requires ':' !in v.tenant && ':' !in w.tenant && ':' !in x && ':' !in y
    requires p + v.tenant + ":" + v.customer + ":" + x == p + w.tenant + ":" + w.customer + ":" + y
    ensures v == w && x == y
  {
    var a, b := v.customer + ":" + x, w.customer + ":" + y;
    assert p + v.tenant + ":" + v.customer + ":" + x == p + (v.tenant + ":" + a);
    assert p + w.tenant + ":" + w.customer + ":" + y == p + (w.tenant + ":" + b);
    PrefixCancels(p, v.tenant + ":" + a, w.tenant + ":" + b);
    FirstColon(v.tenant, a, w.tenant, b);
    LastColon(v.customer, x, w.customer, y);
  }

  /** Key families: printing is injective on all keys together, so each family is injective
      in all its components and the families are pairwise disjoint. */
  lemma PrintIsInjective(k: Key, l: Key)
    requires Ordinary(k) && Ordinary(l) && Print(k) == Print(l)
    ensures k == l
  {
    assert Print(k)[0] == Print(l)[0];
    match k {
      case SpendKey(v, a) =>
        assert l.SpendKey?;
        TailsDiffer("spend:", v, Label(a), l.who, Label(l.month));
        LabelIsInjective(a, l.month);
      case RateKey(v, a) =>
        assert l.RateKey?;
        TailsDiffer("rl:", v, Decimal(a, 1), l.who, Decimal(l.bucket, 1));
        DecimalReadsBack(a, 1);
        DecimalReadsBack(l.bucket, 1);
      case LimitKey(v) =>
        assert l.LimitKey?;
        var w := l.who;
        assert Print(k) == "limit:" + (v.tenant + ":" + v.customer);
        assert Print(l) == "limit:" + (w.tenant + ":" + w.customer);
        PrefixCancels("limit:", v.tenant + ":" + v.customer, w.tenant + ":" + w.customer);
        FirstColon(v.tenant, v.customer, w.tenant, w.customer);
    }
  }

  /** A colon in a tenant shifts part of it into the customer. */
  lemma ColonsInTenantsCollide(a: string, b: string, c: string, month: nat)
    ensures Print(SpendKey(Who(a + ":" + b, c), month)) == Print(SpendKey(Who(a, b + ":" + c), month))
  {
    assert "spend:" + (a + ":" + b) + ":" + c == "spend:" + a + ":" + (b + ":" + c);
  }

  /** A spend key is shared with another, ordinary one exactly if its tenant holds a colon. */
  lemma SharedIffColonInTenant(k: Key)
    requires k.SpendKey? && Year(k.month) < 10000
    ensures (exists l :: l != k && Ordinary(l) && Print(l) == Print(k)) <==> ':' in k.who.tenant
  {
    if ':' in k.who.tenant {
      var cut := CutAt(k.who.tenant, ':');
      assert k.who.tenant == cut.before + ":" + cut.after;
      var l := SpendKey(Who(cut.before, cut.after + ":" + k.who.customer), k.month);
      ColonsInTenantsCollide(cut.before, cut.after, k.who.customer, k.month);
      assert Print(l) == Print(k) && Ordinary(l) && l != k;
    } else if l :| l != k && Ordinary(l) && Print(l) == Print(k) {
      PrintIsInjective(k, l);
    }
  }

  /** What the keys look like. */
  lemma SomeKeys(month: nat)
    ensures Print(SpendKey(Who("t", "c"), month)) == "spend:t:c:" + Label(month)
    ensures Print(LimitKey(Who("t", "c"))) == "limit:t:c" && Print(RateKey(Who("t", "c"), 7)) == "rl:t:c:7"
  {
    assert "spend:" + "t" + ":" + "c" + ":" == "spend:t:c:";
    assert Decimal(7, 1) == Decimal(0, 0) + [Digit(7)];
  }
}
