/** UTC calendar months of shared/spend, counted from January 1970; times are seconds
    since then. */
module Calendar {

  const DAY: nat := 86400

  /** Days of month k, where k = 0 is January 1970. */
  function DaysIn(k: nat): (d: nat)
    ensures 28 <= d <= 31
  {
    var year, month := 1970 + k / 12, k % 12;
    if month == 1 then
      if year % 4 == 0 && (year % 100 != 0 || year % 400 == 0) then 29 else 28
    else if month == 3 || month == 5 || month == 8 || month == 10 then 30
    else 31
  }

  /** First second of month k. */
  function MonthStart(k: nat): nat
  {
    if k == 0 then 0 else MonthStart(k - 1) + DaysIn(k - 1) * DAY
  }

  function MonthFrom(k: nat, t: nat): (r: nat)
    requires MonthStart(k) <= t
    ensures MonthStart(r) <= t < MonthStart(r + 1)
    decreases t - MonthStart(k)
  {
    if t < MonthStart(k + 1) then k else MonthFrom(k + 1, t)
  }

  /** The month containing second t. */
  function Month(t: nat): (k: nat)
    ensures MonthStart(k) <= t < MonthStart(k + 1)
  {
    MonthFrom(0, t)
  }

  lemma {:induction false} MonthStartMonotone(j: nat, k: nat)
    requires j <= k
    ensures MonthStart(j) <= MonthStart(k)
    ensures j < k ==> MonthStart(j) < MonthStart(k)
    decreases k
  {
    if j == k {
    } else {
      MonthStartMonotone(j, k - 1);
    }
  }

  /** A second lies in exactly one month. */
  lemma MonthUnique(k: nat, t: nat)
    requires MonthStart(k) <= t < MonthStart(k + 1)
    ensures Month(t) == k
  {
    var r := Month(t);
    if r < k {
      MonthStartMonotone(r + 1, k);
    } else if k < r {
      MonthStartMonotone(k + 1, r);
    }
  }

  lemma MonthMonotone(t: nat, u: nat)
    requires t <= u
    ensures Month(t) <= Month(u)
  {
    if Month(u) < Month(t) {
      MonthStartMonotone(Month(u) + 1, Month(t));
    }
  }
}
