/** The `anomalies` endpoint: daily spends grouped by customer, then the rule applied to
    each customer's history. */
module AnomalyService {
  import opened Sums
  import opened Anomaly
  import opened AnomalyLaws

  /** One line of the daily query. */
  datatype DayRow = DayRow(customer: string, day: string, micros: int)

  /** The rows of one customer, in the query's order. */
  function HistoryOf(rows: seq<DayRow>, customer: string): seq<DayRow>
  {
    if rows == [] then []
    else
      var last := rows[|rows| - 1];
      HistoryOf(rows[..|rows| - 1], customer) + if last.customer == customer then [last] else []
  }

  function Values(points: seq<DayRow>): seq<int>
  {
    seq(|points|, i requires 0 <= i < |points| => points[i].micros)
  }

  function FlaggedOf(points: seq<DayRow>, values: seq<int>): seq<DayRow>
  {
    if points == [] then []
    else
      var last := points[|points| - 1];
      FlaggedOf(points[..|points| - 1], values) + if Flagged(values, last.micros) then [last] else []
  }

  lemma HistoryAppend(rows: seq<DayRow>, r: DayRow, customer: string)
    ensures HistoryOf(rows + [r], customer) == HistoryOf(rows, customer) + if r.customer == customer then [r] else []
  {
    assert (rows + [r])[..|rows|] == rows;
  }

  lemma {:induction false} HistoryConcat(a: seq<DayRow>, b: seq<DayRow>, customer: string)
    ensures HistoryOf(a + b, customer) == HistoryOf(a, customer) + HistoryOf(b, customer)
  {
    if b == [] {
      assert a + b == a;
    } else {
      var k := |b| - 1;
      assert a + b == (a + b[..k]) + [b[k]];
      HistoryAppend(a + b[..k], b[k], customer);
      HistoryConcat(a, b[..k], customer);
    }
  }

  lemma {:induction false} HistoryIsOneCustomer(rows: seq<DayRow>, customer: string)
    ensures forall r :: r in HistoryOf(rows, customer) <==> r in rows && r.customer == customer
  {
    if rows == [] {
    } else {
      var k := |rows| - 1;
      assert rows == rows[..k] + [rows[k]];
      HistoryIsOneCustomer(rows[..k], customer);
    }
  }

  /** Flags taken from one customer's points concern no other customer. */
  lemma {:induction false} HistoryOfFlags(points: seq<DayRow>, values: seq<int>, owner: string, customer: string)
    requires forall r :: r in points ==> r.customer == owner
    ensures HistoryOf(FlaggedOf(points, values), customer)
         == if customer == owner then FlaggedOf(points, values) else []
  {
    if points == [] {
    } else {
      var k := |points| - 1;
      assert points == points[..k] + [points[k]];
      HistoryOfFlags(points[..k], values, owner, customer);
      var before := FlaggedOf(points[..k], values);
      assert before + [] == before && HistoryOf(before, customer) + [] == HistoryOf(before, customer);
      if Flagged(values, points[k].micros) {
        HistoryAppend(FlaggedOf(points[..k], values), points[k], customer);
      }
    }
  }

  lemma FlaggedAppend(points: seq<DayRow>, r: DayRow, values: seq<int>)
    ensures FlaggedOf(points + [r], values) == FlaggedOf(points, values) + if Flagged(values, r.micros) then [r] else []
  {
    assert (points + [r])[..|points|] == points;
  }

  /** The flagged points are counted by the weight of the selectivity theorem. */
  lemma {:induction false} FlaggedCount(points: seq<DayRow>, values: seq<int>)
    requires forall r :: r in points ==> r.micros in values
    ensures |FlaggedOf(points, values)| == Sum(Values(points), Mark(values))
  {
    if points == [] {
    } else {
      var k := |points| - 1;
      assert points == points[..k] + [points[k]];
      assert Values(points)[..k] == Values(points[..k]);
      FlaggedCount(points[..k], values);
      GuardsAreRedundant(values, points[k].micros);
    }
  }

  lemma HistorySelectivity(points: seq<DayRow>)
    requires points != []
    ensures 10 * |FlaggedOf(points, Values(points))| < |points|
  {
    forall r | r in points ensures r.micros in Values(points) {
      var i :| 0 <= i < |points| && points[i] == r;
      assert Values(points)[i] == r.micros;
    }
    FlaggedCount(points, Values(points));
    FewerThanATenth(Values(points));
  }

  /** The report for the rows: each customer's flags are the rule's, in the order of days. */
  ghost predicate Reports(flagged: seq<DayRow>, rows: seq<DayRow>, customer: string)
  {
    HistoryOf(flagged, customer) == FlaggedOf(HistoryOf(rows, customer), Values(HistoryOf(rows, customer)))
  }

  /** The first loop: `series` maps each customer to its history, and `customers` lists
      the keys in insertion order. */
  method Group(rows: seq<DayRow>) returns (series: map<string, seq<DayRow>>, customers: seq<string>)
    ensures forall c :: c in customers <==> c in series
    ensures forall a, b :: 0 <= a < b < |customers| ==> customers[a] != customers[b]
    ensures forall c :: c in series ==> series[c] == HistoryOf(rows, c)
    ensures forall c :: c !in series ==> HistoryOf(rows, c) == []
  {
    series, customers := map[], [];
    for i := 0 to |rows|
      invariant forall c :: c in customers <==> c in series
      invariant forall a, b :: 0 <= a < b < |customers| ==> customers[a] != customers[b]
      invariant forall c :: c in series ==> series[c] == HistoryOf(rows[..i], c)
      invariant forall c :: c !in series ==> HistoryOf(rows[..i], c) == []
    {
      var r := rows[i];
      assert rows[..i + 1] == rows[..i] + [r];
      forall c
        ensures HistoryOf(rows[..i + 1], c)
             == if r.customer == c then HistoryOf(rows[..i], c) + [r] else HistoryOf(rows[..i], c)
      {
        HistoryAppend(rows[..i], r, c);
      }
      if r.customer !in series {
        customers := customers + [r.customer];
        series := series[r.customer := []];
      }
      series := series[r.customer := series[r.customer] + [r]];
    }
    assert rows[..|rows|] == rows;
  }

  /** The customers done so far are reported, and no one else is. */
  ghost predicate ReportedSoFar(flagged: seq<DayRow>, rows: seq<DayRow>, done: seq<string>)
  {
    forall c :: if c in done then Reports(flagged, rows, c) else HistoryOf(flagged, c) == []
  }

  lemma AddedTo(flagged: seq<DayRow>, rows: seq<DayRow>, customer: string, c: string)
    ensures var found := FlaggedOf(HistoryOf(rows, customer), Values(HistoryOf(rows, customer)));
            HistoryOf(flagged + found, c)
            == if c == customer then HistoryOf(flagged, c) + found else HistoryOf(flagged, c)
  {
    var points := HistoryOf(rows, customer);
    HistoryIsOneCustomer(rows, customer);
    HistoryConcat(flagged, FlaggedOf(points, Values(points)), c);
    HistoryOfFlags(points, Values(points), customer, c);
  }

  lemma ReportStep(flagged: seq<DayRow>, rows: seq<DayRow>, done: seq<string>, customer: string)
    requires ReportedSoFar(flagged, rows, done) && customer !in done
    ensures var points := HistoryOf(rows, customer);
            ReportedSoFar(flagged + FlaggedOf(points, Values(points)), rows, done + [customer])
  {
    forall c { AddedTo(flagged, rows, customer, c); }
  }

  lemma ReportSelectivity(flagged: seq<DayRow>, rows: seq<DayRow>)
    requires forall customer :: Reports(flagged, rows, customer)
    ensures forall customer :: HistoryOf(rows, customer) != [] ==>
              10 * |HistoryOf(flagged, customer)| < |HistoryOf(rows, customer)|
  {
    forall customer | HistoryOf(rows, customer) != []
      ensures 10 * |HistoryOf(flagged, customer)| < |HistoryOf(rows, customer)|
    {
      assert Reports(flagged, rows, customer);
      HistorySelectivity(HistoryOf(rows, customer));
    }
  }

  lemma {:induction false} NothingFlagged(points: seq<DayRow>, values: seq<int>)
    requires |values| < 3 || Spread(values) <= 0
    ensures FlaggedOf(points, values) == []
  {
    if points == [] {
    } else {
      NothingFlagged(points[..|points| - 1], values);
    }
  }

  /** The inner loop for one customer, with the two early `continue`s. */
  method FlagHistory(points: seq<DayRow>) returns (found: seq<DayRow>)
    ensures found == FlaggedOf(points, Values(points))
  {
    var values := Values(points);
    found := [];
    if |values| < 3 || Spread(values) <= 0 {
      NothingFlagged(points, values);
      return;
    }
    for i := 0 to |points|
      invariant found == FlaggedOf(points[..i], values)
    {
      assert points[..i + 1] == points[..i] + [points[i]];
      FlaggedAppend(points[..i], points[i], values);
      if AboveThreeSigma(values, points[i].micros) {
        found := found + [points[i]];
      }
    }
    assert points[..|points|] == points;
  }

  method Anomalies(rows: seq<DayRow>) returns (flagged: seq<DayRow>)
    ensures forall customer :: Reports(flagged, rows, customer)
    ensures forall customer :: HistoryOf(rows, customer) != [] ==>
              10 * |HistoryOf(flagged, customer)| < |HistoryOf(rows, customer)|
  {
    var series, customers := Group(rows);
    flagged := [];
    for k := 0 to |customers|
      invariant ReportedSoFar(flagged, rows, customers[..k])
    {
      var found := FlagHistory(series[customers[k]]);
      ReportStep(flagged, rows, customers[..k], customers[k]);
      assert customers[..k + 1] == customers[..k] + [customers[k]];
      flagged := flagged + found;
    }
    assert customers[..|customers|] == customers;
    ReportSelectivity(flagged, rows);
  }

  /** Positions in increasing order. */
  predicate Increasing(positions: seq<nat>, n: nat)
  {
    && (forall k :: 0 <= k < |positions| ==> positions[k] < n)
    && (forall j, k :: 0 <= j < k < |positions| ==> positions[j] < positions[k])
  }

  /** picked are the rows at the given positions. */
  predicate Picks(picked: seq<DayRow>, rows: seq<DayRow>, positions: seq<nat>)
  {
    && |picked| == |positions| && Increasing(positions, |rows|)
    && forall k :: 0 <= k < |picked| ==> picked[k] == rows[positions[k]]
  }

  lemma PicksGrow(picked: seq<DayRow>, rows: seq<DayRow>, positions: seq<nat>, r: DayRow, take: bool)
    requires Picks(picked, rows, positions)
    ensures Picks(picked + if take then [r] else [], rows + [r], positions + if take then [|rows|] else [])
  {
  }

  /** A customer's history is the rows of that customer, all of them, in their order. */
  lemma {:induction false} HistoryIsInOrder(rows: seq<DayRow>, customer: string) returns (positions: seq<nat>)
    ensures Picks(HistoryOf(rows, customer), rows, positions)
    ensures forall i :: 0 <= i < |rows| ==> (i in positions <==> rows[i].customer == customer)
  {
    if rows == [] {
      positions := [];
    } else {
      var k := |rows| - 1;
      positions := HistoryIsInOrder(rows[..k], customer);
      if rows[k].customer == customer {
        positions := positions + [k];
      }
    }
  }

  /** The reported days are the flagged ones, all of them, in their order. */
  lemma {:induction false} ReportIsInOrder(points: seq<DayRow>, values: seq<int>) returns (positions: seq<nat>)
    ensures Picks(FlaggedOf(points, values), points, positions)
    ensures forall i :: 0 <= i < |points| ==> (i in positions <==> Flagged(values, points[i].micros))
  {
    if points == [] {
      positions := [];
    } else {
      var k := |points| - 1;
      var take := Flagged(values, points[k].micros);
      var before := ReportIsInOrder(points[..k], values);
      assert points == points[..k] + [points[k]];
      FlaggedAppend(points[..k], points[k], values);
      PicksGrow(FlaggedOf(points[..k], values), points[..k], before, points[k], take);
      positions := before + if take then [k] else [];
    }
  }
}
