/** Choosing the benchmark's finalists: a Pareto filter, a tie range, and a sort by cost. */
module BenchmarkSelection {
  import opened Prelude
  import Sorting

  datatype Row = Row(
    configId: string,
    complete: bool,
    comparable: int,
    attempted: int,
    p95: Option<real>,
    cpu: Option<real>,
    peak: Option<real>,
    inFlight: Option<int>)

  /** A cost that is missing or zero counts as infinite. */
  datatype Cost = Finite(amount: real) | Infinite

  function CostOf(measured: Option<real>): Cost {
    if measured.None? || measured.value == 0.0 then Infinite else Finite(measured.value)
  }

  predicate AtMost(a: Cost, b: Cost) {
    b.Infinite? || (a.Finite? && a.amount <= b.amount)
  }

  predicate Below(a: Cost, b: Cost) {
    AtMost(a, b) && a != b
  }

  predicate IsValid(row: Row) {
    row.complete && row.comparable == row.attempted && row.p95.Some?
  }

  /** All that the selection looks at once a row is valid. */
  datatype Measured = Measured(configId: string, p95: real, cpu: Cost, peak: Cost, inFlight: int)

  function Measure(row: Row): Measured
    requires IsValid(row)
  {
    Measured(row.configId, row.p95.value, CostOf(row.cpu), CostOf(row.peak),
             if row.inFlight.None? || row.inFlight.value == 0 then 999 else row.inFlight.value)
  }

  predicate Dominates(other: Measured, candidate: Measured) {
    && other.p95 <= candidate.p95
    && AtMost(other.cpu, candidate.cpu)
    && AtMost(other.peak, candidate.peak)
    && (other.p95 < candidate.p95
        || Below(other.cpu, candidate.cpu)
        || Below(other.peak, candidate.peak))
  }

  function ValidRows(rows: seq<Row>): seq<Measured> {
    if rows == [] then []
    else
      var rest, row := ValidRows(rows[..|rows| - 1]), rows[|rows| - 1];
      if IsValid(row) then rest + [Measure(row)] else rest
  }

  lemma {:induction false} ValidRowsMember(rows: seq<Row>, x: Measured)
    ensures x in ValidRows(rows) <==> exists row :: row in rows && IsValid(row) && Measure(row) == x
  {
    if rows != [] {
      ValidRowsMember(rows[..|rows| - 1], x);
      assert rows == rows[..|rows| - 1] + [rows[|rows| - 1]];
    }
  }

  predicate Dominated(valid: seq<Measured>, candidate: Measured) {
    exists i | 0 <= i < |valid| :: Dominates(valid[i], candidate)
  }

  /** The candidates no valid row dominates, in order. */
  function Undominated(valid: seq<Measured>, candidates: seq<Measured>): seq<Measured> {
    if candidates == [] then []
    else
      var rest, row := Undominated(valid, candidates[..|candidates| - 1]), candidates[|candidates| - 1];
      if Dominated(valid, row) then rest else rest + [row]
  }

  lemma {:induction false} UndominatedMember(valid: seq<Measured>, candidates: seq<Measured>, x: Measured)
    ensures x in Undominated(valid, candidates) <==> x in candidates && !Dominated(valid, x)
  {
    if candidates != [] {
      UndominatedMember(valid, candidates[..|candidates| - 1], x);
      assert candidates == candidates[..|candidates| - 1] + [candidates[|candidates| - 1]];
    }
  }

  function Fastest(rows: seq<Measured>): real
    requires rows != []
  {
    var last := rows[|rows| - 1].p95;
    if |rows| == 1 then last
    else
      var f := Fastest(rows[..|rows| - 1]);
      if last < f then last else f
  }

  lemma {:induction false} FastestIsMinimum(rows: seq<Measured>, x: Measured)
    requires x in rows
    ensures Fastest(rows) <= x.p95
  {
    var init, last := rows[..|rows| - 1], rows[|rows| - 1];
    assert rows == init + [last];
    if x in init {
      FastestIsMinimum(init, x);
    }
  }

  lemma {:induction false} FastestIsAttained(rows: seq<Measured>) returns (x: Measured)
    requires rows != []
    ensures x in rows && Fastest(rows) == x.p95
  {
    var init, last := rows[..|rows| - 1], rows[|rows| - 1];
    x := last;
    if init != [] && Fastest(init) <= last.p95 {
      x := FastestIsAttained(init);
      assert rows == init + [last];
    }
  }

  function Tie(fastest: real): real {
    if fastest * 0.1 > 50.0 then fastest * 0.1 else 50.0
  }

  function Within(rows: seq<Measured>, bound: real): seq<Measured> {
    if rows == [] then []
    else
      var rest, row := Within(rows[..|rows| - 1], bound), rows[|rows| - 1];
      if row.p95 <= bound then rest + [row] else rest
  }

  lemma {:induction false} WithinMember(rows: seq<Measured>, bound: real, x: Measured)
    ensures x in Within(rows, bound) <==> x in rows && x.p95 <= bound
  {
    if rows != [] {
      WithinMember(rows[..|rows| - 1], bound, x);
      assert rows == rows[..|rows| - 1] + [rows[|rows| - 1]];
    }
  }

  /** The sort key: CPU, memory peak, in-flight bound, p95. */
  predicate KeyAtMost(a: Measured, b: Measured) {
    || Below(a.cpu, b.cpu)
    || (a.cpu == b.cpu
        && (|| Below(a.peak, b.peak)
            || (a.peak == b.peak
                && (a.inFlight < b.inFlight || (a.inFlight == b.inFlight && a.p95 <= b.p95)))))
  }

  function SortedByKey(rows: seq<Measured>): (r: seq<Measured>)
    ensures |r| == |rows|
  {
    Sorting.Sort(rows, KeyAtMost)
  }

  lemma KeyOrder()
    ensures Sorting.TotalPreorder(KeyAtMost)
  {
  }

  lemma SortedByKeyMember(rows: seq<Measured>, x: Measured)
    ensures x in SortedByKey(rows) <==> x in rows
  {
    KeyOrder();
    Sorting.SortMember(rows, KeyAtMost, x);
  }

  ghost predicate OrderedByKey(rows: seq<Measured>) {
    forall i, j | 0 <= i <= j < |rows| :: KeyAtMost(rows[i], rows[j])
  }

  lemma SortedByKeyIsOrdered(rows: seq<Measured>)
    ensures OrderedByKey(SortedByKey(rows))
  {
    KeyOrder();
    Sorting.SortOrders(rows, KeyAtMost);
  }

  /** The rows within the tie range of the fastest of them. */
  function WithinTie(pareto: seq<Measured>): seq<Measured>
    requires pareto != []
  {
    Within(pareto, Fastest(pareto) + Tie(Fastest(pareto)))
  }

  /** The Pareto rows within the tie range of the fastest. */
  function Eligible(valid: seq<Measured>): seq<Measured>
    requires valid != []
  {
    ParetoKeepsTheFastest(valid);
    WithinTie(Undominated(valid, valid))
  }

  function FirstTwo(rows: seq<Measured>): seq<Measured> {
    if |rows| <= 2 then rows else rows[..2]
  }

  /** The rows `_select_finalists` picks. */
  function Finalists(rows: seq<Row>): seq<Measured> {
    var valid := ValidRows(rows);
    if valid == [] then [] else FirstTwo(SortedByKey(Eligible(valid)))
  }

  /** The first of the rows in the order (p95, CPU, peak). */
  predicate Precedes(a: Measured, b: Measured) {
    || a.p95 < b.p95
    || (a.p95 == b.p95
        && (|| Below(a.cpu, b.cpu)
            || (a.cpu == b.cpu && AtMost(a.peak, b.peak))))
  }

  lemma {:induction false} FirstExists(rows: seq<Measured>) returns (first: Measured)
    requires rows != []
    ensures first in rows && forall x | x in rows :: Precedes(first, x)
  {
    var init, last := rows[..|rows| - 1], rows[|rows| - 1];
    assert rows == init + [last];
    if init == [] {
      first := last;
    } else {
      var f := FirstExists(init);
      first := if Precedes(f, last) then f else last;
    }
  }

  /** Domination has no cycles, so some valid row is undominated, and one of the fastest valid rows is. */
  lemma ParetoKeepsTheFastest(valid: seq<Measured>)
    requires valid != []
    ensures Undominated(valid, valid) != []
    ensures Fastest(Undominated(valid, valid)) == Fastest(valid)
  {
    var first := FirstExists(valid);
    assert !Dominated(valid, first) by {
      forall i | 0 <= i < |valid|
        ensures !Dominates(valid[i], first)
      {
        assert Precedes(first, valid[i]);
      }
    }
    var pareto := Undominated(valid, valid);
    UndominatedMember(valid, valid, first);
    var x := FastestIsAttained(valid);
    var y := FastestIsAttained(pareto);
    FastestIsMinimum(pareto, first);
    UndominatedMember(valid, valid, y);
    FastestIsMinimum(valid, y);
  }

  lemma TieIsWide(fastest: real)
    ensures Tie(fastest) >= 50.0
  {
  }

  lemma SomeWithin(pareto: seq<Measured>)
    requires pareto != []
    ensures WithinTie(pareto) != []
  {
    var best := FastestIsAttained(pareto);
    TieIsWide(Fastest(pareto));
    WithinMember(pareto, Fastest(pareto) + Tie(Fastest(pareto)), best);
  }

  lemma SomeRowIsEligible(valid: seq<Measured>)
    requires valid != []
    ensures Eligible(valid) != []
  {
    ParetoKeepsTheFastest(valid);
    SomeWithin(Undominated(valid, valid));
  }

  /** A row is eligible exactly when it is valid, undominated and within the tie range of the fastest valid row. */
  lemma EligibleExactly(valid: seq<Measured>, x: Measured)
    requires valid != []
    ensures x in Eligible(valid) <==>
            x in valid && !Dominated(valid, x) && x.p95 <= Fastest(valid) + Tie(Fastest(valid))
  {
    ParetoKeepsTheFastest(valid);
    WithinTieMember(Undominated(valid, valid), Fastest(valid), x);
    UndominatedMember(valid, valid, x);
  }

  lemma WithinTieMember(pareto: seq<Measured>, fastest: real, x: Measured)
    requires pareto != [] && Fastest(pareto) == fastest
    ensures x in WithinTie(pareto) <==> x in pareto && x.p95 <= fastest + Tie(fastest)
  {
    WithinMember(pareto, fastest + Tie(fastest), x);
  }

  lemma FirstTwoAreLeast(eligible: seq<Measured>, x: Measured, y: Measured)
    requires x in FirstTwo(SortedByKey(eligible)) && y in eligible
    ensures x in eligible && (y in FirstTwo(SortedByKey(eligible)) || KeyAtMost(x, y))
  {
    var sorted := SortedByKey(eligible);
    SortedByKeyIsOrdered(eligible);
    SortedByKeyMember(eligible, x);
    SortedByKeyMember(eligible, y);
    var j :| 0 <= j < |sorted| && sorted[j] == y;
    var i :| 0 <= i < |FirstTwo(sorted)| && FirstTwo(sorted)[i] == x;
    assert sorted[i] == x;
    if j < |FirstTwo(sorted)| {
      assert FirstTwo(sorted)[j] == y;
    }
  }

  /** One or two finalists come back, and two whenever two rows are eligible. */
  lemma OneOrTwoFinalists(rows: seq<Row>)
    requires ValidRows(rows) != []
    ensures var eligible := |Eligible(ValidRows(rows))|;
            eligible >= 1 && |Finalists(rows)| == if eligible == 1 then 1 else 2
  {
    SomeRowIsEligible(ValidRows(rows));
  }

  /**
   Each finalist is a valid, undominated row within the tie range of the fastest
   valid row, and no such row with a smaller sort key was passed over.
   */
  lemma FinalistsAreSound(rows: seq<Row>, x: Measured, y: Measured)
    requires x in Finalists(rows)
    ensures var valid := ValidRows(rows);
            var bound := Fastest(valid) + Tie(Fastest(valid));
            && (exists row :: row in rows && IsValid(row) && Measure(row) == x)
            && !Dominated(valid, x) && x.p95 <= bound
            && (y in valid && !Dominated(valid, y) && y.p95 <= bound ==> y in Finalists(rows) || KeyAtMost(x, y))
  {
    var valid := ValidRows(rows);
    EligibleExactly(valid, x);
    EligibleExactly(valid, y);
    ValidRowsMember(rows, x);
    FinalistsAreLeast(valid, x, y);
  }

  /** Of two finalists the one with the smaller sort key comes first. */
  lemma FinalistsAreOrdered(rows: seq<Row>)
    ensures |Finalists(rows)| == 2 ==> KeyAtMost(Finalists(rows)[0], Finalists(rows)[1])
  {
    var valid := ValidRows(rows);
    if valid != [] {
      FirstTwoAreOrdered(Eligible(valid));
    }
  }

  lemma FirstTwoAreOrdered(eligible: seq<Measured>)
    ensures var chosen := FirstTwo(SortedByKey(eligible)); |chosen| == 2 ==> KeyAtMost(chosen[0], chosen[1])
  {
    SortedByKeyIsOrdered(eligible);
  }

  lemma FinalistsAreLeast(valid: seq<Measured>, x: Measured, y: Measured)
    requires valid != [] && x in FirstTwo(SortedByKey(Eligible(valid)))
    ensures x in Eligible(valid)
    ensures y in Eligible(valid) ==> y in FirstTwo(SortedByKey(Eligible(valid))) || KeyAtMost(x, y)
  {
    SomeRowIsEligible(valid);
    FirstTwoAreLeast(Eligible(valid), x, Eligible(valid)[0]);
    if y in Eligible(valid) {
      FirstTwoAreLeast(Eligible(valid), x, y);
    }
  }

  method FilterValid(rows: seq<Row>) returns (valid: seq<Measured>)
    ensures valid == ValidRows(rows)
  {
    valid := [];
    for i := 0 to |rows|
      invariant valid == ValidRows(rows[..i])
    {
      assert rows[..i + 1][..i] == rows[..i];
      if IsValid(rows[i]) {
        valid := valid + [Measure(rows[i])];
      }
    }
    assert rows[..|rows|] == rows;
  }

  /** The loop over candidates, each compared with every valid row. */
  method ParetoRows(valid: seq<Measured>) returns (pareto: seq<Measured>)
    ensures pareto == Undominated(valid, valid)
  {
    pareto := [];
    for i := 0 to |valid|
      invariant pareto == Undominated(valid, valid[..i])
    {
      assert valid[..i + 1][..i] == valid[..i];
      var dominated := false;
      for j := 0 to |valid|
        invariant dominated <==> exists k | 0 <= k < j :: Dominates(valid[k], valid[i])
      {
        dominated := dominated || Dominates(valid[j], valid[i]);
      }
      if !dominated {
        pareto := pareto + [valid[i]];
      }
    }
    assert valid[..|valid|] == valid;
  }

  method MinimumP95(rows: seq<Measured>) returns (fastest: real)
    requires rows != []
    ensures fastest == Fastest(rows)
  {
    fastest := rows[0].p95;
    assert rows[..1] == [rows[0]];
    for i := 1 to |rows|
      invariant fastest == Fastest(rows[..i])
    {
      assert rows[..i + 1][..i] == rows[..i];
      if rows[i].p95 < fastest {
        fastest := rows[i].p95;
      }
    }
    assert rows[..|rows|] == rows;
  }

  method TiedRows(pareto: seq<Measured>) returns (eligible: seq<Measured>)
    requires pareto != []
    ensures eligible == WithinTie(pareto)
  {
    var fastest := MinimumP95(pareto);
    eligible := Within(pareto, fastest + Tie(fastest));
  }

  /** `_select_finalists`. */
  method SelectFinalists(rows: seq<Row>) returns (finalists: seq<string>)
    ensures |finalists| == |Finalists(rows)|
    ensures forall i | 0 <= i < |finalists| :: finalists[i] == Finalists(rows)[i].configId
  {
    var valid := FilterValid(rows);
    if valid == [] {
      return [];
    }
    var pareto := ParetoRows(valid);
    ParetoKeepsTheFastest(valid);
    var eligible := TiedRows(pareto);
    var chosen := FirstTwo(SortedByKey(eligible));
    finalists := seq(|chosen|, i requires 0 <= i < |chosen| => chosen[i].configId);
  }
}
