/**
  When the greedy merge is optimal. Against every way of cutting the sorted requests into runs
  that respect the resource, gap, span and part limits, the plan needs the fewest transfers,
  provided no request contains another one of its resource and the amplification limit is not
  the binding one. Containment makes it false: see `ContainmentDefeatsGreed`.
*/
module PlannerOptimality {
  import opened Numbers
  import opened Uris
  import opened Planner

  /** May the requests [first, next) share a transfer at all? One request always may. */
  predicate Feasible(v: seq<Checked>, o: Options, first: nat, next: nat)
    requires first < next <= |v| && AllWellChecked(v)
  {
    || next == first + 1
    || (&& next - first <= o.parts
        && LastByte(v, first, next) - v[first].first + 1 <= o.limit
        && forall m | first < m < next :: Joins(v, o, first, m))
  }

  /** Request m is of the run's resource and starts at most one gap after what precedes it; files have none. */
  predicate Joins(v: seq<Checked>, o: Options, first: nat, m: nat)
    requires first < m < |v| && AllWellChecked(v)
  {
    && SameResource(v[m].request, v[first].request)
    && v[m].first <= LastByte(v, first, m) + 1 + if v[first].request.locator.backend == File then 0 else o.gap
  }

  /** Do both name one object, under one precondition? */
  predicate SameResource(a: Request, b: Request)
  {
    a.locator.backend == b.locator.backend && a.locator.canonicalUri == b.locator.canonicalUri && a.ifMatch == b.ifMatch
  }

  /** Any way of serving the sorted requests by feasible transfers. */
  predicate IsPartition(v: seq<Checked>, o: Options, cuts: seq<nat>)
    requires AllWellChecked(v)
  {
    && IsCut(cuts, |v|)
    && forall i, j {:trigger cuts[i], cuts[j]} | 0 <= i && j == i + 1 < |cuts| ::
         cuts[i] < cuts[j] <= |v| && Feasible(v, o, cuts[i], cuts[j])
  }

  /** No request ends after a later one of the same resource: none contains another. Pairwise
      disjoint requests satisfy this, and so do overlapping ones of equal length. */
  predicate NoContainment(v: seq<Checked>)
  {
    forall i, j | 0 <= i < j < |v| && SameResource(v[i].request, v[j].request) :: v[i].last <= v[j].last
  }

  /** No two requests of one resource share a byte. */
  predicate Disjoint(v: seq<Checked>)
  {
    forall i, j | 0 <= i < j < |v| && SameResource(v[i].request, v[j].request) ::
      v[i].last < v[j].first || v[j].last < v[i].first
  }

  lemma DisjointIsNoContainment(v: seq<Checked>)
    requires AllWellChecked(v) && Sorted(v) && Disjoint(v)
    ensures NoContainment(v)
  {
    hide Sorted;
    forall i, j | 0 <= i < j < |v| && SameResource(v[i].request, v[j].request)
      ensures v[i].last <= v[j].last
    {
      SortedSameResource(v, i, j);
      assert WellChecked(v[i]) && WellChecked(v[j]);
    }
  }

  lemma {:induction false} LastByteIsLast(v: seq<Checked>, first: nat, next: nat)
    requires first < next <= |v| && AllWellChecked(v) && NoContainment(v)
    requires forall m | first <= m < next :: ResourceOf(v[m].request) == ResourceOf(v[first].request)
    ensures LastByte(v, first, next) == v[next - 1].last
    decreases next
  {
    if next > first + 1 {
      LastByteIsLast(v, first, next - 1);
      assert v[next - 2].last <= v[next - 1].last;
    }
  }

  /** A feasible run is of one resource, and its last byte is that of its last request. */
  lemma FeasibleRun(v: seq<Checked>, o: Options, start: nat, next: nat)
    requires AllWellChecked(v) && NoContainment(v) && start < next <= |v| && Feasible(v, o, start, next)
    ensures forall k | start <= k < next :: ResourceOf(v[k].request) == ResourceOf(v[start].request)
    ensures forall k | start < k <= next :: LastByte(v, start, k) == v[k - 1].last
  {
    forall k | start <= k < next ensures ResourceOf(v[k].request) == ResourceOf(v[start].request) {
      assert k > start ==> Joins(v, o, start, k);
    }
    forall k | start < k <= next ensures LastByte(v, start, k) == v[k - 1].last {
      LastByteIsLast(v, start, k);
    }
  }

  /** Dropping the front of a feasible run leaves a run that the greedy loop accepts. */
  lemma SuffixIsAdmitted(v: seq<Checked>, o: Options, start: nat, first: nat, m: nat, next: nat)
    requires AllWellChecked(v) && ValidOptions(o) && Sorted(v) && NoContainment(v)
    requires o.gap > 0 && o.limit <= o.amplification
    requires start <= first < m < next <= |v| && Feasible(v, o, start, next)
    ensures Admits(v, o, first, m)
  {
    hide Sorted, Ordered, LastByte, UsefulBytes, ExcessiveAmplification;
    FeasibleRun(v, o, start, next);
    LastByteIsLast(v, first, m);
    SortedSameResource(v, start, first);
    SortedSameResource(v, first, m);
    assert Joins(v, o, start, m);
    assert v[m].last <= v[next - 1].last && v[m - 1].last <= v[m].last;
    assert WellChecked(v[m]) && WellChecked(v[first]);
    UsefulIsPositive(v, first, m + 1);
    SpanIsNotExcessive(v[m].last - v[first].first + 1, UsefulBytes(v, first, m + 1), o);
  }

  lemma SpanIsNotExcessive(span: u64, useful: u64, o: Options)
    requires ValidOptions(o) && span <= o.limit <= o.amplification && useful >= 1
    ensures !ExcessiveAmplification(span, useful, o.amplification)
  {
    assert useful * o.amplification >= o.amplification;
  }

  lemma {:induction false} UsefulIsPositive(v: seq<Checked>, first: nat, next: nat)
    requires first < next <= |v| && AllWellChecked(v)
    ensures UsefulBytes(v, first, next) >= 1
    decreases next
  {
    assert WellChecked(v[first]);
    if next > first + 1 {
      UsefulIsPositive(v, first, next - 1);
    }
  }

  /** After every number of transfers the plan has served at least as many requests. */
  lemma {:induction false} GreedyStaysAhead(v: seq<Checked>, o: Options, greedy: seq<nat>, other: seq<nat>, k: nat)
    requires AllWellChecked(v) && ValidOptions(o) && Sorted(v) && NoContainment(v)
    requires o.gap > 0 && o.limit <= o.amplification
    requires IsPlan(v, o, greedy) && IsPartition(v, o, other)
    requires k < |greedy| && k < |other|
    ensures other[k] <= greedy[k] <= |v|
    decreases k
  {
    if k > 0 {
      GreedyStaysAhead(v, o, greedy, other, k - 1);
      var first, next := greedy[k - 1], other[k];
      assert IsGreedyRun(v, o, first, greedy[k]);
      assert Feasible(v, o, other[k - 1], next);
      if greedy[k] < next {
        SuffixIsAdmitted(v, o, other[k - 1], first, greedy[k], next);
        assert false;
      }
    }
  }

  lemma {:induction false} GreedyIncreases(v: seq<Checked>, o: Options, greedy: seq<nat>, i: nat)
    requires AllWellChecked(v) && ValidOptions(o) && IsPlan(v, o, greedy) && i + 1 < |greedy|
    ensures greedy[i] < |v|
    decreases |greedy| - i
  {
    assert IsGreedyRun(v, o, greedy[i], greedy[i + 1]);
  }

  /** No partition into feasible transfers has fewer of them than the plan. */
  lemma GreedyIsOptimal(v: seq<Checked>, o: Options, greedy: seq<nat>, other: seq<nat>)
    requires AllWellChecked(v) && ValidOptions(o) && Sorted(v) && NoContainment(v)
    requires o.gap > 0 && o.limit <= o.amplification
    requires IsPlan(v, o, greedy) && IsPartition(v, o, other)
    ensures |greedy| - 1 <= |other| - 1
  {
    if |other| < |greedy| {
      GreedyStaysAhead(v, o, greedy, other, |other| - 1);
      GreedyIncreases(v, o, greedy, |other| - 1);
    }
  }

  lemma GreedyRunIsFeasible(v: seq<Checked>, o: Options, first: nat, next: nat)
    requires AllWellChecked(v) && ValidOptions(o) && IsGreedyRun(v, o, first, next)
    ensures Feasible(v, o, first, next)
  {
    forall m | first < m < next ensures Joins(v, o, first, m) {
      assert Admits(v, o, first, m);
    }
    if next > first + 1 {
      assert Admits(v, o, first, next - 1);
    }
  }

  /** And the plan is such a partition itself. */
  lemma PlanIsPartition(v: seq<Checked>, o: Options, greedy: seq<nat>)
    requires AllWellChecked(v) && ValidOptions(o) && IsPlan(v, o, greedy)
    ensures IsPartition(v, o, greedy)
  {
    hide Feasible;
    forall i, j {:trigger greedy[i], greedy[j]} | 0 <= i && j == i + 1 < |greedy|
      ensures greedy[i] < greedy[j] <= |v| && Feasible(v, o, greedy[i], greedy[j])
    {
      GreedyRunIsFeasible(v, o, greedy[i], greedy[j]);
    }
  }

  // ------------------------------------------------------------------ why containment matters

  function At(first: u64, length: u64): Checked
    requires length >= 1 && first + length - 1 <= MAX64
  {
    Checked(Request(Resolved(Http, "http://h/o", 0, TO_END), first, length, 0, 0, ""), first, first + length - 1)
  }

  const EXAMPLE: seq<Checked> := [At(0, 10), At(10, 10), At(15, 985), At(100, 1), At(200, 1)]
  const EXAMPLE_OPTIONS := Options(1, 2000, 3, 2000)

  lemma OneResourceIsSorted(v: seq<Checked>, r: Resource)
    requires forall i | 0 <= i < |v| :: ResourceOf(v[i].request) == r
    requires forall i, j | 0 <= i < j < |v| :: v[i].first <= v[j].first
    ensures Sorted(v)
  {
    ResourceLessTotal(r, r);
  }

  lemma ExampleIsSorted()
    ensures AllWellChecked(EXAMPLE) && Sorted(EXAMPLE)
  {
    hide Sorted, ResourceOf;
    var v := EXAMPLE;
    assert WellChecked(v[0]) && WellChecked(v[1]) && WellChecked(v[2]) && WellChecked(v[3]) && WellChecked(v[4]);
    var r := ResourceOf(At(0, 10).request);
    forall i | 0 <= i < |v| ensures ResourceOf(v[i].request) == r {
      ExampleResource(v[i].first, v[i].request.length);
      ExampleResource(0, 10);
    }
    OneResourceIsSorted(v, r);
  }

  lemma ExampleResource(first: u64, length: u64)
    requires length >= 1 && first + length - 1 <= MAX64
    ensures ResourceOf(At(first, length).request) == Resource(Http, "http://h/o", "")
  {}

  lemma ExampleGreedy()
    requires AllWellChecked(EXAMPLE)
    ensures IsPlan(EXAMPLE, EXAMPLE_OPTIONS, [0, 3, 4, 5])
  {
    var v, o := EXAMPLE, EXAMPLE_OPTIONS;
    assert LastByte(v, 0, 1) == 9 && LastByte(v, 0, 2) == 19 && UsefulBytes(v, 0, 2) == 20;
    assert UsefulBytes(v, 0, 3) == 1005;
    assert LastByte(v, 3, 4) == 100;
    hide LastByte, UsefulBytes, At;
    assert Admits(v, o, 0, 1) && Admits(v, o, 0, 2) && !Admits(v, o, 0, 3);
    assert !Admits(v, o, 3, 4);
    hide Admits;
    assert IsGreedyRun(v, o, 0, 3);
    assert IsGreedyRun(v, o, 3, 4);
    assert IsGreedyRun(v, o, 4, 5);
  }

  lemma ExamplePartition()
    requires AllWellChecked(EXAMPLE)
    ensures IsPartition(EXAMPLE, EXAMPLE_OPTIONS, [0, 2, 5])
  {
    var v, o := EXAMPLE, EXAMPLE_OPTIONS;
    assert LastByte(v, 0, 1) == 9 && LastByte(v, 0, 2) == 19;
    assert LastByte(v, 2, 3) == 999;
    assert LastByte(v, 2, 4) == 999;
    assert LastByte(v, 2, 5) == 999;
    hide LastByte, At;
    assert Joins(v, o, 0, 1) && Feasible(v, o, 0, 2);
    assert Joins(v, o, 2, 3) && Joins(v, o, 2, 4) && Feasible(v, o, 2, 5);
  }

  /** [0,10) [10,20) [15,1000) [100,101) [200,201), at most three parts per transfer: the plan
      puts the long request last in its first run and then needs two more transfers, while two
      suffice when the long request leads a run. */
  lemma ContainmentDefeatsGreed()
    ensures AllWellChecked(EXAMPLE) && ValidOptions(EXAMPLE_OPTIONS) && Sorted(EXAMPLE) && !NoContainment(EXAMPLE)
    ensures EXAMPLE_OPTIONS.gap > 0 && EXAMPLE_OPTIONS.limit <= EXAMPLE_OPTIONS.amplification
    ensures exists greedy, other |
              IsPlan(EXAMPLE, EXAMPLE_OPTIONS, greedy) && IsPartition(EXAMPLE, EXAMPLE_OPTIONS, other) ::
              |other| < |greedy|
  {
    ExampleIsSorted();
    ExampleGreedy();
    ExamplePartition();
    hide IsPlan, IsPartition, Sorted;
    assert EXAMPLE[2].last > EXAMPLE[3].last;
    assert |[0, 2, 5]| < |[0, 3, 4, 5]|;
  }
}
