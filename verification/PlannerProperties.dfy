/** What every plan guarantees: an exact cover of the requests, and bounds on what is fetched. */
module PlannerProperties {
  import opened Numbers
  import opened Uris
  import opened Planner
  import Scatter

  // ------------------------------------------------------------------ exact cover

  /** What becomes of one request: it is read from one place into its buffer, or turned down. */
  datatype Outcome =
    | Read(resource: Resource, first: int, length: int, buffer: int, tag: int)
    | Rejected(tag: int, buffer: int, reason: Refusal)

  /** The outcome a request should have, from its window, its offsets and what its locator names alone. */
  function OutcomeOf(r: Request): Outcome
  {
    var window, first := r.locator, r.locator.windowOffset + r.offset;
    if window.backend == File && r.ifMatch != "" then Rejected(r.tag, r.buffer, Unsupported)
    else if window.windowLength != TO_END && r.offset + r.length > window.windowLength then
      Rejected(r.tag, r.buffer, OutOfRange)
    else if first + r.length > MAX64 + 1 then Rejected(r.tag, r.buffer, OutOfRange)
    else Read(Resource(window.backend, window.canonicalUri, r.ifMatch), first, r.length, r.buffer, r.tag)
  }

  function OutcomesOf(requests: seq<Request>): seq<Outcome>
  {
    seq(|requests|, i requires 0 <= i < |requests| => OutcomeOf(requests[i]))
  }

  function ReadOf(c: Checked): Outcome
  {
    Read(ResourceOf(c.request), c.first, c.request.length, c.request.buffer, c.request.tag)
  }

  function ReadsOf(v: seq<Checked>): seq<Outcome>
  {
    seq(|v|, i requires 0 <= i < |v| => ReadOf(v[i]))
  }

  function RejectionsOf(immediate: seq<Immediate>): seq<Outcome>
  {
    seq(|immediate|, i requires 0 <= i < |immediate| =>
      Rejected(immediate[i].tag, immediate[i].buffer, immediate[i].reason))
  }

  /** The reads that the parts of one transfer perform. */
  function PartsOf(t: PlannedTransfer): seq<Outcome>
  {
    seq(|t.parts|, k requires 0 <= k < |t.parts| =>
      Read(t.resource, t.offset + t.parts[k].relativeOffset, t.parts[k].length, t.parts[k].buffer, t.parts[k].tag))
  }

  function AllPartsOf(transfers: seq<PlannedTransfer>): seq<Outcome>
  {
    if transfers == [] then [] else AllPartsOf(transfers[..|transfers| - 1]) + PartsOf(transfers[|transfers| - 1])
  }

  lemma ReadsCons(x: Checked, v: seq<Checked>)
    ensures multiset(ReadsOf([x] + v)) == multiset(ReadsOf(v)) + multiset{ReadOf(x)}
  {
    assert ReadsOf([x] + v) == [ReadOf(x)] + ReadsOf(v);
  }

  lemma {:induction false} InsertKeepsReads(x: Checked, v: seq<Checked>)
    requires Sorted(v)
    ensures multiset(ReadsOf(Insert(x, v))) == multiset(ReadsOf(v)) + multiset{ReadOf(x)}
    decreases |v|
  {
    hide Sorted, Ordered, ReadsOf, ReadOf;
    ReadsCons(x, v);
    if v == [] {
      assert [x] + v == [x];
    } else if !Ordered(x, v[0]) {
      OrderedAfterHead(x, v);
      InsertKeepsReads(x, v[1..]);
      ReadsCons(v[0], Insert(x, v[1..]));
      ReadsCons(v[0], v[1..]);
      assert [v[0]] + v[1..] == v;
    }
  }

  lemma {:induction false} SortKeepsReads(v: seq<Checked>)
    ensures multiset(ReadsOf(StableSort(v))) == multiset(ReadsOf(v))
    decreases |v|
  {
    hide Insert, ReadsOf, Sorted;
    if v != [] {
      SortKeepsReads(v[1..]);
      InsertKeepsReads(v[0], StableSort(v[1..]));
      ReadsCons(v[0], v[1..]);
      assert [v[0]] + v[1..] == v;
    }
  }

  // ------------------------------------------------------------------ stability

  /** Neither has to stand in front of the other. */
  predicate Alike(a: Checked, b: Checked) { Ordered(a, b) && Ordered(b, a) }

  /** The elements of `v` that compare equal to `x`, in their order. */
  function EqualTo(v: seq<Checked>, x: Checked): seq<Checked>
  {
    if v == [] then [] else (if Alike(v[0], x) then [v[0]] else []) + EqualTo(v[1..], x)
  }

  lemma EqualToCons(h: Checked, v: seq<Checked>, x: Checked)
    ensures EqualTo([h] + v, x) == (if Alike(h, x) then [h] else []) + EqualTo(v, x)
  {
    assert ([h] + v)[1..] == v;
  }

  lemma {:induction false} InsertIsStable(y: Checked, v: seq<Checked>, x: Checked)
    requires Sorted(v)
    ensures EqualTo(Insert(y, v), x) == (if Alike(y, x) then [y] else []) + EqualTo(v, x)
    decreases |v|
  {
    hide Ordered, EqualTo, Sorted, Alike;
    if v == [] || Ordered(y, v[0]) {
      EqualToCons(y, v, x);
      assert [y] + v == if v == [] then [y] else [y] + v;
    } else {
      OrderedAfterHead(y, v);
      InsertIsStable(y, v[1..], x);
      EqualToCons(v[0], Insert(y, v[1..]), x);
      EqualToCons(v[0], v[1..], x);
      assert [v[0]] + v[1..] == v;
      NotBothAlike(y, v[0], x);
    }
  }

  lemma NotBothAlike(y: Checked, z: Checked, x: Checked)
    requires !Ordered(y, z)
    ensures !(Alike(y, x) && Alike(z, x))
  {
    hide Ordered;
    if Ordered(y, x) && Ordered(x, z) { OrderedTransitive(y, x, z); }
  }

  /** Requests that compare equal keep the order in which they were submitted. */
  lemma {:induction false} SortIsStable(v: seq<Checked>, x: Checked)
    ensures EqualTo(StableSort(v), x) == EqualTo(v, x)
    decreases |v|
  {
    hide Alike, Sorted, Insert;
    if v != [] {
      SortIsStable(v[1..], x);
      InsertIsStable(v[0], StableSort(v[1..]), x);
    }
  }

  /** The validation of the source decides the outcome that the windows call for. */
  lemma FateIsOutcome(r: Request)
    requires 1 <= r.length < TO_END
    ensures FateOf(r).Accept? ==> OutcomeOf(r) == ReadOf(FateOf(r).checked)
    ensures FateOf(r).Refuse? ==> OutcomeOf(r) == Rejected(r.tag, r.buffer, FateOf(r).reason)
  {}

  lemma {:induction false} RequestsSplit(requests: seq<Request>)
    requires Admissible(requests)
    ensures multiset(OutcomesOf(requests))
         == multiset(ReadsOf(Accepted(requests))) + multiset(RejectionsOf(Refused(requests)))
    decreases |requests|
  {
    hide FateOf, OutcomeOf, Validate, WellChecked;
    if requests != [] {
      var init, last := requests[..|requests| - 1], requests[|requests| - 1];
      assert last in requests && forall r | r in init :: r in requests;
      RequestsSplit(init);
      FateIsOutcome(last);
      assert OutcomesOf(requests) == OutcomesOf(init) + [OutcomeOf(last)];
      if FateOf(last).Accept? {
        assert ReadsOf(Accepted(requests)) == ReadsOf(Accepted(init)) + [OutcomeOf(last)];
        assert Refused(requests) == Refused(init);
      } else {
        assert RejectionsOf(Refused(requests)) == RejectionsOf(Refused(init)) + [OutcomeOf(last)];
        assert Accepted(requests) == Accepted(init);
      }
    }
  }

  /** The parts of one transfer are the requests of its run, in order. */
  lemma PartsAreRun(t: PlannedTransfer, v: seq<Checked>, o: Options, first: nat, next: nat)
    requires AllWellChecked(v) && ValidOptions(o) && first < next <= |v|
    requires IsRun(v, o, first, next) && IsTransferOf(t, v, first, next)
    ensures PartsOf(t) == ReadsOf(v[first..next])
  {
    forall m | first <= m < next ensures PartsOf(t)[m - first] == ReadOf(v[m]) {
      assert m > first ==> Admits(v, o, first, m);
      assert t.parts[m - first] == PartOf(v, first, m);
    }
  }

  lemma {:induction false} TransfersTile(transfers: seq<PlannedTransfer>, v: seq<Checked>, o: Options, cuts: seq<nat>,
                                         n: nat)
    requires AllWellChecked(v) && ValidOptions(o) && IsPlan(v, o, cuts) && |transfers| == |cuts| - 1 && n <= |transfers|
    requires forall i | 0 <= i < |transfers| :: IsTransferOfCut(transfers[i], v, cuts, i)
    ensures cuts[n] <= |v| && AllPartsOf(transfers[..n]) == ReadsOf(v[..cuts[n]])
  {
    hide IsTransferOf, IsRun, Admits, ReadsOf, PartsOf;
    if n > 0 {
      TransfersTile(transfers, v, o, cuts, n - 1);
      assert IsGreedyRun(v, o, cuts[n - 1], cuts[n]) && IsTransferOfCut(transfers[n - 1], v, cuts, n - 1);
      PartsAreRun(transfers[n - 1], v, o, cuts[n - 1], cuts[n]);
      PrefixGrows(transfers, n);
      ReadsSplit(v, cuts[n - 1], cuts[n]);
    } else {
      NothingRead(transfers, v);
    }
  }

  lemma PrefixGrows(transfers: seq<PlannedTransfer>, n: nat)
    requires 0 < n <= |transfers|
    ensures AllPartsOf(transfers[..n]) == AllPartsOf(transfers[..n - 1]) + PartsOf(transfers[n - 1])
  {
    assert transfers[..n][..n - 1] == transfers[..n - 1];
  }

  lemma ReadsSplit(v: seq<Checked>, first: nat, next: nat)
    requires first <= next <= |v|
    ensures ReadsOf(v[..next]) == ReadsOf(v[..first]) + ReadsOf(v[first..next])
  {}

  lemma NothingRead(transfers: seq<PlannedTransfer>, v: seq<Checked>)
    ensures AllPartsOf(transfers[..0]) == [] && ReadsOf(v[..0]) == []
  {}

  /** Every request ends up exactly once, either as one part at its own absolute range or as one
      immediate completion, and nothing else does. */
  lemma PlanCoversExactly(requests: seq<Request>, o: Options, plan: TransferPlan, sorted: seq<Checked>, cuts: seq<nat>)
    requires Admissible(requests) && ValidOptions(o)
    requires plan.immediate == Refused(requests) && sorted == StableSort(Accepted(requests))
    requires AllWellChecked(sorted) && IsPlan(sorted, o, cuts) && |plan.transfers| == |cuts| - 1
    requires forall i | 0 <= i < |plan.transfers| :: IsTransferOfCut(plan.transfers[i], sorted, cuts, i)
    ensures multiset(AllPartsOf(plan.transfers)) + multiset(RejectionsOf(plan.immediate))
            == multiset(OutcomesOf(requests))
  {
    TransfersTile(plan.transfers, sorted, o, cuts, |plan.transfers|);
    assert plan.transfers[..|plan.transfers|] == plan.transfers && sorted[..|sorted|] == sorted;
    SortKeepsReads(Accepted(requests));
    RequestsSplit(requests);
  }

  // ------------------------------------------------------------------ one transfer

  function LayoutOf(t: PlannedTransfer): Scatter.Layout
  {
    Scatter.Layout(t.offset, t.length,
      seq(|t.parts|, k requires 0 <= k < |t.parts| => Scatter.Span(t.parts[k].relativeOffset, t.parts[k].length)))
  }

  /** A planned transfer is what the receiving side expects: parts sorted, inside the transfer,
      beginning at its start; the transfer ends where its last part does and fits in 64 bits. */
  lemma TransferIsValid(t: PlannedTransfer, v: seq<Checked>, o: Options, first: nat, next: nat)
    requires AllWellChecked(v) && Sorted(v) && ValidOptions(o) && first < next <= |v|
    requires IsRun(v, o, first, next) && IsTransferOf(t, v, first, next)
    ensures Scatter.ValidLayout(LayoutOf(t)) && t.parts != [] && t.parts[0].relativeOffset == 0
    ensures exists k | 0 <= k < |t.parts| :: t.parts[k].relativeOffset + t.parts[k].length == t.length
  {
    hide Ordered, Admits, IsRun, Sorted;
    RunIsWellChecked(v, o, first, next);
    assert forall m | first <= m < next :: t.parts[m - first] == PartOf(v, first, m);
    var top :| first <= top < next && v[top].last == LastByte(v, first, next);
    assert t.parts[top - first].relativeOffset + t.parts[top - first].length == t.length;
    forall i, j | 0 <= i < j < |t.parts| ensures t.parts[i].relativeOffset <= t.parts[j].relativeOffset {
      PartsAreOrdered(t, v, first, next, i, j);
    }
    forall i | 0 <= i < |t.parts|
      ensures t.parts[i].length >= 1 && t.parts[i].relativeOffset + t.parts[i].length <= t.length
    {
      assert t.parts[(first + i) - first] == PartOf(v, first, first + i);
    }
  }

  lemma PartsAreOrdered(t: PlannedTransfer, v: seq<Checked>, first: nat, next: nat, i: nat, j: nat)
    requires AllWellChecked(v) && Sorted(v) && first < next <= |v| && IsTransferOf(t, v, first, next)
    requires i < j < |t.parts| && ResourceOf(v[first + i].request) == ResourceOf(v[first + j].request)
    ensures t.parts[i].relativeOffset <= t.parts[j].relativeOffset
  {
    SortedSameResource(v, first + i, first + j);
    hide Sorted, AllWellChecked, ResourceOf;
    assert t.parts[(first + i) - first] == PartOf(v, first, first + i);
    assert t.parts[(first + j) - first] == PartOf(v, first, first + j);
  }

  lemma RunIsWellChecked(v: seq<Checked>, o: Options, first: nat, next: nat)
    requires AllWellChecked(v) && ValidOptions(o) && first < next <= |v| && IsRun(v, o, first, next)
    ensures forall m | first <= m < next ::
              WellChecked(v[m]) && ResourceOf(v[m].request) == ResourceOf(v[first].request)
  {
    forall m | first <= m < next
      ensures WellChecked(v[m]) && ResourceOf(v[m].request) == ResourceOf(v[first].request)
    {
      assert v[m] in v;
      assert m > first ==> Admits(v, o, first, m);
    }
  }

  // ------------------------------------------------------------------ bounds

  function PartBytes(parts: seq<PlannedPart>): nat
  {
    if parts == [] then 0 else PartBytes(parts[..|parts| - 1]) + parts[|parts| - 1].length
  }

  lemma {:induction false} UsefulIsPartBytes(t: PlannedTransfer, v: seq<Checked>, first: nat, next: nat, m: nat)
    requires AllWellChecked(v) && first < next <= |v| && IsTransferOf(t, v, first, next) && first < m <= next
    ensures UsefulBytes(v, first, m) == Min(MAX64, PartBytes(t.parts[..m - first]))
    decreases m
  {
    assert t.parts[(m - 1) - first] == PartOf(v, first, m - 1);
    assert t.parts[..m - first][..m - 1 - first] == t.parts[..m - 1 - first];
    if m > first + 1 {
      UsefulIsPartBytes(t, v, first, next, m - 1);
    } else {
      assert t.parts[..0] == [];
    }
  }

  /** The saturating comparison of the source decides the exact one. */
  lemma AmplificationIsExact(span: u64, useful: nat, maximum: u64)
    requires maximum >= 1
    ensures ExcessiveAmplification(span, Min(MAX64, useful), maximum) <==> span > useful * maximum
  {
    var saturated := Min(MAX64, useful);
    assert MAX64 < (MAX64 / maximum + 1) * maximum;
    if saturated > MAX64 / maximum {
      Grows(MAX64 / maximum + 1, useful, maximum);
    } else if useful > MAX64 {
      Grows(MAX64, saturated, maximum);
      Grows(MAX64, useful, maximum);
    }
  }

  lemma Grows(a: nat, b: nat, c: nat)
    requires a <= b && c >= 1
    ensures a * c <= b * c && a <= a * c
  {}

  /** Every merged transfer respects the limits, measured exactly. */
  lemma TransferIsBounded(t: PlannedTransfer, v: seq<Checked>, o: Options, first: nat, next: nat)
    requires AllWellChecked(v) && ValidOptions(o) && first < next <= |v|
    requires IsRun(v, o, first, next) && IsTransferOf(t, v, first, next)
    ensures |t.parts| >= 2 ==> |t.parts| <= o.parts && t.length <= o.limit
    ensures t.length <= PartBytes(t.parts) * o.amplification
  {
    UsefulIsPartBytes(t, v, first, next, next);
    assert t.parts[..next - first] == t.parts;
    if next > first + 1 {
      assert Admits(v, o, first, next - 1);
      AmplificationIsExact(t.length, PartBytes(t.parts), o.amplification);
    } else {
      RunOfOne(v, first);
      assert t.length == UsefulBytes(v, first, next);
      Grows(t.length, t.length, o.amplification);
      Grows(t.length, PartBytes(t.parts), o.amplification);
    }
  }

  function FetchedBytes(transfers: seq<PlannedTransfer>): nat
  {
    if transfers == [] then 0 else FetchedBytes(transfers[..|transfers| - 1]) + transfers[|transfers| - 1].length
  }

  function RequestedBytes(transfers: seq<PlannedTransfer>): nat
  {
    if transfers == [] then 0
    else RequestedBytes(transfers[..|transfers| - 1]) + PartBytes(transfers[|transfers| - 1].parts)
  }

  /** A batch never fetches more than the amplification times what was asked for. */
  lemma {:induction false} PlanIsBounded(transfers: seq<PlannedTransfer>, v: seq<Checked>, o: Options, cuts: seq<nat>,
                                         n: nat)
    requires AllWellChecked(v) && ValidOptions(o) && IsPlan(v, o, cuts) && |transfers| == |cuts| - 1 && n <= |transfers|
    requires forall i | 0 <= i < |transfers| :: IsTransferOfCut(transfers[i], v, cuts, i)
    ensures FetchedBytes(transfers[..n]) <= RequestedBytes(transfers[..n]) * o.amplification
  {
    hide IsTransferOf, IsRun, PartBytes, Admits, AllWellChecked, IsCut;
    if n > 0 {
      PlanIsBounded(transfers, v, o, cuts, n - 1);
      assert IsGreedyRun(v, o, cuts[n - 1], cuts[n]);
      var t := transfers[n - 1];
      TransferIsBounded(t, v, o, cuts[n - 1], cuts[n]);
      assert transfers[..n][..n - 1] == transfers[..n - 1];
      Distributes(RequestedBytes(transfers[..n - 1]), PartBytes(t.parts), o.amplification);
    }
  }

  lemma Distributes(a: nat, b: nat, c: nat)
    ensures (a + b) * c == a * c + b * c
  {}

  predicate Covers(p: PlannedPart, b: int)
  {
    p.relativeOffset <= b < p.relativeOffset + p.length
  }

  /** No hole is wider than the gap: among any gap + 1 consecutive bytes of a transfer some byte
      belongs to a part. Local files have no holes at all. */
  lemma HolesAreSmall(t: PlannedTransfer, v: seq<Checked>, o: Options, first: nat, next: nat, x: nat)
    requires AllWellChecked(v) && ValidOptions(o) && first < next <= |v|
    requires IsRun(v, o, first, next) && IsTransferOf(t, v, first, next)
    ensures
      var gap := if t.resource.backend == File then 0 else o.gap;
      x + gap < t.length ==> exists k, b | 0 <= k < |t.parts| && x <= b <= x + gap :: Covers(t.parts[k], b)
  {
    RunIsWellChecked(v, o, first, next);
    if x + GapFor(o, t.resource.backend) < t.length {
      var m := FirstBeyond(v, first, next, v[first].first + x);
      var part := t.parts[m - first];
      assert part == PartOf(v, first, m);
      assert m > first ==> Admits(v, o, first, m);
      assert Covers(part, Max(x, part.relativeOffset));
    }
  }

  /** The first request of a run that reaches past `position`. */
  lemma {:induction false} FirstBeyond(v: seq<Checked>, first: nat, next: nat, position: int) returns (m: nat)
    requires AllWellChecked(v) && first < next <= |v| && position <= LastByte(v, first, next)
    ensures first <= m < next && v[m].last >= position
    ensures m > first ==> LastByte(v, first, m) < position
    decreases next
  {
    if next == first + 1 || LastByte(v, first, next - 1) < position {
      m := next - 1;
    } else {
      m := FirstBeyond(v, first, next - 1, position);
    }
  }
}
