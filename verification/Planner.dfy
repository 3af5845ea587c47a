/**
  The planner: validates the requests of a batch, sorts them and merges neighbours into
  transfers (src/runtime/planner.cpp). `IsPlan` says which cuts of the sorted requests the
  greedy loop makes; the lemmas of modules PlannerProperties and PlannerOptimality follow from it.
*/
module Planner {
  import opened Numbers
  import opened Uris

  datatype Request = Request(locator: Resolved, offset: u64, length: u64, buffer: int, tag: int, ifMatch: string)

  /** `convert_requests` admits only nonempty finite requests (src/karu.cpp:54-62). */
  predicate Admissible(requests: seq<Request>)
  {
    forall r | r in requests :: 1 <= r.length < TO_END
  }

  datatype Options = Options(gap: u64, limit: u64, parts: nat, amplification: u64)

  /** The bounds that configuration and submit options enforce. */
  predicate ValidOptions(o: Options) { o.limit >= 1 && o.parts >= 1 && o.amplification >= 1 }

  datatype Checked = Checked(request: Request, first: u64, last: u64)

  /** The absolute byte range of a request, or nothing when it leaves the window or 64 bits. */
  function Validate(r: Request): (c: Option<Checked>)
    requires r.length >= 1
    ensures c.Some? <==>
      && (r.locator.windowLength != TO_END ==> r.offset + r.length <= r.locator.windowLength)
      && r.locator.windowOffset + r.offset + r.length - 1 <= MAX64
    ensures c.Some? ==>
              c.value == Checked(r, r.locator.windowOffset + r.offset, r.locator.windowOffset + r.offset + r.length - 1)
  {
    var window := r.locator;
    if window.windowLength != TO_END &&
       (r.offset > window.windowLength || r.length > window.windowLength - r.offset) then None
    else if r.offset > MAX64 - window.windowOffset then None
    else
      var absolute: u64 := window.windowOffset + r.offset;
      if r.length - 1 > MAX64 - absolute then None
      else Some(Checked(r, absolute, absolute + (r.length - 1)))
  }

  /** An accepted request reads exactly its slice of what the locator shows. */
  lemma ValidatedReadsWindow<T>(r: Request, bytes: seq<T>)
    requires 1 <= r.length < TO_END && Validate(r).Some? && |bytes| <= MAX64
    ensures
      var visible := Slice(bytes, r.locator.windowOffset, r.locator.windowLength);
      Slice(bytes, Validate(r).value.first, r.length) == Slice(visible, r.offset, r.length)
  {
    hide Slice;
    SliceOfSlice(bytes, r.locator.windowOffset, r.locator.windowLength, r.offset, r.length);
    SliceToEnd(bytes, r.locator.windowOffset, r.offset, r.length);
  }

  // ------------------------------------------------------------------ the sorting order

  /** Requests with the same resource may share a transfer. */
  datatype Resource = Resource(backend: Backend, uri: string, ifMatch: string)

  function ResourceOf(r: Request): Resource { Resource(r.locator.backend, r.locator.canonicalUri, r.ifMatch) }

  function Rank(b: Backend): nat
  {
    match b
    case File => 0 case Http => 1 case S3 => 2 case Gcs => 3 case Azure => 4 case HuggingFace => 5 case Source => 6
  }

  predicate TextLess(a: string, b: string)
  {
    if b == [] then false
    else if a == [] then true
    else a[0] < b[0] || (a[0] == b[0] && TextLess(a[1..], b[1..]))
  }

  predicate ResourceLess(a: Resource, b: Resource)
  {
    || Rank(a.backend) < Rank(b.backend)
    || (a.backend == b.backend && TextLess(a.uri, b.uri))
    || (a.backend == b.backend && a.uri == b.uri && TextLess(a.ifMatch, b.ifMatch))
  }

  predicate Before(a: Checked, b: Checked)
  {
    var left, right := ResourceOf(a.request), ResourceOf(b.request);
    ResourceLess(left, right) || (!ResourceLess(right, left) && a.first < b.first)
  }

  lemma {:induction false} TextLessTotal(a: string, b: string)
    ensures TextLess(a, b) || TextLess(b, a) || a == b
    ensures !(TextLess(a, b) && TextLess(b, a)) && !TextLess(a, a)
  {
    if a != [] {
      TextLessTotal(a[1..], a[1..]);
      if b != [] && a[0] == b[0] {
        TextLessTotal(a[1..], b[1..]);
      }
    }
  }

  lemma {:induction false} TextLessTransitive(a: string, b: string, c: string)
    requires TextLess(a, b) && TextLess(b, c)
    ensures TextLess(a, c)
  {
    if a != [] && a[0] == b[0] == c[0] {
      TextLessTransitive(a[1..], b[1..], c[1..]);
    }
  }

  lemma ResourceLessTotal(a: Resource, b: Resource)
    ensures ResourceLess(a, b) || ResourceLess(b, a) || a == b
    ensures !(ResourceLess(a, b) && ResourceLess(b, a)) && !ResourceLess(a, a)
  {
    TextLessTotal(a.uri, b.uri);
    TextLessTotal(a.ifMatch, b.ifMatch);
    TextLessTotal(a.uri, a.uri);
    TextLessTotal(a.ifMatch, a.ifMatch);
  }

  lemma ResourceLessTransitive(a: Resource, b: Resource, c: Resource)
    requires ResourceLess(a, b) && ResourceLess(b, c)
    ensures ResourceLess(a, c)
  {
    if TextLess(a.uri, b.uri) && TextLess(b.uri, c.uri) {
      TextLessTransitive(a.uri, b.uri, c.uri);
    }
    if TextLess(a.ifMatch, b.ifMatch) && TextLess(b.ifMatch, c.ifMatch) {
      TextLessTransitive(a.ifMatch, b.ifMatch, c.ifMatch);
    }
  }

  /** `a` may stand in front of `b`. */
  predicate Ordered(a: Checked, b: Checked) { !Before(b, a) }

  lemma OrderedTransitive(a: Checked, b: Checked, c: Checked)
    requires Ordered(a, b) && Ordered(b, c)
    ensures Ordered(a, c)
  {
    var x, y, z := ResourceOf(a.request), ResourceOf(b.request), ResourceOf(c.request);
    ResourceLessTotal(x, y);
    ResourceLessTotal(y, z);
    ResourceLessTotal(x, z);
    if ResourceLess(x, y) && ResourceLess(y, z) {
      ResourceLessTransitive(x, y, z);
    }
  }

  lemma OrderedTotal(a: Checked, b: Checked)
    ensures Ordered(a, b) || Ordered(b, a)
  {
    ResourceLessTotal(ResourceOf(a.request), ResourceOf(b.request));
  }

  predicate Sorted(v: seq<Checked>)
  {
    forall i, j | 0 <= i < j < |v| :: Ordered(v[i], v[j])
  }

  /** std::stable_sort with the order above. */
  function StableSort(v: seq<Checked>): (r: seq<Checked>)
    ensures Sorted(r) && multiset(r) == multiset(v)
  {
    if v == [] then [] else
    assert v == [v[0]] + v[1..];
    Insert(v[0], StableSort(v[1..]))
  }

  function Insert(x: Checked, v: seq<Checked>): (r: seq<Checked>)
    requires Sorted(v)
    ensures Sorted(r) && multiset(r) == multiset(v) + multiset{x}
  {
    if v == [] then [x]
    else if Ordered(x, v[0]) then
      OrderedBeforeAll(x, v);
      [x] + v
    else
      OrderedAfterHead(x, v);
      assert v == [v[0]] + v[1..];
      [v[0]] + Insert(x, v[1..])
  }

  lemma OrderedBeforeAll(x: Checked, v: seq<Checked>)
    requires Sorted(v) && v != [] && Ordered(x, v[0])
    ensures Sorted([x] + v)
  {
    hide Ordered;
    forall j | 0 <= j < |v| ensures Ordered(x, v[j]) {
      if j > 0 {
        OrderedTransitive(x, v[0], v[j]);
      }
    }
  }

  lemma OrderedAfterHead(x: Checked, v: seq<Checked>)
    requires Sorted(v) && v != [] && !Ordered(x, v[0])
    ensures Sorted(v[1..])
    ensures forall rest | Sorted(rest) && multiset(rest) == multiset(v[1..]) + multiset{x} :: Sorted([v[0]] + rest)
  {
    hide Ordered;
    OrderedTotal(x, v[0]);
    forall rest | Sorted(rest) && multiset(rest) == multiset(v[1..]) + multiset{x}
      ensures Sorted([v[0]] + rest)
    {
      forall j | 0 <= j < |rest| ensures Ordered(v[0], rest[j]) {
        assert rest[j] in multiset(rest);
      }
    }
  }

  // ------------------------------------------------------------------ merging

  /** The requests of a batch that are answered at once, and why. */
  datatype Refusal = Unsupported | OutOfRange

  datatype Immediate = Immediate(tag: int, buffer: int, reason: Refusal)

  datatype PlannedPart = PlannedPart(relativeOffset: u64, length: u64, buffer: int, tag: int)

  datatype PlannedTransfer = PlannedTransfer(resource: Resource, offset: u64, length: u64,
                                             parts: seq<PlannedPart>, scattered: bool)

  datatype TransferPlan = TransferPlan(transfers: seq<PlannedTransfer>, immediate: seq<Immediate>)

  datatype Fate = Refuse(reason: Refusal) | Accept(checked: Checked)

  function FateOf(r: Request): (f: Fate)
    requires r.length >= 1
    ensures f.Accept? ==> WellChecked(f.checked) && f.checked.request == r
  {
    if r.locator.backend == File && r.ifMatch != "" then Refuse(Unsupported)
    else match Validate(r)
      case None => Refuse(OutOfRange)
      case Some(checked) => Accept(checked)
  }

  predicate WellChecked(c: Checked)
  {
    c.request.length >= 1 && c.last == c.first + c.request.length - 1
  }

  function Accepted(requests: seq<Request>): (v: seq<Checked>)
    requires Admissible(requests)
    ensures forall c | c in v :: WellChecked(c)
  {
    if requests == [] then [] else
    var init := requests[..|requests| - 1];
    var last := requests[|requests| - 1];
    assert last in requests && forall r | r in init :: r in requests;
    Accepted(init) + (match FateOf(last) case Accept(c) => [c] case Refuse(_) => [])
  }

  function Refused(requests: seq<Request>): seq<Immediate>
    requires Admissible(requests)
  {
    if requests == [] then [] else
    var init := requests[..|requests| - 1];
    var last := requests[|requests| - 1];
    assert last in requests && forall r | r in init :: r in requests;
    Refused(init) +
    (match FateOf(last)
     case Accept(_) => []
     case Refuse(reason) => [Immediate(last.tag, last.buffer, reason)])
  }

  predicate AllWellChecked(v: seq<Checked>) { forall c | c in v :: WellChecked(c) }

  /** The last byte of the run [first, next) of sorted requests. */
  function LastByte(v: seq<Checked>, first: nat, next: nat): (r: u64)
    requires first < next <= |v| && AllWellChecked(v)
    ensures forall i | first <= i < next :: v[i].last <= r
    ensures exists i | first <= i < next :: v[i].last == r
    ensures v[first].first <= r
    decreases next
  {
    assert WellChecked(v[first]);
    if next == first + 1 then v[first].last
    else Max(LastByte(v, first, next - 1), v[next - 1].last)
  }

  /** The requested bytes of a run, in arithmetic that stops at the largest 64-bit value. */
  function UsefulBytes(v: seq<Checked>, first: nat, next: nat): (r: u64)
    requires first < next <= |v|
    decreases next
  {
    if next == first + 1 then v[first].request.length
    else Min(MAX64, UsefulBytes(v, first, next - 1) + v[next - 1].request.length)
  }

  predicate ExcessiveAmplification(span: u64, useful: u64, maximum: u64)
    requires maximum >= 1
  {
    useful <= MAX64 / maximum && span > useful * maximum
  }

  function GapFor(o: Options, backend: Backend): u64 { if backend == File then 0 else o.gap }

  /** Does the greedy loop add request `next` to the run that starts at `first`? */
  predicate Admits(v: seq<Checked>, o: Options, first: nat, next: nat)
    requires first < next < |v| && AllWellChecked(v) && ValidOptions(o)
  {
    var last := LastByte(v, first, next);
    var mergedLast := Max(last, v[next].last);
    && o.gap > 0
    && ResourceOf(v[first].request) == ResourceOf(v[next].request)
    && (v[next].first > last ==> v[next].first - last - 1 <= GapFor(o, v[first].request.locator.backend))
    && mergedLast - v[first].first < MAX64
    && next - first < o.parts
    && mergedLast - v[first].first + 1 <= o.limit
    && !ExcessiveAmplification(mergedLast - v[first].first + 1, UsefulBytes(v, first, next + 1), o.amplification)
  }

  /** Positions from 0 to n: run i is [cuts[i], cuts[i + 1]). */
  predicate IsCut(cuts: seq<nat>, n: nat)
  {
    cuts != [] && cuts[0] == 0 && cuts[|cuts| - 1] == n
  }

  predicate IsRun(v: seq<Checked>, o: Options, first: nat, next: nat)
    requires first < next <= |v| && AllWellChecked(v) && ValidOptions(o)
  {
    forall m | first < m < next :: Admits(v, o, first, m)
  }

  /** A run that is admitted request by request and could not have been longer. */
  predicate IsGreedyRun(v: seq<Checked>, o: Options, first: nat, next: nat)
    requires AllWellChecked(v) && ValidOptions(o)
  {
    && first < next <= |v| && IsRun(v, o, first, next)
    && (next < |v| ==> !Admits(v, o, first, next))
  }

  predicate IsPlan(v: seq<Checked>, o: Options, cuts: seq<nat>)
    requires AllWellChecked(v) && ValidOptions(o)
  {
    && IsCut(cuts, |v|)
    && forall i, j {:trigger cuts[i], cuts[j]} | 0 <= i && j == i + 1 < |cuts| :: IsGreedyRun(v, o, cuts[i], cuts[j])
  }

  function PartOf(v: seq<Checked>, first: nat, m: nat): PlannedPart
    requires m < |v| && first < |v| && v[first].first <= v[m].first
  {
    PlannedPart(v[m].first - v[first].first, v[m].request.length, v[m].request.buffer, v[m].request.tag)
  }

  /** Is `t` the transfer of the run [first, next)? */
  predicate IsTransferOf(t: PlannedTransfer, v: seq<Checked>, first: nat, next: nat)
    requires first < next <= |v| && AllWellChecked(v)
  {
    && t.resource == ResourceOf(v[first].request)
    && t.offset == v[first].first
    && t.length == LastByte(v, first, next) - v[first].first + 1
    && |t.parts| == next - first
    && (forall m | first <= m < next :: v[first].first <= v[m].first && t.parts[m - first] == PartOf(v, first, m))
    && t.scattered == (|t.parts| != 1)
  }

  method CheckRequests(requests: seq<Request>) returns (valid: seq<Checked>, immediate: seq<Immediate>)
    requires Admissible(requests)
    ensures valid == Accepted(requests) && immediate == Refused(requests)
  {
    valid, immediate := [], [];
    for i := 0 to |requests|
      invariant valid == Accepted(requests[..i]) && immediate == Refused(requests[..i])
    {
      var request := requests[i];
      assert requests[..i + 1][..i] == requests[..i];
      if request.locator.backend == File && request.ifMatch != "" {
        immediate := immediate + [Immediate(request.tag, request.buffer, Unsupported)];
      } else {
        var checked := Validate(request);
        if checked.Some? {
          valid := valid + [checked.value];
        } else {
          immediate := immediate + [Immediate(request.tag, request.buffer, OutOfRange)];
        }
      }
    }
    assert requests[..|requests|] == requests;
  }

  /** Sorted requests of one resource start at non-decreasing offsets. */
  lemma SortedSameResource(v: seq<Checked>, i: nat, j: nat)
    requires Sorted(v) && i <= j < |v| && ResourceOf(v[i].request) == ResourceOf(v[j].request)
    ensures v[i].first <= v[j].first
  {
    ResourceLessTotal(ResourceOf(v[i].request), ResourceOf(v[j].request));
    assert i < j ==> Ordered(v[i], v[j]);
  }

  /** The checks of one step of the merging loop (src/runtime/planner.cpp:152-174). */
  method WorthMerging(v: seq<Checked>, o: Options, first: nat, next: nat, lastByte: u64, usefulBytes: u64)
    returns (worth: bool, mergedLast: u64, mergedUseful: u64)
    requires first < next < |v| && AllWellChecked(v) && Sorted(v) && ValidOptions(o) && o.gap > 0
    requires lastByte == LastByte(v, first, next) && usefulBytes == UsefulBytes(v, first, next)
    requires next - first <= o.parts
    ensures worth == Admits(v, o, first, next)
    ensures worth ==> v[first].first <= v[next].first && mergedLast - v[first].first < MAX64 && next - first < o.parts
    ensures worth ==> mergedLast == LastByte(v, first, next + 1) && mergedUseful == UsefulBytes(v, first, next + 1)
  {
    hide Sorted, Ordered;
    var head, candidate := v[first], v[next];
    var coalesceGap := GapFor(o, head.request.locator.backend);
    assert WellChecked(head) && WellChecked(candidate);
    worth, mergedLast, mergedUseful := false, 0, 0;
    if ResourceOf(head.request) != ResourceOf(candidate.request) {
      return;
    }
    SortedSameResource(v, first, next);
    if candidate.first > lastByte && candidate.first - lastByte - 1 > coalesceGap {
      return;
    }
    mergedLast := Max(lastByte, candidate.last);
    if mergedLast - head.first == MAX64 {
      return;
    }
    var mergedLength: u64 := mergedLast - head.first + 1;
    mergedUseful :=
      if candidate.request.length > MAX64 - usefulBytes then MAX64 else usefulBytes + candidate.request.length;
    worth := !(next - first == o.parts || mergedLength > o.limit
               || ExcessiveAmplification(mergedLength, mergedUseful, o.amplification));
  }

  lemma RunOfOne(v: seq<Checked>, first: nat)
    requires first < |v| && AllWellChecked(v)
    ensures LastByte(v, first, first + 1) == v[first].last
    ensures UsefulBytes(v, first, first + 1) == v[first].request.length
    ensures v[first].last == v[first].first + v[first].request.length - 1
  {
    assert WellChecked(v[first]);
  }

  lemma NothingMergesWithoutGap(v: seq<Checked>, o: Options, first: nat, next: nat)
    requires first < next < |v| && AllWellChecked(v) && ValidOptions(o) && o.gap == 0
    ensures !Admits(v, o, first, next)
  {}

  /** Builds one transfer: extends the run while the next request is worth merging. */
  method MergeRun(v: seq<Checked>, o: Options, first: nat) returns (t: PlannedTransfer, next: nat)
    requires first < |v| && AllWellChecked(v) && Sorted(v) && ValidOptions(o)
    ensures IsGreedyRun(v, o, first, next)
    ensures IsTransferOf(t, v, first, next)
  {
    hide Sorted, Admits, LastByte, UsefulBytes;
    var head := v[first];
    RunOfOne(v, first);
    var offset := head.first;
    var parts := [PlannedPart(0, head.request.length, head.request.buffer, head.request.tag)];
    var lastByte, usefulBytes := head.last, head.request.length;
    next := first + 1;
    while o.gap > 0 && next < |v|
      invariant first < next <= |v| && IsRun(v, o, first, next)
      invariant lastByte == LastByte(v, first, next) && usefulBytes == UsefulBytes(v, first, next)
      invariant |parts| == next - first <= o.parts && lastByte - offset < MAX64
      invariant forall m | first <= m < next :: offset <= v[m].first && parts[m - first] == PartOf(v, first, m)
      decreases |v| - next
    {
      var worth, mergedLast, mergedUseful := WorthMerging(v, o, first, next, lastByte, usefulBytes);
      if !worth {
        break;
      }
      var candidate := v[next];
      parts := parts + [PlannedPart(candidate.first - offset, candidate.request.length, candidate.request.buffer,
                                    candidate.request.tag)];
      lastByte, usefulBytes := mergedLast, mergedUseful;
      next := next + 1;
    }
    if o.gap == 0 && next < |v| {
      NothingMergesWithoutGap(v, o, first, next);
    }
    var length: u64 := lastByte - offset + 1;
    t := PlannedTransfer(ResourceOf(head.request), offset, length, parts,
                         |parts| != 1 || parts[0].relativeOffset != 0 || parts[0].length != length);
  }

  predicate IsTransferOfCut(t: PlannedTransfer, v: seq<Checked>, cuts: seq<nat>, i: nat)
    requires AllWellChecked(v)
  {
    i + 1 < |cuts| && cuts[i] < cuts[i + 1] <= |v| && IsTransferOf(t, v, cuts[i], cuts[i + 1])
  }

  lemma TransfersStay(transfers: seq<PlannedTransfer>, v: seq<Checked>, cuts: seq<nat>, next: nat)
    requires AllWellChecked(v)
    requires forall i | 0 <= i < |transfers| :: IsTransferOfCut(transfers[i], v, cuts, i)
    ensures forall i | 0 <= i < |transfers| :: IsTransferOfCut(transfers[i], v, cuts + [next], i)
  {}

  /** Is it the very object that the request's locator names, under the request's precondition? */
  predicate Names(resource: Resource, r: Request)
  {
    resource.backend == r.locator.backend && resource.uri == r.locator.canonicalUri && resource.ifMatch == r.ifMatch
  }

  /** Do the requests of the i-th run all name the transfer's object? */
  predicate ServesItsObject(t: PlannedTransfer, v: seq<Checked>, cuts: seq<nat>, i: nat)
  {
    i + 1 < |cuts| && cuts[i + 1] <= |v| && forall m | cuts[i] <= m < cuts[i + 1] :: Names(t.resource, v[m].request)
  }

  lemma RunServesOneObject(t: PlannedTransfer, v: seq<Checked>, o: Options, cuts: seq<nat>, i: nat)
    requires AllWellChecked(v) && ValidOptions(o) && IsTransferOfCut(t, v, cuts, i)
    requires IsGreedyRun(v, o, cuts[i], cuts[i + 1])
    ensures ServesItsObject(t, v, cuts, i)
  {
    forall m | cuts[i] <= m < cuts[i + 1] ensures Names(t.resource, v[m].request) {
      assert m > cuts[i] ==> Admits(v, o, cuts[i], m);
    }
  }

  lemma TransfersServeOneObject(transfers: seq<PlannedTransfer>, v: seq<Checked>, o: Options, cuts: seq<nat>)
    requires AllWellChecked(v) && ValidOptions(o) && IsPlan(v, o, cuts) && |transfers| == |cuts| - 1
    requires forall i | 0 <= i < |transfers| :: IsTransferOfCut(transfers[i], v, cuts, i)
    ensures forall i | 0 <= i < |transfers| :: ServesItsObject(transfers[i], v, cuts, i)
  {
    hide IsTransferOf, IsRun, Admits, ServesItsObject;
    forall i | 0 <= i < |transfers| ensures ServesItsObject(transfers[i], v, cuts, i) {
      assert IsGreedyRun(v, o, cuts[i], cuts[i + 1]);
      RunServesOneObject(transfers[i], v, o, cuts, i);
    }
  }

  method PlanTransfers(requests: seq<Request>, o: Options)
    returns (plan: TransferPlan, ghost sorted: seq<Checked>, ghost cuts: seq<nat>)
    requires Admissible(requests) && ValidOptions(o)
    ensures plan.immediate == Refused(requests) && sorted == StableSort(Accepted(requests))
    ensures AllWellChecked(sorted) && IsPlan(sorted, o, cuts)
    ensures |plan.transfers| == |cuts| - 1
    ensures forall i | 0 <= i < |plan.transfers| :: IsTransferOfCut(plan.transfers[i], sorted, cuts, i)
    ensures forall i | 0 <= i < |plan.transfers| :: ServesItsObject(plan.transfers[i], sorted, cuts, i)
  {
    hide IsTransferOf, IsRun, Admits, Sorted, StableSort, AllWellChecked, LastByte, ServesItsObject, Accepted, Refused;
    var valid, immediate := CheckRequests(requests);
    var v := StableSort(valid);
    SortKeepsChecked(valid);
    var transfers, first := [], 0;
    cuts := [0];
    while first < |v|
      invariant 0 <= first <= |v| && IsCut(cuts, first) && |transfers| == |cuts| - 1
      invariant forall i, j {:trigger cuts[i], cuts[j]} | 0 <= i && j == i + 1 < |cuts| ::
                  IsGreedyRun(v, o, cuts[i], cuts[j])
      invariant forall i | 0 <= i < |transfers| :: IsTransferOfCut(transfers[i], v, cuts, i)
    {
      var t, next := MergeRun(v, o, first);
      TransfersStay(transfers, v, cuts, next);
      transfers := transfers + [t];
      cuts := cuts + [next];
      first := next;
    }
    plan, sorted := TransferPlan(transfers, immediate), v;
    TransfersServeOneObject(transfers, v, o, cuts);
  }

  lemma SortKeepsChecked(v: seq<Checked>)
    requires AllWellChecked(v)
    ensures AllWellChecked(StableSort(v))
  {
    forall c | c in StableSort(v) ensures WellChecked(c) {
      assert c in multiset(StableSort(v));
      assert c in v;
    }
  }
}
