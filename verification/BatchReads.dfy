/**
  From the caller's requests to the bytes in the caller's buffers: the plan of a batch, the HTTP
  transfer of one planned transfer, and the windows of the locators, put together.
*/
module BatchReads {
  import opened Numbers
  import opened Origin
  import opened Scatter
  import opened Resumption
  import opened Retries
  import opened Uris
  import opened Planner
  import PlannerProperties
  import T = Transfers
  import HttpRun

  /** The plan that `PlanTransfers` makes of the requests. */
  ghost predicate IsPlanOf(plan: TransferPlan, requests: seq<Request>, o: Options, sorted: seq<Checked>, cuts: seq<nat>)
    requires Admissible(requests) && ValidOptions(o)
  {
    && plan.immediate == Refused(requests) && sorted == StableSort(Accepted(requests))
    && AllWellChecked(sorted) && IsPlan(sorted, o, cuts) && |plan.transfers| == |cuts| - 1
    && forall i | 0 <= i < |plan.transfers| :: IsTransferOfCut(plan.transfers[i], sorted, cuts, i)
  }

  /** What the locator of `r` shows at the range of `r`, when the object holds `content`. */
  function Asked(r: Request, content: seq<byte>): seq<byte>
  {
    Slice(Slice(content, r.locator.windowOffset, r.locator.windowLength), r.offset, r.length)
  }

  /** What the caller of `r` is promised: with OK, exactly what was asked for; with a range error, the
      first `got` bytes of it, and all that exist of it if the transfer's end is the object's. */
  ghost predicate Answers(c: T.Completion, r: Request, content: seq<byte>, toldEnd: bool)
    reads c.buffer
  {
    && c.tag == r.tag && c.got <= c.buffer.Length == r.length
    && c.status == (if c.got == r.length then T.KaruOk else T.ErrRange)
    && c.buffer[..c.got] <= Asked(r, content)
    && (c.status == T.KaruOk || toldEnd ==> c.buffer[..c.got] == Asked(r, content))
  }

  // ------------------------------------------------------------------ the requests behind a plan

  lemma {:induction false} AcceptedAreRequests(requests: seq<Request>, c: Checked)
    requires Admissible(requests) && c in Accepted(requests)
    ensures c.request in requests && c.request.length >= 1 && Validate(c.request) == Some(c)
    decreases |requests|
  {
    hide Validate, WellChecked;
    var init, last := requests[..|requests| - 1], requests[|requests| - 1];
    assert last in requests && forall r | r in init :: r in requests;
    if c in Accepted(init) {
      AcceptedAreRequests(init, c);
    }
  }

  lemma SortedAreRequests(requests: seq<Request>, m: nat)
    requires Admissible(requests) && m < |StableSort(Accepted(requests))|
    ensures
      var c := StableSort(Accepted(requests))[m];
      c.request in requests && 1 <= c.request.length < TO_END && Validate(c.request) == Some(c)
  {
    hide Sorted, Validate, WellChecked;
    var c := StableSort(Accepted(requests))[m];
    assert c in multiset(StableSort(Accepted(requests)));
    AcceptedAreRequests(requests, c);
  }

  // ------------------------------------------------------------------ bytes of one part

  lemma PartIsSlice(content: seq<byte>, first: nat, length: nat, buffer: seq<byte>, got: nat)
    requires got <= length && got <= |buffer|
    requires forall k | 0 <= k < got :: ByteIs(content, first + k, buffer[k])
    ensures buffer[..got] <= Slice(content, first, length)
    ensures got == length || got == Max(0, Min(length, |content| - first)) ==>
              buffer[..got] == Slice(content, first, length)
  {
    var slice := Slice(content, first, length);
    if got > 0 {
      assert ByteIs(content, first + (got - 1), buffer[got - 1]);
      forall k | 0 <= k < got ensures buffer[..got][k] == slice[k] {
        assert ByteIs(content, first + k, buffer[k]);
      }
    }
  }

  /** `t` is the receiving side of `planned`: the same range, parts and pin. */
  ghost predicate Carries(t: T.Transfer, planned: PlannedTransfer)
  {
    && t.offset == planned.offset && t.length == planned.length && t.ifMatch == planned.resource.ifMatch
    && |t.parts| == |planned.parts|
    && forall k | 0 <= k < |t.parts| ::
         && t.parts[k].relativeOffset == planned.parts[k].relativeOffset && t.parts[k].length == planned.parts[k].length
         && t.parts[k].tag == planned.parts[k].tag
  }

  /** The part of request `m` of the run [first, next) is where its window says. */
  lemma PartIsRequest(t: T.Transfer, planned: PlannedTransfer, v: seq<Checked>, first: nat, next: nat, m: nat)
    requires Carries(t, planned) && first <= m < next <= |v| && AllWellChecked(v)
    requires IsTransferOf(planned, v, first, next)
    ensures
      var part := t.parts[m - first];
      && part.tag == v[m].request.tag && part.length == v[m].request.length
      && t.offset + part.relativeOffset == v[m].first
  {
    assert planned.parts[m - first] == PartOf(v, first, m);
  }

  /** What is present of a part is all of it, or all that exists if the transfer ends where the
      object does. */
  lemma PresentIsAll(l: Layout, k: nat, received: u64, content: seq<byte>)
    requires ValidLayout(l) && k < |l.spans| && Truthful(l, received, content)
    ensures
      var span := l.spans[k];
      var got := Max(0, Min(span.length, received - span.relative));
      got == span.length || got == Max(0, Min(span.length, |content| - (l.offset + span.relative)))
  {}

  /** A part of a transfer that was kept answers its request. */
  lemma KeptAnswers(t: T.Transfer, part: T.Part, r: Request, k: nat, c: T.Completion, source: Version)
    requires t.WellFormed() && t.Valid() && |source.content| <= MAX64 && k < |t.parts| && t.parts[k] == part
    requires 1 <= r.length < TO_END && Validate(r).Some? && t.offset + part.relativeOffset == Validate(r).value.first
    requires part.tag == r.tag && part.length == r.length
    requires HttpRun.Kept(t, k, c, source.content)
    requires c == T.Transfer.CompletionOf(part, T.KaruOk, t.received)
    ensures Answers(c, r, source.content, Truthful(t.Shape(), t.received, source.content))
  {
    hide Slice, Validate;
    assert t.Shape().spans[k] == Span(part.relativeOffset, part.length);
    if Truthful(t.Shape(), t.received, source.content) {
      PresentIsAll(t.Shape(), k, t.received, source.content);
    }
    hide ValidLayout, Truthful;
    ValidatedReadsWindow(r, source.content);
    PartIsSlice(source.content, Validate(r).value.first, r.length, c.buffer[..], c.got);
    assert c.buffer[..][..c.got] == c.buffer[..c.got];
  }

  // ------------------------------------------------------------------ one transfer of a batch

  /** The transfer object of a planned transfer, with one buffer per part. */
  method Receiver(planned: PlannedTransfer, buffers: seq<array<byte>>, fallbackLimit: u64) returns (t: T.Transfer)
    requires ValidLayout(PlannerProperties.LayoutOf(planned)) && planned.parts != [] && |buffers| == |planned.parts|
    requires forall k | 0 <= k < |buffers| :: buffers[k].Length == planned.parts[k].length
    requires forall j, k | 0 <= j < k < |buffers| :: buffers[j] != buffers[k]
    ensures fresh(t) && t.WellFormed() && t.Valid() && t.resumed == 0 && t.resumeEtag == "" && Carries(t, planned)
    ensures forall k | 0 <= k < |buffers| :: t.parts[k].buffer == buffers[k]
  {
    var parts := seq(|buffers|, k requires 0 <= k < |buffers| =>
      T.Part(planned.parts[k].relativeOffset, planned.parts[k].length, buffers[k], planned.parts[k].tag));
    assert Layout(planned.offset, planned.length, T.Transfer.Spans(parts)) == PlannerProperties.LayoutOf(planned);
    t := new T.Transfer(planned.offset, planned.length, parts, planned.resource.ifMatch, fallbackLimit);
  }

  /** Runs the i-th transfer of a plan. Each of its requests completes under its tag; if the transfer
      succeeds, its buffer holds what its locator shows at its range, of one version for all of them. */
  method FetchPlanned(requests: seq<Request>, o: Options, plan: TransferPlan, ghost sorted: seq<Checked>,
                      ghost cuts: seq<nat>, i: nat, buffers: seq<array<byte>>, server: HttpRun.Server, hint: string,
                      maxAttempts: nat, fallbackLimit: u64, ghost versions: set<Version>)
    returns (status: T.Status, completions: seq<T.Completion>, t: T.Transfer, ghost source: Version,
             ghost last: Version)
    requires Admissible(requests) && ValidOptions(o) && IsPlanOf(plan, requests, o, sorted, cuts)
    requires i < |plan.transfers|
    requires |buffers| == |plan.transfers[i].parts|
    requires forall k | 0 <= k < |buffers| :: buffers[k].Length == plan.transfers[i].parts[k].length
    requires forall j, k | 0 <= j < k < |buffers| :: buffers[j] != buffers[k]
    requires HttpRun.HonestServer(server, versions) && maxAttempts >= 1
    requires forall v | v in versions :: |v.content| <= MAX64
    modifies set b | b in buffers
    ensures cuts[i] < cuts[i + 1] <= |sorted| && |completions| == |buffers| == cuts[i + 1] - cuts[i]
    ensures forall m | 0 <= m < |sorted| :: sorted[m].request in requests
    ensures forall k | 0 <= k < |completions| ::
              completions[k].tag == sorted[cuts[i] + k].request.tag && completions[k].buffer == buffers[k]
    ensures t.WellFormed() && ServesItsObject(plan.transfers[i], sorted, cuts, i)
    ensures status == T.KaruOk ==>
              && source in versions && HttpRun.Told(t, source, last)
              && forall k | 0 <= k < |completions| ::
                   Answers(completions[k], sorted[cuts[i] + k].request, source.content,
                           Truthful(t.Shape(), t.received, source.content))
    ensures status == T.KaruOk && IsStrongEtag(plan.transfers[i].resource.ifMatch) ==>
              || source.etag == plan.transfers[i].resource.ifMatch
              || forall k | 0 <= k < |completions| :: completions[k].got == 0
    ensures status != T.KaruOk ==>
              forall k | 0 <= k < |completions| :: completions[k].status == status && completions[k].got == 0
  {
    hide IsPlanOf, Answers, Truthful, HttpRun.Kept, HttpRun.Told, HttpRun.Justified, HttpRun.EndsWith, HttpRun.Run,
      Failures, Corrected, ProgressOf, Disciplined, Carries, HttpRun.HonestServer, ValidLayout, T.Transfer.CompletionOf,
      IsStrongEtag, T.Transfer.WellFormed, StableSort, Accepted, AllWellChecked, Validate, WellChecked, IsTransferOf,
      FateOf, Admissible, PlannerProperties.LayoutOf, Corrections, LastByte, ServesItsObject;
    var planned := plan.transfers[i];
    PlannedIsRun(requests, o, plan, sorted, cuts, i);
    ghost var first, next := cuts[i], cuts[i + 1];
    forall m | 0 <= m < |sorted| ensures sorted[m].request in requests { SortedAreRequests(requests, m); }
    t := Receiver(planned, buffers, fallbackLimit);
    CarriesParts(t, planned);
    assert t.Buffers() == set b | b in buffers;
    var sent;
    ghost var log, ending;
    status, completions, sent, log, source, last, ending :=
      HttpRun.FetchHttp(t, server, planned.resource.backend, hint, maxAttempts, versions);
    forall k | 0 <= k < |completions|
      ensures completions[k].tag == sorted[cuts[i] + k].request.tag && completions[k].buffer == buffers[k]
      ensures status != T.KaruOk ==> completions[k].status == status && completions[k].got == 0
      ensures status == T.KaruOk ==>
                Answers(completions[k], sorted[cuts[i] + k].request, source.content,
                        Truthful(t.Shape(), t.received, source.content))
    {
      SortedAreRequests(requests, cuts[i] + k);
      RequestIsAnswered(t, planned, sorted, first, next, k, status, completions[k], source);
    }
  }

  lemma RequestIsAnswered(t: T.Transfer, planned: PlannedTransfer, v: seq<Checked>, first: nat, next: nat, k: nat,
                          status: T.Status, c: T.Completion, source: Version)
    requires t.WellFormed() && t.Valid() && Carries(t, planned)
    requires first < next <= |v| && AllWellChecked(v) && IsTransferOf(planned, v, first, next)
    requires k < next - first == |t.parts|
    requires 1 <= v[first + k].request.length && Validate(v[first + k].request) == Some(v[first + k])
    requires c == T.Transfer.CompletionOf(t.parts[k], status, t.received)
    requires status == T.KaruOk ==>
      v[first + k].request.length < TO_END && |source.content| <= MAX64 && HttpRun.Kept(t, k, c, source.content)
    ensures c.tag == v[first + k].request.tag && c.buffer == t.parts[k].buffer
    ensures status != T.KaruOk ==> c.status == status && c.got == 0
    ensures status == T.KaruOk ==>
      Answers(c, v[first + k].request, source.content, Truthful(t.Shape(), t.received, source.content))
  {
    hide Answers, Truthful, HttpRun.Kept, T.Transfer.CompletionOf, Carries, IsTransferOf, Validate, AllWellChecked;
    PartIsRequest(t, planned, v, first, next, first + k);
    TagOf(t.parts[k], status, t.received);
    if status == T.KaruOk {
      KeptAnswers(t, t.parts[k], v[first + k].request, k, c, source);
    }
  }

  lemma PlannedIsRun(requests: seq<Request>, o: Options, plan: TransferPlan, sorted: seq<Checked>, cuts: seq<nat>,
                     i: nat)
    requires Admissible(requests) && ValidOptions(o) && IsPlanOf(plan, requests, o, sorted, cuts)
    requires i < |plan.transfers|
    ensures sorted == StableSort(Accepted(requests)) && i + 1 < |cuts|
    ensures cuts[i] < cuts[i + 1] <= |sorted| && AllWellChecked(sorted)
    ensures IsTransferOf(plan.transfers[i], sorted, cuts[i], cuts[i + 1])
    ensures ValidLayout(PlannerProperties.LayoutOf(plan.transfers[i])) && plan.transfers[i].parts != []
    ensures |plan.transfers[i].parts| == cuts[i + 1] - cuts[i]
    ensures ServesItsObject(plan.transfers[i], sorted, cuts, i)
  {
    hide Validate, Accepted, Insert, StableSort;
    var planned, first, next := plan.transfers[i], cuts[i], cuts[i + 1];
    assert IsGreedyRun(sorted, o, first, next) && IsTransferOfCut(planned, sorted, cuts, i);
    RunServesOneObject(planned, sorted, o, cuts, i);
    PlannerProperties.TransferIsValid(planned, sorted, o, first, next);
  }

  lemma CarriesParts(t: T.Transfer, planned: PlannedTransfer)
    requires Carries(t, planned)
    ensures |t.parts| == |planned.parts| && t.ifMatch == planned.resource.ifMatch
  {}

  lemma TagOf(part: T.Part, status: T.Status, received: u64)
    ensures
      var c := T.Transfer.CompletionOf(part, status, received);
      c.tag == part.tag && c.buffer == part.buffer && (status != T.KaruOk ==> c.status == status && c.got == 0)
  {}

  // ------------------------------------------------------------------ all transfers of a batch

  /** What is behind a URI of a backend: the versions that its object may have, and who answers the i-th
      transfer that asks for it. */
  datatype Network = Network(versions: (Backend, string) -> set<Version>,
                             servers: (nat, Backend, string) -> HttpRun.Server)

  ghost predicate HonestNetwork(net: Network)
  {
    && (forall i: nat, b: Backend, uri: string {:trigger net.servers(i, b, uri)} ::
          HttpRun.HonestServer(net.servers(i, b, uri), net.versions(b, uri)))
    && (forall b: Backend, uri: string, v | v in net.versions(b, uri) :: |v.content| <= MAX64)
  }

  /** The i-th transfer has completed its requests; if it succeeded, each of them from one and the same
      version of the object that its own locator names. */
  ghost predicate Completed(sorted: seq<Checked>, cuts: seq<nat>, i: nat, buffers: seq<array<byte>>,
                            status: T.Status, completions: seq<T.Completion>, source: Version, toldEnd: bool,
                            net: Network)
    reads set b | b in buffers
  {
    && i + 1 < |cuts| && cuts[i] < cuts[i + 1] <= |sorted|
    && |completions| == |buffers| == cuts[i + 1] - cuts[i]
    && (forall k | 0 <= k < |completions| ::
          var r := sorted[cuts[i] + k].request;
          && completions[k].tag == r.tag && completions[k].buffer == buffers[k]
          && if status == T.KaruOk then
               && source in net.versions(r.locator.backend, r.locator.canonicalUri)
               && Answers(completions[k], r, source.content, toldEnd)
             else completions[k].status == status && completions[k].got == 0)
  }

  /** One buffer of the right size for every part of every transfer, all of them separate. */
  ghost predicate Separate(plan: TransferPlan, buffers: seq<seq<array<byte>>>)
  {
    && |buffers| == |plan.transfers|
    && (forall i | 0 <= i < |buffers| :: |buffers[i]| == |plan.transfers[i].parts|)
    && (forall i, k | 0 <= i < |buffers| && 0 <= k < |buffers[i]| ::
        buffers[i][k].Length == plan.transfers[i].parts[k].length)
    && (forall i, j, k | 0 <= i < |buffers| && 0 <= j < k < |buffers[i]| :: buffers[i][j] != buffers[i][k])
    && (forall i, j | 0 <= i < j < |buffers| :: forall x, y | x in buffers[i] && y in buffers[j] :: x != y)
  }

  method FetchOne(requests: seq<Request>, o: Options, plan: TransferPlan, ghost sorted: seq<Checked>,
                  ghost cuts: seq<nat>, i: nat, buffers: seq<array<byte>>, net: Network, hint: string,
                  maxAttempts: nat, fallbackLimit: u64)
    returns (status: T.Status, completions: seq<T.Completion>, ghost source: Version, ghost toldEnd: bool)
    requires Admissible(requests) && ValidOptions(o) && IsPlanOf(plan, requests, o, sorted, cuts)
    requires i < |plan.transfers|
    requires |buffers| == |plan.transfers[i].parts|
    requires forall k | 0 <= k < |buffers| :: buffers[k].Length == plan.transfers[i].parts[k].length
    requires forall j, k | 0 <= j < k < |buffers| :: buffers[j] != buffers[k]
    requires HonestNetwork(net) && maxAttempts >= 1
    modifies set b | b in buffers
    ensures Completed(sorted, cuts, i, buffers, status, completions, source, toldEnd, net)
  {
    hide IsPlanOf, Answers, HttpRun.HonestServer, HttpRun.Told, Truthful, IsStrongEtag, Admissible, ValidOptions;
    PlanHasCuts(requests, o, plan, sorted, cuts);
    var resource := plan.transfers[i].resource;
    var t;
    ghost var last;
    status, completions, t, source, last :=
      FetchPlanned(requests, o, plan, sorted, cuts, i, buffers, net.servers(i, resource.backend, resource.uri), hint,
                   maxAttempts, fallbackLimit, net.versions(resource.backend, resource.uri));
    assert forall m | cuts[i] <= m < cuts[i + 1] :: Names(resource, sorted[m].request);
    toldEnd := Truthful(t.Shape(), t.received, source.content);
  }

  /** Runs all transfers of a batch, each against its own server. They share no buffer, so it does not
      matter that they run one after the other. */
  method FetchBatch(requests: seq<Request>, o: Options, plan: TransferPlan, ghost sorted: seq<Checked>,
                    ghost cuts: seq<nat>, buffers: seq<seq<array<byte>>>, net: Network, hint: string,
                    maxAttempts: nat, fallbackLimit: u64)
    returns (statuses: seq<T.Status>, completions: seq<seq<T.Completion>>, ghost sources: seq<Version>,
             ghost told: seq<bool>)
    requires Admissible(requests) && ValidOptions(o) && IsPlanOf(plan, requests, o, sorted, cuts)
    requires Separate(plan, buffers) && HonestNetwork(net) && maxAttempts >= 1
    modifies set i, b | 0 <= i < |buffers| && b in buffers[i] :: b
    ensures |statuses| == |completions| == |sources| == |told| == |plan.transfers|
    ensures forall i | 0 <= i < |plan.transfers| ::
              Completed(sorted, cuts, i, buffers[i], statuses[i], completions[i], sources[i], told[i], net)
  {
    hide IsPlanOf, HonestNetwork, Admissible, ValidOptions, Completed;
    statuses, completions, sources, told := [], [], [], [];
    for i := 0 to |plan.transfers|
      invariant |statuses| == |completions| == |sources| == |told| == i
      invariant forall j | 0 <= j < i ::
                  Completed(sorted, cuts, j, buffers[j], statuses[j], completions[j], sources[j], told[j], net)
    {
      var status, done;
      ghost var source, toldEnd;
      status, done, source, toldEnd :=
        FetchOne(requests, o, plan, sorted, cuts, i, buffers[i], net, hint, maxAttempts, fallbackLimit);
      statuses, completions := statuses + [status], completions + [done];
      sources, told := sources + [source], told + [toldEnd];
    }
  }

  lemma PlanHasCuts(requests: seq<Request>, o: Options, plan: TransferPlan, sorted: seq<Checked>, cuts: seq<nat>)
    requires Admissible(requests) && ValidOptions(o) && IsPlanOf(plan, requests, o, sorted, cuts)
    ensures |plan.transfers| == |cuts| - 1
  {}
}
