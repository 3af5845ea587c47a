/**
  Where the answers that a download relies on come from: the batch of one request that it submits for a
  chunk (src/download.cpp:121-142), planned and fetched like any other.
*/
module ChunkReads {
  import opened Numbers
  import opened Origin
  import opened Uris
  import opened Planner
  import opened BatchReads
  import opened Downloads
  import T = Transfers
  import HttpRun
  import Resumption

  /** What a locator shows of a version of its object. */
  function Shown(v: Version, locator: Resolved): Version
  {
    Version(v.etag, Slice(v.content, locator.windowOffset, locator.windowLength))
  }

  function AllShown(versions: set<Version>, locator: Resolved): set<Version>
  {
    set v | v in versions :: Shown(v, locator)
  }

  /** The plan of a single request: it is turned down, or is the only part of the only transfer. */
  lemma PlanOfOne(r: Request, o: Options, plan: TransferPlan, sorted: seq<Checked>, cuts: seq<nat>)
    requires 1 <= r.length < TO_END && ValidOptions(o) && IsPlanOf(plan, [r], o, sorted, cuts)
    ensures |plan.transfers| + |plan.immediate| == 1
    ensures |plan.transfers| == 1 ==>
              && |sorted| == 1 && sorted[0].request == r && cuts == [0, 1] && |plan.transfers[0].parts| == 1
              && plan.transfers[0].parts[0].length == r.length && Names(plan.transfers[0].resource, r)
  {
    hide Validate, Insert, IsRun, Admits, PartOf;
    OneOrOther(r);
    SortOfOne(Accepted([r]));
    EndsOfCut(sorted, o, cuts);
    CutsOfOne(sorted, o, cuts);
    hide IsPlan, Accepted, Refused, StableSort, AllWellChecked;
    if |plan.transfers| > 0 {
      SortedAreRequests([r], 0);
      TransferOfOne(plan.transfers[0], sorted, cuts);
    }
  }

  lemma OneOrOther(r: Request)
    requires 1 <= r.length < TO_END
    ensures |Accepted([r])| + |Refused([r])| == 1
  {
    assert [r][..0] == [];
  }

  lemma TransferOfOne(t: PlannedTransfer, v: seq<Checked>, cuts: seq<nat>)
    requires |v| == 1 && AllWellChecked(v) && cuts == [0, 1] && IsTransferOfCut(t, v, cuts, 0)
    ensures |t.parts| == 1 && t.parts[0].length == v[0].request.length && Names(t.resource, v[0].request)
  {
    assert t.parts[0 - 0] == PartOf(v, 0, 0);
  }

  lemma CutsOfOne(v: seq<Checked>, o: Options, cuts: seq<nat>)
    requires |v| <= 1 && AllWellChecked(v) && ValidOptions(o) && IsPlan(v, o, cuts)
    ensures |cuts| == |v| + 1
  {
    EndsOfCut(v, o, cuts);
    hide IsPlan;
    if |cuts| >= 2 { CutsIncrease(v, o, cuts, 0); }
    if |cuts| >= 3 { CutsIncrease(v, o, cuts, 1); }
  }

  lemma EndsOfCut(v: seq<Checked>, o: Options, cuts: seq<nat>)
    requires AllWellChecked(v) && ValidOptions(o) && IsPlan(v, o, cuts)
    ensures cuts != [] && cuts[0] == 0 && cuts[|cuts| - 1] == |v|
  {}

  lemma CutsIncrease(v: seq<Checked>, o: Options, cuts: seq<nat>, i: nat)
    requires AllWellChecked(v) && ValidOptions(o) && IsPlan(v, o, cuts) && i + 1 < |cuts|
    ensures cuts[i] < cuts[i + 1] <= |v|
  {}

  lemma SortOfOne(v: seq<Checked>)
    requires |v| <= 1
    ensures StableSort(v) == v
  {
    if v != [] {
      assert v[1..] == [];
    }
  }

  /** A chunk that answers its request in full consists of bytes that exist and are shown. */
  lemma FullChunk(c: T.Completion, r: Request, source: Version, toldEnd: bool)
    requires Answers(c, r, source.content, toldEnd) && c.status == T.KaruOk && r.length >= 1
    ensures
      var content := Shown(source, r.locator).content;
      c.got == r.length && r.offset + r.length <= |content| && c.buffer[..] == content[r.offset..r.offset + r.length]
  {
    assert c.buffer[..c.got] == c.buffer[..];
  }

  /** Submits one chunk and waits for it. Whatever the file, the callback and the next submission do
      then, the answer to the poll is an honest one, and a full chunk is in the buffer. */
  method FetchChunk(r: Request, o: Options, buffer: array<byte>, server: HttpRun.Server, hint: string, maxAttempts: nat,
                    fallbackLimit: u64, writeFails: bool, stopped: bool, statsFail: Option<T.Status>,
                    submitFails: Option<T.Status>, ghost versions: set<Version>)
    returns (status: T.Status, got: u64, ghost poll: Poll)
    requires 1 <= r.length < TO_END && ValidOptions(o) && buffer.Length == r.length
    requires r.ifMatch == "" || IsStrongEtag(r.ifMatch)
    requires HttpRun.HonestServer(server, versions) && maxAttempts >= 1
    requires forall v | v in versions :: |v.content| <= MAX64
    modifies buffer
    ensures poll.Finished? && poll.status == status && poll.got == got && poll.ownTag
    ensures poll.writeFails == writeFails && poll.stopped == stopped
    ensures poll.statsFail == statsFail && poll.submitFails == submitFails
    ensures HonestPoll(poll, r.offset, r.length, r.ifMatch, AllShown(versions, r.locator))
    ensures status == T.KaruOk ==>
              && got == r.length && r.offset + r.length <= |poll.version.content|
              && buffer[..] == poll.version.content[r.offset..r.offset + r.length]
  {
    hide IsPlan, IsTransferOf, Answers, StableSort, Accepted, HttpRun.HonestServer, HttpRun.Told, IsStrongEtag, Slice;
    var plan;
    ghost var sorted, cuts;
    plan, sorted, cuts := PlanTransfers([r], o);
    PlanOfOne(r, o, plan, sorted, cuts);
    if plan.transfers == [] {
      status, got := if plan.immediate[0].reason == Unsupported then T.ErrUnsupported else T.ErrRange, 0;
      poll := Finished(status, 0, true, Version("", []), writeFails, stopped, statsFail, submitFails);
      return;
    }
    var outcome, completions, t;
    ghost var source, last;
    outcome, completions, t, source, last :=
      FetchPlanned([r], o, plan, sorted, cuts, 0, [buffer], server, hint, maxAttempts, fallbackLimit, versions);
    var c := completions[0];
    status, got := c.status, c.got;
    poll := Finished(status, got, true, Shown(source, r.locator), writeFails, stopped, statsFail, submitFails);
    if status == T.KaruOk {
      FullChunk(c, r, source, Resumption.Truthful(t.Shape(), t.received, source.content));
    }
  }
}
