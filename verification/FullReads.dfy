/**
  What a good server gets done: a transfer whose first request is answered in full succeeds at once.
*/
module FullReads {
  import opened Numbers
  import opened Origin
  import opened Scatter
  import opened Transfers
  import opened Resumption
  import opened Retries
  import opened Uris
  import opened HttpRun
  import Probes

  lemma {:induction false} EntryIsAnswered(log: seq<Logged>, server: Server, backend: Backend, hint: string,
                                           maxAttempts: nat, l: Layout, i: nat)
    requires Run(log, server, backend, hint, maxAttempts, l) && i < |log|
    ensures log[i].x == server(i, log[i].pin, log[i].first, log[i].length) && log[i].x.startFailure.None?
    ensures i < |log| - 1 ==> !log[i].next.Finish?
  {
    hide Decided;
    if i < |log| - 1 {
      EntryIsAnswered(log[..|log| - 1], server, backend, hint, maxAttempts, l, i);
    }
  }

  /** If the first request goes out and its reply holds the whole range, one request is enough: every part
      is complete, or as long as the object allows. */
  method FetchAtOnce(t: Transfer, server: Server, backend: Backend, hint: string, maxAttempts: nat,
                     ghost versions: set<Version>)
    returns (status: Status, completions: seq<Completion>, sent: nat, ghost source: Version)
    requires t.WellFormed() && t.Valid() && t.resumed == 0 && t.resumeEtag == ""
    requires HonestServer(server, versions) && maxAttempts >= 1
    requires server(0, t.ifMatch, t.offset, t.length).startFailure.None?
    requires Fulfils(t.Shape(), t.fallbackLimit, t.ifMatch, t.offset, server(0, t.ifMatch, t.offset, t.length).reply)
    modifies t, t.Buffers()
    ensures status == KaruOk && sent == 1 && |completions| == |t.parts|
    ensures
      var content := server(0, t.ifMatch, t.offset, t.length).reply.version.content;
      source in versions && forall i | 0 <= i < |t.parts| ::
        Kept(t, i, completions[i], source.content) && completions[i].got == PresentOf(t, i, content)
  {
    hide HonestServer, Run, Told, Failures, Corrected, ProgressOf, Kept, MostFailures, Disciplined, Fulfils;
    ghost var log, last, ending;
    ghost var x := server(0, t.ifMatch, t.offset, t.length);
    status, completions, sent, log, source, last, ending := FetchHttp(t, server, backend, hint, maxAttempts, versions);
    if log != [] {
      EntryIsAnswered(log, server, backend, hint, maxAttempts, t.Shape(), 0);
      assert TakesWhatFulfils(t.Shape(), t.fallbackLimit, log[0]);
    }
  }

  // ------------------------------------------------------------------ a server of ranges

  /** The bytes of a range that exist, with the size of the object. */
  function PartialReply(v: Version, first: nat, length: nat): Reply
    requires first < |v.content| <= MAX64 && length >= 1
  {
    var end := Min(first + length, |v.content|);
    Reply(v, 206, v.etag, Satisfied(first, end - 1, Some(|v.content|)), end - first, false, [v.content[first..end]],
          CurlCode.Ok)
  }

  function RangeServer(v: Version): Server
    requires |v.content| <= MAX64
  {
    (i, pin, first, length) =>
      var reply := if pin !in {"", v.etag} then Reply(v, 412, "", Missing, 0, false, [], CurlCode.Ok)
                   else if 0 <= first < |v.content| && length >= 1 then PartialReply(v, first, length)
                   else Reply(v, 416, "", Unsatisfied(|v.content|), 0, false, [], CurlCode.Ok);
      Exchange(reply, None, "", false, false, false, false, None, false)
  }

  lemma PartialReplyIsHonest(v: Version, first: nat, length: nat)
    requires first < |v.content| <= MAX64 && length >= 1
    ensures Honest(PartialReply(v, first, length)) && PartialReply(v, first, length).Body()
         == v.content[first..Min(first + length, |v.content|)]
  {
    var bytes := v.content[first..Min(first + length, |v.content|)];
    assert [bytes][1..] == [];
    assert Flatten([bytes]) == bytes + Flatten<byte>([]) == bytes;
  }

  lemma RangeServerIsHonest(v: Version)
    requires |v.content| <= MAX64
    ensures HonestServer(RangeServer(v), {v})
  {
    hide Honest;
    forall i: nat, pin: string, first: int, length: int
      ensures HonestExchange(RangeServer(v)(i, pin, first, length), pin, {v})
    {
      RefusalIsHonest(v);
      if 0 <= first < |v.content| && length >= 1 { PartialReplyIsHonest(v, first, length); }
    }
  }

  lemma RefusalIsHonest(v: Version)
    requires |v.content| <= MAX64
    ensures Honest(Reply(v, 412, "", Missing, 0, false, [], CurlCode.Ok))
    ensures Honest(Reply(v, 416, "", Unsatisfied(|v.content|), 0, false, [], CurlCode.Ok))
  {}

  /** A ranged transfer from such a server succeeds with one request, wherever it starts in the object. */
  method FetchFromRangeServer(t: Transfer, v: Version, backend: Backend, hint: string, maxAttempts: nat)
    returns (status: Status, completions: seq<Completion>, sent: nat)
    requires t.WellFormed() && t.Valid() && t.resumed == 0 && t.resumeEtag == "" && maxAttempts >= 1
    requires t.offset < |v.content| <= MAX64 && t.ifMatch in {"", v.etag}
    modifies t, t.Buffers()
    ensures status == KaruOk && sent == 1 && |completions| == |t.parts|
    ensures forall i | 0 <= i < |t.parts| ::
              Kept(t, i, completions[i], v.content) && completions[i].got == PresentOf(t, i, v.content)
  {
    RangeServerIsHonest(v);
    PartialReplyIsHonest(v, t.offset, t.length);
    RangeIsFulfilled(t.Shape(), t.fallbackLimit, t.ifMatch, v);
    hide HonestServer, Fulfils, PartialReply;
    ghost var source;
    status, completions, sent, source := FetchAtOnce(t, RangeServer(v), backend, hint, maxAttempts, {v});
  }

  lemma RangeIsFulfilled(l: Layout, limit: u64, pin: string, v: Version)
    requires ValidLayout(l) && l.offset < |v.content| <= MAX64 && pin in {"", v.etag}
    ensures Fulfils(l, limit, pin, l.offset, PartialReply(v, l.offset, l.length))
  {
    PartialReplyIsHonest(v, l.offset, l.length);
  }

  /** The same reply settles a single ranged GET, wherever the range starts in the object; a suffix begins
      where as many bytes are left. */
  lemma ProbeIsAnswered(v: Version, range: Probes.ByteRange, pin: string, limit: u64)
    requires Probes.ValidRange(range) && 0 < |v.content| <= MAX64 && pin in {"", v.etag}
    requires !range.suffix ==> range.first < |v.content|
    ensures
      var first := if range.suffix then Max(0, |v.content| - range.length) else range.first;
      Probes.Completes(range, pin, limit, PartialReply(v, first, range.length))
  {
    PartialReplyIsHonest(v, if range.suffix then Max(0, |v.content| - range.length) else range.first, range.length);
  }
}
