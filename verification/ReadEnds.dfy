/**
  Reading the head and the tail of an object by ranged GETs
  (src/runtime/engine.cpp:93-101, 153-157, 1061-1165). The two first requests run concurrently in
  the source; they share nothing, so they are written one after the other here.
*/
module ReadEnds {
  import opened Numbers
  import opened Origin
  import opened Probes
  import T = Transfers
  import opened Uris

  /** What answers the requests of each call, and the options of the client. */
  datatype Client = Client(net: nat -> ProbeServer, hint: string, maxAttempts: nat, fallbackLimit: u64)

  ghost predicate HonestNetwork(client: Client, versions: set<Version>)
  {
    forall call: nat {:trigger client.net(call)} ::
      HonestProbes(client.net(call), versions) && TagsReported(client.net(call))
  }

  /** Versions that differ can be told apart by their tags or their sizes. */
  ghost predicate ToldApart(versions: set<Version>)
  {
    forall v, w | v in versions && w in versions ::
      v.content == w.content || |v.content| != |w.content| || (v.etag != "" && w.etag != "" && v.etag != w.etag)
  }

  /** Nothing goes wrong: every first request is answered to its end, the object does not change, and
      a bounded window lies inside it. */
  ghost predicate Healthy(client: Client, r: Resolved, versions: set<Version>)
    requires HonestNetwork(client, versions)
  {
    && client.maxAttempts >= 1
    && (forall call: nat, range: ByteRange, pin: string | ValidRange(range) && MayAsk(pin, versions) ::
          Serves(client, call, range, pin, versions))
    && (forall v, w | v in versions && w in versions :: v == w)
    && (Bounded(r) ==> forall v | v in versions :: r.windowOffset + r.windowLength <= |v.content|)
  }

  ghost predicate Serves(client: Client, call: nat, range: ByteRange, pin: string, versions: set<Version>)
    requires HonestNetwork(client, versions) && ValidRange(range)
  {
    var x := client.net(call)(0, range, pin);
    assert HonestProbes(client.net(call), versions);
    x.startFailure.None? && Settles(range, pin, client.fallbackLimit, x)
  }

  /** No pin, or that of an existing version. */
  ghost predicate MayAsk(pin: string, versions: set<Version>)
  {
    pin == "" || exists v | v in versions :: v.etag == pin
  }

  datatype Outcome = Sized(size: u64, etag: string) | Refused(status: T.Status)

  predicate Bounded(r: Resolved) { r.windowLength != TO_END }

  function VisibleSize(r: Resolved, total: u64): u64
  {
    if Bounded(r) then r.windowLength else if total > r.windowOffset then total - r.windowOffset else 0
  }

  /** Could both replies be of the same version, as far as size and tag show? */
  predicate SameVersion(left: RangeReply, right: RangeReply)
  {
    left.total == right.total && (left.etag == "" || right.etag == "" || left.etag == right.etag)
  }

  /** The window, and an unbounded head, end inside 64 bits. */
  predicate Addressable(r: Resolved, headLength: nat)
  {
    if Bounded(r) then r.windowOffset + r.windowLength <= MAX64 else r.windowOffset + Max(headLength, 1) - 1 <= MAX64
  }

  /** The first `n` bytes are the content's bytes from `from`. */
  predicate Holds(buffer: seq<byte>, n: nat, content: seq<byte>, from: nat)
  {
    n > 0 ==> n <= |buffer| && from + n <= |content| && buffer[..n] == content[from..from + n]
  }

  /** What a success promises: the visible size, the tag, and the first and last bytes of one version. Only
      an empty window can do without one. */
  ghost predicate Correct(r: Resolved, head: seq<byte>, tail: seq<byte>, size: u64, etag: string,
                          v: Version, versions: set<Version>)
  {
    var h, t := Min(|head|, size), Min(|tail|, size);
    && (Bounded(r) ==> size == r.windowLength)
    && (!Bounded(r) ==> size == Max(0, |v.content| - r.windowOffset))
    && (!Bounded(r) || r.windowLength > 0 ==> v in versions)
    && Holds(head, h, v.content, r.windowOffset) && Holds(tail, t, v.content, r.windowOffset + size - t)
    && etag == v.etag
  }

  // ------------------------------------------------------------------ planning

  /** Which requests go out first: `headPart` bytes from the window's start, and a tail. A head of
      one byte into scratch space is only there for its size. */
  datatype Plan = Plan(headPart: u64, scratch: bool, bySuffix: bool, tailPart: u64, tailRange: ByteRange)

  function PlanFor(r: Resolved, headLength: u64, tailLength: u64): (p: Plan)
    requires Addressable(r, headLength)
    ensures p.headPart > 0 ==> ValidRange(ByteRange(r.windowOffset, p.headPart, false))
    ensures p.tailPart > 0 ==> ValidRange(p.tailRange) && p.tailRange.length == p.tailPart
    ensures p.headPart <= headLength || (p.scratch && p.headPart == 1)
    ensures p.tailPart <= tailLength
  {
    if Bounded(r) then
      var headPart := Min(headLength, r.windowLength);
      var length := if r.windowLength > headPart then Min(tailLength, r.windowLength) else 0;
      Plan(headPart, false, false, length, ByteRange(r.windowOffset + r.windowLength - length, length, false))
    else
      // Not so on Azure, where a suffix would bring everything.
      var bySuffix := tailLength > 0 && r.backend != Azure;
      var scratch := headLength == 0 && !bySuffix;
      Plan(if scratch then 1 else headLength, scratch, bySuffix,
           if bySuffix then tailLength else 0, ByteRange(0, tailLength, true))
  }

  // ------------------------------------------------------------------ the requests

  const NO_REPLY: RangeReply := RangeReply(0, 0, 0, "", false)

  /** What is known of a part after its request, if there was one. */
  ghost predicate Known(n: u64, range: ByteRange, reply: RangeReply, stored: seq<byte>, v: Version,
                        versions: set<Version>)
  {
    if n == 0 then reply == NO_REPLY
    else v in versions && Truthful(range, reply, "", stored, v) && reply.etag == v.etag
  }

  method Get(client: Client, call: nat, r: Resolved, n: u64, range: ByteRange, destination: array<byte>, pin: string,
             ghost versions: set<Version>)
    returns (result: Result, ghost source: Version)
    requires HonestNetwork(client, versions) && MayAsk(pin, versions)
    requires n > 0 ==> ValidRange(range) && range.length <= destination.Length
    modifies destination
    ensures n == 0 ==> result == Answered(NO_REPLY)
    ensures n > 0 ==> destination[range.length..] == old(destination[range.length..])
    ensures result.Answered? ==> Known(n, range, result.reply, destination[..], source, versions)
    ensures result.Failed? ==> result.status != T.KaruOk && !Healthy(client, r, versions)
  {
    hide HonestProbes, TagsReported;
    if n == 0 { return Answered(NO_REPLY), Version("", []); }
    var sent;
    ghost var log;
    result, sent, log, source :=
      GetRange(client.net(call), r.backend, client.hint, client.maxAttempts, client.fallbackLimit, range, destination,
               pin, versions);
    if result.Answered? {
      UnpinnedToo(range, result.reply, pin, destination[..], source);
    }
    HealthyServes(client, call, r, range, pin, versions);
  }

  lemma HealthyServes(client: Client, call: nat, r: Resolved, range: ByteRange, pin: string, versions: set<Version>)
    requires HonestNetwork(client, versions) && ValidRange(range) && MayAsk(pin, versions)
    ensures Healthy(client, r, versions) ==> client.maxAttempts >= 1 && Serves(client, call, range, pin, versions)
  {}

  lemma UnpinnedToo(range: ByteRange, reply: RangeReply, pin: string, stored: seq<byte>, v: Version)
    requires Truthful(range, reply, pin, stored, v)
    ensures Truthful(range, reply, "", stored, v)
  {}

  /** What a reply says about the content alone. */
  ghost predicate TrueOf(n: u64, range: ByteRange, r: RangeReply, stored: seq<byte>, content: seq<byte>)
  {
    if n == 0 then r == NO_REPLY
    else
      && r.total == |content|
      && (!range.suffix ==> !r.suffixIgnored && r.first == range.first)
      && (!range.suffix ==> r.got == Min(range.length, Max(0, r.total - range.first)))
      && (range.suffix && !r.suffixIgnored ==> r.got == Min(range.length, r.total) && r.first == r.total - r.got)
      && Holds(stored, r.got, content, r.first)
  }

  lemma KnownIsTrue(n: u64, range: ByteRange, r: RangeReply, stored: seq<byte>, v: Version, versions: set<Version>)
    requires Known(n, range, r, stored, v, versions)
    ensures TrueOf(n, range, r, stored, v.content)
    ensures n > 0 ==> v in versions && r.total == |v.content| && r.etag == v.etag
  {}

  /** Replies that agree are of one content. */
  lemma AgreeingIsSame(x: RangeReply, y: RangeReply, v: Version, w: Version, versions: set<Version>)
    requires ToldApart(versions) && v in versions && w in versions && SameVersion(x, y)
    requires x.total == |v.content| && y.total == |w.content| && x.etag == v.etag && y.etag == w.etag
    ensures v.content == w.content
  {}

  /** Replies of one version agree. */
  lemma OneVersionAgrees(client: Client, r: Resolved, x: RangeReply, y: RangeReply, v: Version, w: Version,
                         versions: set<Version>)
    requires HonestNetwork(client, versions) && v in versions && w in versions
    requires x.total == |v.content| && y.total == |w.content| && x.etag == v.etag && y.etag == w.etag
    ensures !SameVersion(x, y) ==> !Healthy(client, r, versions)
  {}

  /** In a window that lies inside the object no reply is short. */
  lemma WindowIsThere(client: Client, r: Resolved, p: Plan, headLength: u64, tailLength: u64, x: RangeReply,
                      y: RangeReply, xs: seq<byte>, ys: seq<byte>, v: Version, w: Version, versions: set<Version>)
    requires HonestNetwork(client, versions) && Bounded(r) && Addressable(r, headLength)
    requires p == PlanFor(r, headLength, tailLength)
    requires Known(p.headPart, ByteRange(r.windowOffset, p.headPart, false), x, xs, v, versions)
    requires Known(p.tailPart, p.tailRange, y, ys, w, versions)
    ensures x.got != p.headPart || y.got != p.tailPart ==> !Healthy(client, r, versions)
  {
    hide HonestNetwork;
    if p.headPart > 0 && Healthy(client, r, versions) {
      assert v in versions;
    }
  }

  // ------------------------------------------------------------------ putting the ends together

  /** The head is in place once its reply is in, and in a bounded window complete. */
  lemma HeadIsRight(r: Resolved, p: Plan, reply: RangeReply, head: seq<byte>, tailLength: u64, total: u64,
                    content: seq<byte>)
    requires |head| <= MAX64 && Addressable(r, |head|) && p == PlanFor(r, |head|, tailLength) && !p.scratch
    requires TrueOf(p.headPart, ByteRange(r.windowOffset, p.headPart, false), reply, head, content)
    requires Bounded(r) ==> reply.got == p.headPart
    requires !Bounded(r) ==> total == |content|
    ensures Holds(head, Min(|head|, VisibleSize(r, total)), content, r.windowOffset)
  {}

  /** A tail read by offset inside a bounded window. */
  lemma BoundedTailIsRight(r: Resolved, p: Plan, reply: RangeReply, headLength: u64, tail: seq<byte>,
                           content: seq<byte>)
    requires |tail| <= MAX64 && Addressable(r, headLength) && Bounded(r) && p == PlanFor(r, headLength, |tail|)
    requires p.tailPart > 0 && reply.got == p.tailPart && TrueOf(p.tailPart, p.tailRange, reply, tail, content)
    ensures
      var t := Min(|tail|, r.windowLength);
      Holds(tail, t, content, r.windowOffset + r.windowLength - t)
  {}

  /** A suffix may start before the window; its last bytes are the window's last bytes. */
  method MoveSuffix(r: Resolved, tail: array<byte>, reply: RangeReply, n: u64, ghost content: seq<byte>)
    requires 0 < tail.Length <= MAX64 && |content| <= MAX64 && !Bounded(r)
    requires TrueOf(tail.Length, ByteRange(0, tail.Length, true), reply, tail[..], content)
    requires !reply.suffixIgnored && n == Min(tail.Length, VisibleSize(r, |content|)) && n > 0
    modifies tail
    ensures Holds(tail[..], n, content, |content| - n)
  {
    var from := reply.got - n;
    ghost var before := tail[..];
    assert before[..reply.got] == content[reply.first..reply.first + reply.got];
    forall i | 0 <= i < n { tail[i] := tail[from + i]; }
    assert tail[..n] == before[from..from + n];
    assert before[from..from + n] == before[..reply.got][from..];
    assert content[reply.first..reply.first + reply.got][from..] == content[|content| - n..|content|];
  }

  /** A head that covers everything visible holds the tail as well. */
  method CopyFromHead(head: array<byte>, tail: array<byte>, visible: u64, n: u64, ghost content: seq<byte>,
                      ghost from: nat)
    requires head != tail && 0 < n <= visible <= head.Length && n <= tail.Length
    requires Holds(head[..], visible, content, from)
    modifies tail
    ensures Holds(tail[..], n, content, from + visible - n)
  {
    forall i | 0 <= i < n { tail[i] := head[visible - n + i]; }
    assert tail[..n] == head[..][visible - n..visible];
    assert head[..visible][visible - n..] == content[from..from + visible][visible - n..];
  }

  method ReadEnds(client: Client, r: Resolved, head: array<byte>, tail: array<byte>, ghost versions: set<Version>)
    returns (outcome: Outcome, ghost source: Version)
    requires head != tail && head.Length <= MAX64 && tail.Length <= MAX64 && Addressable(r, head.Length)
    requires HonestNetwork(client, versions) && ToldApart(versions)
    modifies head, tail
    ensures outcome.Sized? ==> Correct(r, head[..], tail[..], outcome.size, outcome.etag, source, versions)
    ensures outcome.Refused? ==> outcome.status != T.KaruOk && !Healthy(client, r, versions)
  {
    hide HonestNetwork, ToldApart, Truthful, Correct, Healthy;
    var scratch := new byte[1];
    if head.Length == 0 && tail.Length == 0 {
      outcome, source := ObjectInfo(client, r, scratch, versions);
      if outcome.Sized? { NothingToHold(r, head[..], tail[..], outcome, source, versions); }
      return;
    }
    var p := PlanFor(r, head.Length, tail.Length);
    var headBuffer := if p.scratch then scratch else head;
    var headResult, tailResult;
    ghost var tailSource;
    headResult, source :=
      Get(client, 0, r, p.headPart, ByteRange(r.windowOffset, p.headPart, false), headBuffer, "", versions);
    tailResult, tailSource := Get(client, 1, r, p.tailPart, p.tailRange, tail, "", versions);
    if headResult.Failed? { return Refused(headResult.status), source; }
    if tailResult.Failed? { return Refused(tailResult.status), source; }
    outcome, source := Assemble(client, r, p, head, headBuffer, tail, headResult.reply, tailResult.reply, source,
                                tailSource, versions);
  }

  /** The size comes from a one-byte read. */
  method ObjectInfo(client: Client, r: Resolved, scratch: array<byte>, ghost versions: set<Version>)
    returns (outcome: Outcome, ghost source: Version)
    requires scratch.Length == 1 && HonestNetwork(client, versions)
    modifies scratch
    ensures outcome.Sized? ==>
              && source in versions && |source.content| <= MAX64
              && outcome.size == VisibleSize(r, |source.content|) && outcome.etag == source.etag
    ensures outcome.Refused? ==> outcome.status != T.KaruOk && !Healthy(client, r, versions)
  {
    hide HonestNetwork;
    var result;
    result, source := Get(client, 2, r, 1, ByteRange(0, 1, false), scratch, "", versions);
    outcome := if result.Failed? then Refused(result.status)
               else Sized(VisibleSize(r, result.reply.total), result.reply.etag);
  }

  lemma NothingToHold(r: Resolved, head: seq<byte>, tail: seq<byte>, outcome: Outcome, v: Version,
                      versions: set<Version>)
    requires head == [] && tail == [] && v in versions && outcome.Sized? && outcome.etag == v.etag
    requires |v.content| <= MAX64 && outcome.size == VisibleSize(r, |v.content|)
    ensures Correct(r, head, tail, outcome.size, outcome.etag, v, versions)
  {}

  method Assemble(client: Client, r: Resolved, p: Plan, head: array<byte>, headBuffer: array<byte>, tail: array<byte>,
                  headReply: RangeReply, tailReply: RangeReply, ghost headSource: Version, ghost tailSource: Version,
                  ghost versions: set<Version>)
    returns (outcome: Outcome, ghost source: Version)
    requires head != tail && headBuffer != tail && head.Length <= MAX64 && tail.Length <= MAX64
    requires Addressable(r, head.Length) && p == PlanFor(r, head.Length, tail.Length) && head.Length + tail.Length > 0
    requires !p.scratch ==> headBuffer == head
    requires HonestNetwork(client, versions) && ToldApart(versions)
    requires Known(p.headPart, ByteRange(r.windowOffset, p.headPart, false), headReply, headBuffer[..], headSource,
                   versions)
    requires Known(p.tailPart, p.tailRange, tailReply, tail[..], tailSource, versions)
    modifies tail
    ensures outcome.Sized? ==> Correct(r, head[..], tail[..], outcome.size, outcome.etag, source, versions)
    ensures outcome.Refused? ==> outcome.status != T.KaruOk && !Healthy(client, r, versions)
  {
    hide HonestNetwork, ToldApart, Known, TrueOf, Correct, Holds, Healthy;
    var headSent, tailSent := p.headPart > 0, p.tailPart > 0;
    KnownIsTrue(p.headPart, ByteRange(r.windowOffset, p.headPart, false), headReply, headBuffer[..], headSource,
                versions);
    KnownIsTrue(p.tailPart, p.tailRange, tailReply, tail[..], tailSource, versions);
    source := if !headSent && !tailSent then Version("", [])
              else if headSent && (headReply.etag != "" || !tailSent) then headSource else tailSource;
    if headSent && tailSent {
      if !SameVersion(headReply, tailReply) {
        OneVersionAgrees(client, r, headReply, tailReply, headSource, tailSource, versions);
        return Refused(T.ErrPrecondition), source;
      }
      AgreeingIsSame(headReply, tailReply, headSource, tailSource, versions);
    }
    if Bounded(r) {
      WindowIsThere(client, r, p, head.Length, tail.Length, headReply, tailReply, headBuffer[..], tail[..],
                    headSource, tailSource, versions);
    }
    if Bounded(r) && headReply.got != p.headPart { return Refused(T.ErrRange), source; }
    if Bounded(r) && tailReply.got != p.tailPart { return Refused(T.ErrRange), source; }
    var known := if headSent then headReply else tailReply;
    var visible := VisibleSize(r, known.total);
    var n := Min(tail.Length, visible);
    var etag := if known.etag == "" then tailReply.etag else known.etag;
    outcome := Sized(visible, etag);
    ghost var knownSource := if headSent then headSource else tailSource;
    if p.headPart == 0 && p.tailPart == 0 {
      WindowIsEmpty(r, p, head.Length, tail.Length);
    }
    if !p.scratch {
      SameContent(p.headPart, ByteRange(r.windowOffset, p.headPart, false), headReply, head[..], headSource.content,
                  source.content);
      HeadIsRight(r, p, headReply, head[..], tail.Length, known.total, source.content);
    } else {
      NoHead(r, head[..], visible, source.content);
    }
    if n > 0 {
      SameContent(p.tailPart, p.tailRange, tailReply, tail[..], tailSource.content, source.content);
      var failure;
      failure, etag, source :=
        PlaceTail(client, r, p, head, tail, tailReply, known, visible, etag, knownSource, source, versions);
      if failure.Some? { return Refused(failure.value), source; }
      outcome := Sized(visible, etag);
    }
    EndsAreCorrect(r, head[..], tail[..], visible, etag, source, versions);
  }

  method PlaceTail(client: Client, r: Resolved, p: Plan, head: array<byte>, tail: array<byte>, tailReply: RangeReply,
                   known: RangeReply, visible: u64, etag: string, ghost knownSource: Version, ghost oldSource: Version,
                   ghost versions: set<Version>)
    returns (failure: Option<T.Status>, newEtag: string, ghost source: Version)
    requires head != tail && head.Length <= MAX64 && 0 < tail.Length <= MAX64
    requires Addressable(r, head.Length) && p == PlanFor(r, head.Length, tail.Length)
    requires HonestNetwork(client, versions) && ToldApart(versions)
    requires visible == VisibleSize(r, known.total) && visible > 0
    requires knownSource in versions && known.total == |knownSource.content| && known.etag == knownSource.etag
    requires oldSource in versions && oldSource.content == knownSource.content
    requires etag == oldSource.etag
    requires Holds(head[..], Min(head.Length, visible), oldSource.content, r.windowOffset)
    requires TrueOf(p.tailPart, p.tailRange, tailReply, tail[..], oldSource.content)
    requires Bounded(r) ==> tailReply.got == p.tailPart
    modifies tail
    ensures failure.Some? ==> failure.value != T.KaruOk && !Healthy(client, r, versions)
    ensures failure.None? ==>
              && source in versions && source.content == oldSource.content && newEtag == source.etag
              && Holds(tail[..], Min(tail.Length, visible), source.content,
                       r.windowOffset + visible - Min(tail.Length, visible))
  {
    hide HonestNetwork, ToldApart, Known, TrueOf, Holds, Healthy;
    failure, newEtag, source := None, etag, oldSource;
    var n := Min(tail.Length, visible);
    if p.tailPart > 0 && !tailReply.suffixIgnored {
      if p.bySuffix {
        MoveSuffix(r, tail, tailReply, n, source.content);
      } else {
        BoundedTailIsRight(r, p, tailReply, head.Length, tail[..], source.content);
      }
    } else if visible <= Min(head.Length, visible) {
      CopyFromHead(head, tail, visible, n, source.content, r.windowOffset);
    } else {
      TailIsBeyondHead(r, p, head.Length, tail.Length, tailReply, tail[..], source.content, visible);
      var range := ByteRange(r.windowOffset + visible - n, n, false);
      var result;
      ghost var lastSource;
      result, lastSource := Get(client, 3, r, n, range, tail, etag, versions);
      if result.Failed? { return Some(result.status), etag, source; }
      KnownIsTrue(n, range, result.reply, tail[..], lastSource, versions);
      if !SameVersion(result.reply, known) {
        OneVersionAgrees(client, r, result.reply, known, lastSource, knownSource, versions);
        return Some(T.ErrPrecondition), etag, source;
      }
      AgreeingIsSame(result.reply, known, lastSource, knownSource, versions);
      AllOfRange(n, range, result.reply, tail[..], source.content);
      if etag == "" { newEtag, source := result.reply.etag, lastSource; }
    }
  }

  lemma SameContent(n: u64, range: ByteRange, reply: RangeReply, stored: seq<byte>, content: seq<byte>, same: seq<byte>)
    requires TrueOf(n, range, reply, stored, content) && (n > 0 ==> content == same)
    ensures TrueOf(n, range, reply, stored, same)
  {}

  /** Only an empty window needs no request. */
  lemma WindowIsEmpty(r: Resolved, p: Plan, headLength: u64, tailLength: u64)
    requires Addressable(r, headLength) && p == PlanFor(r, headLength, tailLength) && headLength + tailLength > 0
    requires p.headPart == 0 && p.tailPart == 0
    ensures Bounded(r) && r.windowLength == 0
  {}

  lemma NoHead(r: Resolved, head: seq<byte>, visible: u64, content: seq<byte>)
    requires head == []
    ensures Holds(head, Min(|head|, visible), content, r.windowOffset)
  {}

  /** A tail that neither request brought is that of an object of known size. */
  lemma TailIsBeyondHead(r: Resolved, p: Plan, headLength: u64, tailLength: u64, reply: RangeReply, tail: seq<byte>,
                         content: seq<byte>, visible: u64)
    requires Addressable(r, headLength) && p == PlanFor(r, headLength, tailLength) && tailLength > 0
    requires TrueOf(p.tailPart, p.tailRange, reply, tail, content) && (p.tailPart == 0 || reply.suffixIgnored)
    requires |content| <= MAX64 && visible == VisibleSize(r, |content|) && visible > headLength
    ensures !Bounded(r) && r.windowOffset + visible == |content|
  {}

  /** A range that lies inside the object is answered in full. */
  lemma AllOfRange(n: u64, range: ByteRange, reply: RangeReply, stored: seq<byte>, content: seq<byte>)
    requires n > 0 && TrueOf(n, range, reply, stored, content) && !range.suffix && range.length == n
    requires range.first + n <= |content|
    ensures Holds(stored, n, content, range.first)
  {}

  lemma EndsAreCorrect(r: Resolved, head: seq<byte>, tail: seq<byte>, size: u64, etag: string, v: Version,
                       versions: set<Version>)
    requires Bounded(r) ==> size == r.windowLength
    requires !Bounded(r) ==> size == Max(0, |v.content| - r.windowOffset)
    requires !Bounded(r) || r.windowLength > 0 ==> v in versions
    requires Holds(head, Min(|head|, size), v.content, r.windowOffset)
    requires Holds(tail, Min(|tail|, size), v.content, r.windowOffset + size - Min(|tail|, size))
    requires etag == v.etag
    ensures Correct(r, head, tail, size, etag, v, versions)
  {}

  /** A server without tags to which every request is one for everything; it can match no
      pin. */
  function WholeReply(content: seq<byte>): Reply
  {
    Reply(Version("", content), 200, "", Missing, |content|, false, [content], CurlCode.Ok)
  }

  function WholeServer(content: seq<byte>): ProbeServer
  {
    (i, range, pin) =>
      ProbeExchange(if pin == "" then WholeReply(content) else WholeReply(content).(status := 412, chunks := []),
                    None, "", false, false, false, false, false)
  }

  /** It is healthy as long as the fallback limit allows it: `Healthy` asks for nothing impossible. */
  lemma WholeObjectServerIsHealthy(content: seq<byte>, r: Resolved)
    requires |content| <= MAX64 && (Bounded(r) ==> r.windowOffset + r.windowLength <= |content|)
    ensures
      var v, client := Version("", content), Client(call => WholeServer(content), "", 1, MAX64);
      HonestNetwork(client, {v}) && ToldApart({v}) && Healthy(client, r, {v})
  {
    var v, reply := Version("", content), WholeReply(content);
    assert [content][1..] == [] && reply.Body() == content + Flatten([content][1..]) == content;
    assert reply.ReportedEtag() == "" && HonestSize(reply) && Honest(reply);
    var refusal := reply.(status := 412, chunks := []);
    assert refusal.ReportedEtag() == "" && HonestSize(refusal) && Honest(refusal);
    forall i: nat, range: ByteRange, pin: string ensures HonestProbe(WholeServer(content)(i, range, pin), pin, {v}) {}
    assert HonestProbes(WholeServer(content), {v}) && TagsReported(WholeServer(content));
    forall range: ByteRange, pin: string | ValidRange(range) && MayAsk(pin, {v})
      ensures Completes(range, pin, MAX64, reply)
    {
      assert pin == "" || v.etag == pin;
    }
  }
}
