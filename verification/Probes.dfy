/**
  One synchronous ranged GET (src/runtime/transport.cpp:518-743 and 885-1135): absolute and suffix
  ranges, servers that ignore them, and the retry loop.
*/
module Probes {
  import opened Numbers
  import opened Origin
  import opened Transfers
  import opened Retries
  import opened Uris

  /** From byte `first` on, or, as a suffix, from wherever `length` bytes are left; `first` is then
      without meaning. */
  datatype ByteRange = ByteRange(first: u64, length: u64, suffix: bool)

  /** The caller asks for at least one byte, and an absolute range ends inside 64 bits. */
  predicate ValidRange(range: ByteRange)
  {
    range.length >= 1 && (!range.suffix ==> range.first + range.length - 1 <= MAX64)
  }

  datatype RangeReply = RangeReply(total: u64, first: u64, got: u64, etag: string, suffixIgnored: bool)

  datatype Result = Answered(reply: RangeReply) | Failed(status: Status)

  /** Do the bytes `first` to `last` of a `total` fulfil the request? Fewer than it names may do so, but
      only where nothing follows them or, for a suffix, nothing precedes them. */
  predicate Answers(range: ByteRange, first: u64, last: u64, total: u64)
    requires ValidRange(range) && first <= last < total
  {
    if range.suffix then
      last + 1 == total && last - first + 1 == Min(range.length, total)
    else
      var end: u64 := range.first + range.length - 1;
      first == range.first && last <= end && (last == end || last + 1 == total)
  }

  /** Is byte `k` of an object of `total` bytes asked for? */
  predicate Asked(range: ByteRange, total: u64, k: int)
  {
    k < total && if range.suffix then total - range.length <= k else range.first <= k < range.first + range.length
  }

  /** A Content-Range is accepted exactly when it covers the bytes asked for that exist, and no
      others. */
  lemma AnswersAreExact(range: ByteRange, first: u64, last: u64, total: u64)
    requires ValidRange(range) && first <= last < total
    ensures Answers(range, first, last, total) <==> forall k | 0 <= k :: (first <= k <= last) == Asked(range, total, k)
  {
    if forall k | 0 <= k :: (first <= k <= last) == Asked(range, total, k) {
      assert Asked(range, total, first) && Asked(range, total, last) && !Asked(range, total, last + 1);
      assert first > 0 ==> !Asked(range, total, first - 1);
    }
  }

  // ------------------------------------------------------------------ the first byte decides

  datatype Verdict =
    | VersionChanged | SuffixIgnored | FallbackRejected | Unusable
    | Accepted(first: u64, skip: u64, wanted: u64)

  /** The object size as the headers give it. */
  function SizeOf(reply: Reply): Option<u64>
    requires Honest(reply)
  {
    match reply.range
    case Satisfied(_, _, total) => if total.Some? then total else ContentLength(reply)
    case Unsatisfied(size) => Some(size)
    case _ => ContentLength(reply)
  }

  function ContentLength(reply: Reply): Option<u64>
    requires Honest(reply)
  {
    if reply.status == 200 && 0 <= reply.contentLength <= MAX64 then Some(reply.contentLength) else None
  }

  predicate RangeAnswers(range: ByteRange, reply: Reply)
    requires ValidRange(range) && Honest(reply)
  {
    && reply.range.Satisfied? && reply.range.total.Some?
    && Answers(range, reply.range.first, reply.range.last, reply.range.total.value)
  }

  predicate ContradictsPin(reply: Reply, ifMatch: string)
  {
    IsStrongEtag(ifMatch) && reply.ReportedEtag() != "" && reply.ReportedEtag() != ifMatch
  }

  function Judge(range: ByteRange, ifMatch: string, fallbackLimit: u64, reply: Reply): (v: Verdict)
    requires ValidRange(range) && Honest(reply)
    ensures v.Accepted? ==> v.wanted <= range.length
  {
    if reply.transformed then Unusable
    else if ContradictsPin(reply, ifMatch) then VersionChanged
    else if reply.status == 206 then
      if RangeAnswers(range, reply) then Accepted(reply.range.first, 0, reply.range.last - reply.range.first + 1)
      else Unusable
    else if reply.status != 200 || SizeOf(reply).None? then Unusable
    else
      var total := SizeOf(reply).value;
      if range.suffix then if total > range.length then SuffixIgnored else Accepted(0, 0, total)
      else if range.first > fallbackLimit then FallbackRejected
      else Accepted(range.first, range.first, if range.first < total then Min(range.length, total - range.first) else 0)
  }

  /** A Content-Range on a 200 is truthful, or there is none. */
  predicate HonestSize(reply: Reply)
  {
    reply.status == 200 && !reply.transformed ==>
      match reply.range
      case Satisfied(_, _, Some(total)) => total == |reply.version.content|
      case Unsatisfied(size) => size == |reply.version.content|
      case _ => true
  }

  /** Do the headers of the reply offer the bytes asked for? It is readable and of no other version than
      the pinned one. A 206 names exactly those of them that the object has, a 200 the size of the object,
      of which no more than `fallbackLimit` bytes have to be passed over, and a 416 a size that leaves none;
      to a suffix, both may also reply that they cannot serve it. */
  predicate Offers(range: ByteRange, ifMatch: string, fallbackLimit: u64, reply: Reply)
    requires ValidRange(range)
  {
    var readable := !reply.transformed
                    && !(IsStrongEtag(ifMatch) && reply.ReportedEtag() != "" && reply.ReportedEtag() != ifMatch);
    match reply.status
    case 200 =>
      readable && (range.suffix || range.first <= fallbackLimit)
      && (reply.range.Unsatisfied? || (reply.range.Satisfied? && reply.range.total.Some?)
          || 0 <= reply.contentLength <= MAX64)
    case 206 =>
      readable && reply.range.Satisfied? && reply.range.total.Some?
      && var total := reply.range.total.value;
         reply.range.first == (if range.suffix then Max(0, total - range.length) else range.first)
         && reply.range.last + 1 == (if range.suffix then total else Min(range.first + range.length, total))
    case 416 => reply.range.Unsatisfied? && (range.suffix || range.first >= reply.range.size)
    case _ => false
  }

  /** Does this reply, received to its end, answer the request? */
  predicate Completes(range: ByteRange, ifMatch: string, fallbackLimit: u64, reply: Reply)
    requires ValidRange(range)
  {
    && reply.code.Ok? && Offers(range, ifMatch, fallbackLimit, reply)
    && (reply.status == 206 ==> |reply.Body()| == reply.range.last - reply.range.first + 1)
    && (reply.status == 416 ==> |reply.Body()| <= DRAIN_LIMIT)
  }

  lemma OffersAreTold(range: ByteRange, ifMatch: string, fallbackLimit: u64, reply: Reply)
    requires ValidRange(range)
    ensures Offers(range, ifMatch, fallbackLimit, reply) ==>
              reply.status in {200, 206, 416} && (reply.status == 206 ==> reply.range.Satisfied?)
    ensures reply.status == 416 ==>
              (Offers(range, ifMatch, fallbackLimit, reply) <==>
               reply.range.Unsatisfied? && (range.suffix || range.first >= reply.range.size))
  {}

  /** The first byte of a body is accepted exactly if the headers offer what was asked for. */
  lemma OffersAreAccepted(range: ByteRange, ifMatch: string, fallbackLimit: u64, reply: Reply)
    requires ValidRange(range) && Honest(reply)
    ensures
      var v := Judge(range, ifMatch, fallbackLimit, reply);
      && (reply.status == 200 ==> (Offers(range, ifMatch, fallbackLimit, reply) <==> v.Accepted? || v.SuffixIgnored?))
      && (reply.status == 206 ==>
            (Offers(range, ifMatch, fallbackLimit, reply) <==> v.Accepted?)
            && (v.Accepted? ==> v.wanted == reply.range.last - reply.range.first + 1))
  {}

  // ------------------------------------------------------------------ the callbacks

  class ProbeState {
    const range: ByteRange
    const destination: array<byte>
    const ifMatch: string
    const fallbackLimit: u64
    const followRedirects: bool

    var httpStatus: int
    var total: u64
    var haveTotal: bool
    var contentRangeValid: bool
    var contentRangeAnswers: bool
    var unsatisfiedContentRangeValid: bool
    var rangeFirst: u64
    var rangeLast: u64
    var contentLength: int
    var transformed: bool
    var etag: string
    var started: bool
    var skip: u64
    var wanted: u64
    var stored: u64
    var cutShort: bool
    var bodyExceededRange: bool
    var suffixIgnored: bool
    var rangeFallbackRejected: bool
    var versionChanged: bool
    var errorBodyReceived: u64

    ghost const reply: Reply              // the response being received
    ghost var fed: seq<byte>              // the body bytes accepted so far

    /** The state of one attempt, with the headers of its final response taken in. */
    constructor (range: ByteRange, destination: array<byte>, ifMatch: string, fallbackLimit: u64, followRedirects: bool,
                 reply: Reply)
      requires ValidRange(range) && range.length <= destination.Length && Honest(reply)
      ensures this.range == range && this.destination == destination && this.ifMatch == ifMatch
      ensures this.fallbackLimit == fallbackLimit && this.reply == reply
      ensures Valid() && Receiving() && !started && fed == [] && errorBodyReceived == 0
    {
      this.followRedirects := followRedirects;
      this.range, this.destination, this.ifMatch, this.fallbackLimit := range, destination, ifMatch, fallbackLimit;
      this.reply := reply;
      httpStatus, etag := reply.status, reply.ReportedEtag();
      transformed, contentLength := reply.transformed, reply.contentLength;
      total, haveTotal, contentRangeValid, contentRangeAnswers := 0, false, false, false;
      unsatisfiedContentRangeValid, rangeFirst, rangeLast := false, 0, 0;
      match reply.range {
        case Satisfied(first, last, size) =>
          rangeFirst, rangeLast := first, last;
          if size.Some? {
            contentRangeValid, total, haveTotal := true, size.value, true;
            contentRangeAnswers := Answers(range, first, last, size.value);
          }
        case Unsatisfied(size) =>
          unsatisfiedContentRangeValid, total, haveTotal := true, size, true;
        case _ =>
      }
      started, skip, wanted, stored := false, 0, 0, 0;
      cutShort, bodyExceededRange, suffixIgnored := false, false, false;
      rangeFallbackRejected, versionChanged := false, false;
      errorBodyReceived, fed := 0, [];
    }

    ghost function Verdict(): (v: Verdict)
      requires ValidRange(range) && Honest(reply)
    {
      Judge(range, ifMatch, fallbackLimit, reply)
    }

    /** The header fields are those of `reply`. */
    ghost predicate HeadersTaken()
      reads `httpStatus, `etag, `transformed, `contentLength, `contentRangeValid, `contentRangeAnswers,
        `unsatisfiedContentRangeValid, `total, `haveTotal, `rangeFirst, `rangeLast, `started
      requires ValidRange(range) && Honest(reply)
    {
      HeadersTakenBut() && (!started ==> haveTotal == (contentRangeValid || unsatisfiedContentRangeValid))
    }

    /** The same, once the size may also come from the Content-Length. */
    ghost predicate HeadersTakenBut()
      reads `httpStatus, `etag, `transformed, `contentLength, `contentRangeValid, `contentRangeAnswers,
        `unsatisfiedContentRangeValid, `total, `haveTotal, `rangeFirst, `rangeLast, `started
      requires ValidRange(range) && Honest(reply)
    {
      && httpStatus == reply.status && etag == reply.ReportedEtag() && transformed == reply.transformed
      && contentLength == reply.contentLength
      && contentRangeValid == (reply.range.Satisfied? && reply.range.total.Some?)
      && contentRangeAnswers == RangeAnswers(range, reply)
      && unsatisfiedContentRangeValid == reply.range.Unsatisfied?
      && (reply.range.Unsatisfied? ==> haveTotal && total == reply.range.size)
      && (contentRangeValid ==>
            haveTotal && total == reply.range.total.value && reply.range.first <= reply.range.last < total)
      && (contentRangeValid && !started ==> rangeFirst == reply.range.first && rangeLast == reply.range.last)
    }

    /** The flags say what the first byte decided. */
    ghost predicate FlagsTell()
      reads `started, `versionChanged, `suffixIgnored, `rangeFallbackRejected, `haveTotal, `total, `rangeFirst
      requires ValidRange(range) && Honest(reply)
    {
      && versionChanged == (started && Verdict().VersionChanged?)
      && suffixIgnored == (started && Verdict().SuffixIgnored?)
      && rangeFallbackRejected == (started && Verdict().FallbackRejected?)
      && (started && (|| Verdict().SuffixIgnored?
                      || Verdict().FallbackRejected?
                      || (Verdict().Accepted? && reply.status == 200)) ==>
            SizeOf(reply).Some? && haveTotal && total == SizeOf(reply).value)
      && (started && reply.status == 200 && Verdict().Unusable? && !reply.transformed ==> !haveTotal)
      && (started && Verdict().Accepted? ==> rangeFirst == Verdict().first)
    }

    /** What has been stored is the part of the body that was asked for, as far as it has come. */
    ghost predicate BodyStored()
      reads this, destination
      requires ValidRange(range) && Honest(reply) && range.length <= destination.Length
    {
      && (!started ==> stored == 0 && wanted == 0 && skip == 0)
      && (started && Verdict().Accepted? && !bodyExceededRange ==>
            && wanted == Verdict().wanted <= range.length
            && skip == Max(0, Verdict().skip - |fed|)
            && stored == |Take(Drop(fed, Verdict().skip), wanted)| <= wanted
            && destination[..stored] == Take(Drop(fed, Verdict().skip), wanted)
            && (reply.status == 206 ==> Verdict().skip == 0 && stored == |fed| <= wanted))
    }

    ghost predicate Valid()
      reads this, destination
    {
      && ValidRange(range) && range.length <= destination.Length && Honest(reply)
      && httpStatus == reply.status && HeadersTaken() && FlagsTell() && BodyStored()
    }

    /** Nothing has stopped the body yet. */
    ghost predicate Receiving()
      reads this
      requires ValidRange(range) && Honest(reply)
    {
      !cutShort && !bodyExceededRange && (started ==> Verdict().Accepted?)
    }

    /** What becomes of a body with a 2xx status; without a destination for it the answer is false. */
    method StartBody() returns (go: bool)
      requires Valid() && started == false && fed == []
      modifies `started, `versionChanged, `total, `haveTotal, `suffixIgnored, `rangeFallbackRejected, `rangeFirst,
        `skip, `wanted
      ensures started && go == Verdict().Accepted? && Valid()
    {
      hide Honest, IsStrongEtag, Answers;
      if transformed {
        started := true;
        return false;
      }
      if IsStrongEtag(ifMatch) && etag != "" && etag != ifMatch {
        started, versionChanged := true, true;
        return false;
      }
      if httpStatus == 206 {
        started := true;
        if !contentRangeAnswers { return false; }
        wanted := rangeLast - rangeFirst + 1;
        return true;
      }
      if httpStatus != 200 {
        started := true;
        return false;
      }
      go := StartWhole();
    }

    /** A whole-object reply names the size in its Content-Range or its Content-Length. */
    method LearnSize() returns (known: bool)
      requires ValidRange(range) && Honest(reply) && HeadersTaken() && httpStatus == 200 && !started
      modifies this`total, this`haveTotal
      ensures HeadersTakenBut()
      ensures known == SizeOf(reply).Some? && haveTotal == known && (known ==> total == SizeOf(reply).value)
    {
      hide Honest, IsStrongEtag, RangeAnswers;
      if !haveTotal {
        if contentLength < 0 || contentLength > MAX64 { return false; }
        total, haveTotal := contentLength, true;
      }
      known := true;
    }

    /** A whole object of known size is arriving, and nothing is decided about its body. */
    ghost predicate Whole()
      reads this, destination
    {
      && ValidRange(range) && range.length <= destination.Length && Honest(reply)
      && httpStatus == reply.status == 200 && !reply.transformed && !ContradictsPin(reply, ifMatch)
      && HeadersTakenBut() && !started && haveTotal && SizeOf(reply) == Some(total)
      && !versionChanged && !suffixIgnored && !rangeFallbackRejected && BodyStored() && fed == []
    }

    /** A 200 instead of a 206: the body begins with byte 0, whatever was asked for. */
    method StartWhole() returns (go: bool)
      requires Valid() && !started && fed == []
      requires httpStatus == 200 && !transformed && !ContradictsPin(reply, ifMatch)
      modifies `started, `total, `haveTotal, `suffixIgnored, `rangeFallbackRejected, `rangeFirst, `skip, `wanted
      ensures started && go == Verdict().Accepted? && Valid()
    {
      hide Honest, IsStrongEtag, ContradictsPin, SizeOf, RangeAnswers;
      go := LearnSize();
      if !go {
        started := true;
      } else if range.suffix {
        go := StartSuffix();
      } else {
        go := StartAbsolute();
      }
    }

    /** A short object is taken as it is. Of a longer one only the end is wanted, and that is left to a
      second request that knows the size. */
    method StartSuffix() returns (go: bool)
      requires Whole() && range.suffix
      modifies `started, `suffixIgnored, `rangeFirst, `wanted
      ensures started && go == Verdict().Accepted? && Valid()
    {
      hide Honest, IsStrongEtag, ContradictsPin, SizeOf, RangeAnswers;
      started := true;
      go := total <= range.length;
      if go {
        rangeFirst, wanted := 0, total;
      } else {
        suffixIgnored := true;
      }
    }

    method StartAbsolute() returns (go: bool)
      requires Whole() && !range.suffix
      modifies `started, `rangeFallbackRejected, `rangeFirst, `skip, `wanted
      ensures started && go == Verdict().Accepted? && Valid()
    {
      hide Honest, IsStrongEtag, ContradictsPin, SizeOf, RangeAnswers;
      started := true;
      go := range.first <= fallbackLimit;
      if go {
        skip, rangeFirst := range.first, range.first;
        wanted := if range.first < total then Min(range.length, total - range.first) else 0;
      } else {
        rangeFallbackRejected := true;
      }
    }

    /** One piece of the body; false makes curl stop with a write error. */
    method BodyCallback(chunk: seq<byte>) returns (accepted: bool)
      requires Valid() && Receiving() && (!started ==> fed == [])
      modifies this, destination
      ensures Valid()
      ensures destination[range.length..] == old(destination[range.length..])
      ensures if reply.status < 300 then started else started == old(started)
      ensures accepted ==> Receiving() && (reply.status < 300 ==> fed == old(fed) + chunk)
      ensures !started ==> fed == []
      ensures !accepted ==> reply.status >= 300 || bodyExceededRange || cutShort
      ensures cutShort ==> started && reply.status < 300
      ensures reply.status >= 400 ==>
                && (accepted <==> chunk == [] || old(errorBodyReceived) + |chunk| <= DRAIN_LIMIT)
                && (accepted ==> errorBodyReceived == old(errorBodyReceived) + |chunk|)
      ensures bodyExceededRange ==>
                reply.status == 206 && !cutShort && Verdict().Accepted? && |old(fed) + chunk| > Verdict().wanted
      ensures cutShort && Verdict().Accepted? ==>
                reply.status == 200 && fed == old(fed) + chunk && stored == wanted && skip == 0
    {
      hide Honest, Judge, SizeOf, RangeAnswers, IsStrongEtag, Take, Drop;
      if httpStatus >= 300 {
        accepted := ErrorBody(chunk);
        return;
      }
      if !started {
        var go := StartBody();
        if !go {
          cutShort := true;
          return false;
        }
      }
      accepted := StoreBody(chunk);
    }

    /** The body of an error or a redirect is read to a limit and not stored. */
    method ErrorBody(chunk: seq<byte>) returns (accepted: bool)
      requires Valid() && httpStatus >= 300
      modifies this`errorBodyReceived
      ensures Valid()
      ensures accepted <==>
                (httpStatus < 400 && followRedirects) || chunk == [] || old(errorBodyReceived) + |chunk| <= DRAIN_LIMIT
      ensures accepted && httpStatus >= 400 ==> errorBodyReceived == old(errorBodyReceived) + |chunk|
    {
      hide Honest, Judge, SizeOf, RangeAnswers, IsStrongEtag, Take, Drop, FlagsTell, HeadersTaken;
      if httpStatus < 400 && followRedirects { return true; }
      if |chunk| > DRAIN_LIMIT - Min(DRAIN_LIMIT, errorBodyReceived) { return false; }
      errorBodyReceived := errorBodyReceived + |chunk|;
      accepted := true;
    }

    method StoreBody(chunk: seq<byte>) returns (accepted: bool)
      requires Valid() && Receiving() && started && reply.status < 300
      modifies this`fed, this`skip, this`stored, this`cutShort, this`bodyExceededRange, destination
      ensures Valid()
      ensures destination[range.length..] == old(destination[range.length..])
      ensures accepted ==> Receiving() && fed == old(fed) + chunk
      ensures !accepted ==> bodyExceededRange || cutShort
      ensures bodyExceededRange ==> reply.status == 206 && !cutShort && |old(fed) + chunk| > Verdict().wanted
      ensures cutShort ==> reply.status == 200 && fed == old(fed) + chunk && stored == wanted && skip == 0
    {
      hide Honest, Judge, SizeOf, RangeAnswers, IsStrongEtag, Take, Drop, FlagsTell, HeadersTaken, HeadersTakenBut,
        ContradictsPin, ValidRange, BodyStored;
      NextStored(chunk);
      var drop := Min(skip, |chunk|);
      var room := wanted - stored;
      if httpStatus == 206 && |chunk| - drop > room {
        fed, skip, bodyExceededRange := fed + chunk, skip - drop, true;
        PieceIsStored();
        accepted := false;
      } else {
        accepted := StorePiece(chunk, drop, Min(room, |chunk| - drop));
      }
    }

    /** Copies what fits of the chunk; only a 200 can go on behind the last wanted byte. */
    method StorePiece(chunk: seq<byte>, drop: u64, take: u64) returns (accepted: bool)
      requires Valid() && Receiving() && started && reply.status < 300
      requires drop == Min(skip, |chunk|) && take == Min(wanted - stored, |chunk| - drop)
      requires httpStatus == 206 ==> |chunk| - drop <= wanted - stored
      modifies this`fed, this`skip, this`stored, this`cutShort, destination
      ensures Valid()
      ensures destination[range.length..] == old(destination[range.length..])
      ensures accepted == !cutShort && !bodyExceededRange && fed == old(fed) + chunk
      ensures cutShort ==> reply.status == 200 && stored == wanted && skip == 0
    {
      hide Honest, Judge, SizeOf, RangeAnswers, IsStrongEtag, Take, Drop, FlagsTell, HeadersTaken, HeadersTakenBut,
        ContradictsPin, ValidRange, BodyStored;
      NextStored(chunk);
      CopyIn(chunk[drop..][..take]);
      fed, skip, cutShort := fed + chunk, skip - drop, httpStatus == 200 && skip == drop && stored == wanted;
      PieceIsStored();
      accepted := !cutShort;
    }

    /** The fields say of a running body what `BodyStored` asks for; of one that was too long, nothing. */
    lemma PieceIsStored()
      requires ValidRange(range) && Honest(reply) && range.length <= destination.Length && started
      requires Verdict().Accepted?
      requires !bodyExceededRange ==>
        && wanted == Verdict().wanted <= range.length && stored <= wanted
        && skip == Max(0, Verdict().skip - |fed|)
        && destination[..stored] == Take(Drop(fed, Verdict().skip), wanted)
        && (reply.status == 206 ==> Verdict().skip == 0 && stored == |fed|)
      ensures BodyStored()
    {}

    lemma NextStored(chunk: seq<byte>)
      requires Valid() && started && Verdict().Accepted? && !bodyExceededRange
      ensures
        var drop := Min(skip, |chunk|);
        var data := chunk[drop..];
        var take := Min(wanted - stored, |data|);
        && wanted == Verdict().wanted <= range.length && stored <= wanted
        && 0 <= drop <= |chunk| && drop <= skip && 0 <= take <= |data| && take <= wanted - stored
        && skip - drop == Max(0, Verdict().skip - |fed + chunk|)
        && Take(Drop(fed + chunk, Verdict().skip), wanted) == destination[..stored] + data[..take]
        && (reply.status == 206 ==>
              drop == 0 && Verdict().skip == 0 && stored == |fed| && (|data| <= wanted - stored ==> take == |data|))
    {
      hide Honest, Judge, FlagsTell, HeadersTaken;
      NextPiece(fed, chunk, Verdict().skip, wanted, skip);
    }

    method CopyIn(data: seq<byte>)
      requires stored + |data| <= range.length <= destination.Length
      modifies this`stored, destination
      ensures destination[range.length..] == old(destination[range.length..])
      ensures stored == old(stored) + |data| && destination[..stored] == old(destination[..stored]) + data
    {
      forall i | 0 <= i < |data| { destination[stored + i] := data[i]; }
      stored := stored + |data|;
    }

    /** Receives a whole response; the result is curl's code as `get_range` corrects it. */
    method Perform(r: Reply) returns (code: CurlCode)
      requires Valid() && Receiving() && !started && fed == [] && r == reply && HonestSize(reply)
      requires errorBodyReceived == 0
      modifies this, destination
      ensures destination[range.length..] == old(destination[range.length..])
      ensures Valid() && (code.Ok? && reply.Successful() ==> started) && (reply.status >= 300 ==> !started)
      ensures code.Ok? && reply.Successful() && Verdict().Accepted? ==> Delivered()
      ensures bodyExceededRange ==> reply.status == 206 && !code.Ok?
      ensures code == r.code || (r.chunks != [] && (code.Ok? || code == WriteError))
      ensures reply.status >= 300 && code.Ok? ==> r.code.Ok?
      ensures Completes(range, ifMatch, fallbackLimit, r) ==> code.Ok? && (r.status == 206 ==> stored == wanted)
    {
      hide Honest, HonestSize, Judge, HeadersTaken, FlagsTell, BodyStored, Flatten, Offers;
      OffersAreAccepted(range, ifMatch, fallbackLimit, r);
      OffersAreTold(range, ifMatch, fallbackLimit, r);
      var i, accepted := 0, true;
      FlattenNothing(r.chunks);
      while i < |r.chunks| && accepted
        invariant 0 <= i <= |r.chunks| && Valid()
        invariant destination[range.length..] == old(destination[range.length..])
        invariant accepted ==> Receiving()
        invariant !accepted ==> i > 0
        invariant (!started ==> fed == []) && (cutShort ==> started && reply.status < 300)
        invariant if reply.status < 300 then i > 0 ==> started else !started
        invariant reply.status < 300 && (accepted || (cutShort && Verdict().Accepted?)) ==>
                    fed == Flatten(r.chunks[..i])
        invariant !accepted ==> reply.status >= 300 || bodyExceededRange || cutShort
        invariant reply.status >= 400 && |Flatten(r.chunks)| <= DRAIN_LIMIT ==>
                    accepted && errorBodyReceived == |Flatten(r.chunks[..i])|
        invariant bodyExceededRange ==>
                    && reply.status == 206 && !cutShort && !accepted && Verdict().Accepted?
                    && |Flatten(r.chunks[..i])| > Verdict().wanted
        invariant !accepted && cutShort && Verdict().Accepted? ==> reply.status == 200 && stored == wanted && skip == 0
      {
        FlattenSnoc(r.chunks[..i], r.chunks[i]);
        FlattenPrefix(r.chunks, i + 1);
        assert r.chunks[..i + 1] == r.chunks[..i] + [r.chunks[i]];
        accepted := BodyCallback(r.chunks[i]);
        i := i + 1;
      }
      FlattenPrefix(r.chunks, i);
      assert accepted ==> r.chunks[..i] == r.chunks;
      code := if accepted then r.code else WriteError;
      if code == WriteError && cutShort { code := CurlCode.Ok; }
      if code.Ok? && 200 <= httpStatus < 300 && !started {
        var go := StartBody();
      }
      if code.Ok? && reply.Successful() && Verdict().Accepted? {
        assert fed <= reply.Body();
        BodyIsDelivered(r, cutShort);
        if reply.status == 206 { StoredIsFed(); }
      }
    }

    lemma StoredIsFed()
      requires Valid() && started && Verdict().Accepted? && !bodyExceededRange && reply.status == 206
      ensures stored == |fed| && wanted == Verdict().wanted
    {}

    /** The destination starts with the object's bytes from where the reply says, as many as stored. */
    ghost predicate Delivered()
      reads this, destination
      requires ValidRange(range) && Honest(reply)
    {
      && Verdict().Accepted? && rangeFirst == Verdict().first && !bodyExceededRange
      && stored <= destination.Length
      && (stored > 0 ==> rangeFirst + stored <= |reply.version.content|)
      && (stored > 0 ==> destination[..stored] == reply.version.content[rangeFirst..rangeFirst + stored])
      && wanted == Verdict().wanted && (reply.status == 200 ==> stored == wanted)
    }

    lemma BodyIsDelivered(r: Reply, cut: bool)
      requires Valid() && started && Verdict().Accepted? && !bodyExceededRange && HonestSize(reply)
      requires fed <= reply.Body() && reply.Successful()
      requires if cut then stored == wanted else fed == reply.Body() && reply.code.Ok?
      ensures Delivered()
    {
      AcceptedIsContent(range, ifMatch, fallbackLimit, reply, fed);
      hide Honest, Judge, HonestSize, Take, Drop;
    }
  }

  /** What an accepted body leaves after skipping and cutting is the object's bytes. */
  lemma AcceptedIsContent(range: ByteRange, ifMatch: string, fallbackLimit: u64, reply: Reply, fed: seq<byte>)
    requires ValidRange(range) && Honest(reply) && HonestSize(reply) && reply.Successful()
    requires Judge(range, ifMatch, fallbackLimit, reply).Accepted? && fed <= reply.Body()
    ensures
      var v := Judge(range, ifMatch, fallbackLimit, reply);
      var kept := Take(Drop(fed, v.skip), v.wanted);
      && (kept != [] ==> v.first + |kept| <= |reply.version.content|)
      && (kept != [] ==> kept == reply.version.content[v.first..v.first + |kept|])
      && (reply.status == 200 && fed == reply.version.content ==> |kept| == v.wanted)
    ensures reply.status == 200 && reply.code.Ok? ==> reply.Body() == reply.version.content
  {
    hide IsStrongEtag, Answers, Flatten;
    var v, content := Judge(range, ifMatch, fallbackLimit, reply), reply.version.content;
    if reply.status == 206 {
      CutIsSlice(content[v.first..reply.range.last + 1], fed, 0, v.wanted);
      var n := |Take(Drop(fed, v.skip), v.wanted)|;
      assert content[v.first..reply.range.last + 1][0..n] == content[v.first..v.first + n];
    } else {
      CutIsSlice(content, fed, v.first, v.wanted);
    }
  }

  /** A prefix of the content, skipped and cut, is a slice of the content. */
  lemma CutIsSlice(content: seq<byte>, fed: seq<byte>, skip: nat, wanted: nat)
    requires fed <= content && wanted <= Max(0, |content| - skip)
    ensures
      var kept := Take(Drop(fed, skip), wanted);
      && |kept| <= wanted && (|kept| > 0 ==> skip + |kept| <= |content| && kept == content[skip..skip + |kept|])
      && (fed == content ==> |kept| == wanted)
  {}

  lemma FlattenNothing<T>(chunks: seq<seq<T>>)
    ensures Flatten(chunks[..0]) == []
  {}

  /** What the next piece adds to the bytes stored, and to the bytes skipped. */
  lemma NextPiece(before: seq<byte>, chunk: seq<byte>, first: nat, wanted: nat, skip: nat)
    requires skip == Max(0, first - |before|)
    ensures
      var data, stored := chunk[Min(skip, |chunk|)..], Take(Drop(before, first), wanted);
      && |stored| <= wanted
      && Take(Drop(before + chunk, first), wanted) == stored + data[..Min(wanted - |stored|, |data|)]
      && Max(0, first - |before + chunk|) == skip - Min(skip, |chunk|)
  {
    TakeDropAppend(before, chunk, first, wanted);
    assert chunk[Min(skip, |chunk|)..] == Drop(chunk, skip);
  }

  lemma DropAppend(x: seq<byte>, y: seq<byte>, n: nat)
    ensures Drop(x + y, n) == Drop(x, n) + Drop(y, Max(0, n - |x|))
  {}

  lemma TakeAppend(x: seq<byte>, y: seq<byte>, n: nat)
    ensures |Take(x, n)| <= n && Take(x + y, n) == Take(x, n) + Take(y, n - |Take(x, n)|)
  {}

  /** Skipping and cutting piece by piece is skipping and cutting once. */
  lemma TakeDropAppend(before: seq<byte>, chunk: seq<byte>, skip: nat, wanted: nat)
    ensures
      var stored := Take(Drop(before, skip), wanted);
      && |stored| <= wanted
      && Take(Drop(before + chunk, skip), wanted)
          == stored + Take(Drop(chunk, Max(0, skip - |before|)), wanted - |stored|)
  {
    DropAppend(before, chunk, skip);
    TakeAppend(Drop(before, skip), Drop(chunk, Max(0, skip - |before|)), wanted);
  }

  // ------------------------------------------------------------------ the retry loop

  /** One attempt as the environment decides it: the reply (if the request goes out at all), and the
      answers of the clock and the error body that the loop consults. */
  datatype ProbeExchange = ProbeExchange(
    reply: Reply, startFailure: Option<Status>, region: string, expiredCredentials: bool,
    requestTimeout: bool, deadlineExpired: bool, noTimeToWait: bool, followRedirects: bool)

  /** Does this exchange answer the request, without another region to try first? */
  predicate Settles(range: ByteRange, ifMatch: string, fallbackLimit: u64, x: ProbeExchange)
    requires ValidRange(range)
  {
    Completes(range, ifMatch, fallbackLimit, x.reply) && (x.reply.status == 416 ==> x.region == "")
  }

  /** The answer to the i-th request of a call, which names a range and a pin. */
  type ProbeServer = (nat, ByteRange, string) -> ProbeExchange

  ghost predicate HonestProbe(x: ProbeExchange, pin: string, versions: set<Version>)
  {
    && Honest(x.reply) && HonestSize(x.reply) && HonoursPin(x.reply, pin) && x.reply.version in versions
    && x.startFailure != Some(KaruOk)
  }

  /** Every reply is honest, honours the pin it was sent, and is of one of `versions`. */
  ghost predicate HonestProbes(server: ProbeServer, versions: set<Version>)
  {
    forall i: nat, range: ByteRange, pin: string {:trigger server(i, range, pin)} ::
      HonestProbe(server(i, range, pin), pin, versions)
  }

  /** Every reply that can answer a request carries the strong tag of its version, if that has one. */
  ghost predicate TagsReported(server: ProbeServer)
  {
    forall i: nat, range: ByteRange, pin: string {:trigger server(i, range, pin)} ::
      server(i, range, pin).reply.status in ANSWERS ==>
        server(i, range, pin).reply.ReportedEtag() == server(i, range, pin).reply.version.etag
  }

  /** The statuses that answer a ranged GET. */
  const ANSWERS: set<int> := {200, 206, 416}

  /** What an answer promises: the size of one version of the object, and exactly the bytes of the
      range that exist in it, at the start of the destination. */
  ghost predicate Truthful(range: ByteRange, r: RangeReply, ifMatch: string, stored: seq<byte>, v: Version)
  {
    && r.total == |v.content|
    && (r.etag != "" ==> r.etag == v.etag)
    && (r.suffixIgnored ==> range.suffix && r.got == 0)
    && (!range.suffix ==> r.first == range.first && r.got == Min(range.length, Max(0, r.total - range.first)))
    && (range.suffix && !r.suffixIgnored ==> r.got == Min(range.length, r.total) && r.first == r.total - r.got)
    && (r.got > 0 ==>
          r.got <= |stored| && r.first + r.got <= |v.content| && stored[..r.got] == v.content[r.first..r.first + r.got])
    && (r.got > 0 && IsStrongEtag(ifMatch) ==> v.etag == ifMatch)
  }

  /** The version behind an accepted body is the one the caller asked for. */
  lemma AcceptedIsPinned(range: ByteRange, ifMatch: string, fallbackLimit: u64, reply: Reply)
    requires ValidRange(range) && Honest(reply) && HonoursPin(reply, ifMatch) && reply.Successful()
    requires Judge(range, ifMatch, fallbackLimit, reply).Accepted? && IsStrongEtag(ifMatch)
    ensures reply.version.etag == ifMatch
  {}

  lemma ReportedIsTrue(reply: Reply)
    requires Honest(reply)
    ensures reply.ReportedEtag() != "" ==> reply.ReportedEtag() == reply.version.etag
    ensures reply.status == 416 && reply.range.Unsatisfied? ==> reply.range.size == |reply.version.content|
  {}

  lemma SizeIsTrue(range: ByteRange, ifMatch: string, fallbackLimit: u64, reply: Reply)
    requires ValidRange(range) && Honest(reply) && HonestSize(reply) && reply.Successful()
    requires var v := Judge(range, ifMatch, fallbackLimit, reply); v.Accepted? || v.SuffixIgnored?
    ensures SizeOf(reply) == Some(|reply.version.content|)
  {}

  /** An accepted body has exactly the bytes of the range that exist. */
  lemma AcceptedIsExact(range: ByteRange, ifMatch: string, fallbackLimit: u64, reply: Reply)
    requires ValidRange(range) && Honest(reply) && HonestSize(reply) && reply.Successful()
    requires Judge(range, ifMatch, fallbackLimit, reply).Accepted?
    ensures
      var v, total := Judge(range, ifMatch, fallbackLimit, reply), |reply.version.content|;
      if range.suffix then v.wanted == Min(range.length, total) && v.first == total - v.wanted
      else v.first == range.first && v.wanted == Min(range.length, Max(0, total - range.first))
  {
    SizeIsTrue(range, ifMatch, fallbackLimit, reply);
    hide Honest, HonestSize, IsStrongEtag;
  }

  /** A 200 that was wanted, a 206 that came in full, or a 416 because no byte is in the range. */
  ghost predicate IsComplete(p: ProbeState)
    requires ValidRange(p.range) && Honest(p.reply)
    reads p
  {
    match p.reply.status
    case 200 => p.Verdict().Accepted? || p.Verdict().SuffixIgnored?
    case 206 => p.Verdict().Accepted? && p.stored == p.wanted
    case 416 => p.reply.range.Unsatisfied? && (p.range.suffix || p.range.first >= p.reply.range.size)
    case _ => false
  }

  /** A suffix is left to another request exactly if a whole object came that is longer than it, or if it was
      refused although the object is not empty. */
  predicate LeavesSuffix(range: ByteRange, status: int, answer: RangeReply)
  {
    answer.suffixIgnored <==>
      range.suffix && ((status == 200 && answer.total > range.length) || (status == 416 && answer.total > 0))
  }

  /** What has been received settles the call: an answer, or a failure without a retry. */
  method Settle(p: ProbeState, r: Reply, code: CurlCode) returns (settled: Option<Result>)
    requires p.Valid() && p.reply == r && HonestSize(r) && HonoursPin(r, p.ifMatch)
    requires (code.Ok? && r.Successful() ==> p.started) && (r.status >= 300 ==> !p.started)
    requires code.Ok? && r.Successful() && p.Verdict().Accepted? ==> p.Delivered()
    ensures settled.Some? && settled.value.Answered? ==>
              && Truthful(p.range, settled.value.reply, p.ifMatch, p.destination[..], r.version)
              && settled.value.reply.etag == r.ReportedEtag() && r.status in ANSWERS
              && LeavesSuffix(p.range, r.status, settled.value.reply)
    ensures settled.Some? && settled.value.Failed? ==> settled.value.status != KaruOk
    ensures !code.Ok? && r.status != 206 ==> settled.None?
    ensures r.status >= 300 && r.status != 416 ==> settled.None?
    ensures (code.Ok? && IsComplete(p)) <==> settled.Some? && settled.value.Answered?
  {
    hide Honest, HonestSize, IsStrongEtag, HonoursPin, Answers;
    if code.Ok? && p.httpStatus == 416 {
      if !p.unsatisfiedContentRangeValid { return Some(Failed(ErrHttp)); }
      ReportedIsTrue(r);
      if if p.range.suffix then p.total == 0 else p.range.first >= p.total {
        return Some(Answered(RangeReply(p.total, if p.range.suffix then 0 else p.range.first, 0, p.etag, false)));
      }
      if p.range.suffix { return Some(Answered(RangeReply(p.total, 0, 0, p.etag, true))); }
    }
    if p.httpStatus == 206 && p.bodyExceededRange { return Some(Failed(ErrHttp)); }
    if !code.Ok? { return None; }
    if 200 <= p.httpStatus < 300 {
      settled := SettleBody(p, r);
    } else {
      settled := if p.versionChanged then Some(Failed(ErrPrecondition)) else None;
    }
  }

  method SettleBody(p: ProbeState, r: Reply) returns (settled: Option<Result>)
    requires p.Valid() && p.reply == r && HonestSize(r) && HonoursPin(r, p.ifMatch) && r.Successful() && p.started
    requires p.Verdict().Accepted? ==> p.Delivered()
    ensures settled.Some?
    ensures settled.value.Answered? ==>
              && Truthful(p.range, settled.value.reply, p.ifMatch, p.destination[..], r.version)
              && settled.value.reply.etag == r.ReportedEtag() && r.status in ANSWERS
              && LeavesSuffix(p.range, r.status, settled.value.reply)
    ensures settled.value.Failed? ==> settled.value.status != KaruOk
    ensures IsComplete(p) <==> settled.value.Answered?
  {
    hide Honest, HonestSize, IsStrongEtag, HonoursPin, Answers;
    if p.transformed { return Some(Failed(ErrHttp)); }
    if p.versionChanged { return Some(Failed(ErrPrecondition)); }
    ReportedIsTrue(r);
    if p.httpStatus == 206 {
      if !p.contentRangeAnswers || p.stored != p.wanted { return Some(Failed(ErrHttp)); }
    } else if p.httpStatus == 200 {
      if p.suffixIgnored {
        SizeIsTrue(p.range, p.ifMatch, p.fallbackLimit, r);
        return Some(Answered(RangeReply(p.total, 0, 0, p.etag, true)));
      }
      if p.rangeFallbackRejected || !p.haveTotal { return Some(Failed(ErrHttp)); }
    } else {
      return Some(Failed(ErrHttp));
    }
    SizeIsTrue(p.range, p.ifMatch, p.fallbackLimit, r);
    AcceptedIsExact(p.range, p.ifMatch, p.fallbackLimit, r);
    if IsStrongEtag(p.ifMatch) { AcceptedIsPinned(p.range, p.ifMatch, p.fallbackLimit, r); }
    return Some(Answered(RangeReply(p.total, p.rangeFirst, p.stored, p.etag, false)));
  }

  // ------------------------------------------------------------------ the log of a call

  /** The answers that the log of a run records; a probe looks up credentials within its attempt. */
  function AsExchange(x: ProbeExchange): Exchange
  {
    Exchange(x.reply, x.startFailure, x.region, x.expiredCredentials, x.requestTimeout, x.deadlineExpired,
             x.noTimeToWait, None, x.followRedirects)
  }

  predicate NamesRegion(p: Progress, backend: Backend, x: ProbeExchange)
  {
    x.reply.status >= 300 && Retries.NamesRegion(p, backend, AsExchange(x))
  }

  predicate RejectsCredentials(p: Progress, backend: Backend, x: ProbeExchange)
  {
    Retries.RejectsCredentials(p, backend, AsExchange(x))
  }

  predicate MayRetry(p: Progress, backend: Backend, maxAttempts: nat, x: ProbeExchange, code: CurlCode)
  {
    && !NamesRegion(p, backend, x) && !RejectsCredentials(p, backend, x) && !x.deadlineExpired && !x.noTimeToWait
    && BudgetLeft(p, code, maxAttempts)
    && (WorthRepeating(code, x.reply.status) || (x.reply.status == 400 && x.requestTimeout))
  }

  /** The status that stands for a response that settles nothing: its own, if it is an error, unless it ended
      a redirect that was followed. */
  predicate TellsError(x: ProbeExchange, code: CurlCode, status: Status)
  {
    if x.reply.status < 300 || (!code.Ok? && x.reply.status < 400 && x.followRedirects) then status == ErrNetwork
    else NamesError(x.reply.status, status)
  }

  /** The decision that the loop takes after an exchange, as far as the exchange alone determines it.
      A transport error leaves nothing settled, except in a 206. */
  predicate Decided(p: Progress, backend: Backend, maxAttempts: nat, x: ProbeExchange, code: CurlCode, next: Decision)
  {
    && (code == x.reply.code || (x.reply.chunks != [] && (code.Ok? || code == WriteError)))
    && (next.CorrectRegion? <==> NamesRegion(p, backend, x))
    && (next.RefreshCredentials? <==> !NamesRegion(p, backend, x) && RejectsCredentials(p, backend, x))
    && (next.TryAgain? ==> MayRetry(p, backend, maxAttempts, x, code))
    && (MayRetry(p, backend, maxAttempts, x, code) && !code.Ok? && x.reply.status != 206 ==> next.TryAgain?)
    && (next.Finish? && x.reply.status >= 300 && x.reply.status != 416 && !x.deadlineExpired && !x.noTimeToWait ==>
          TellsError(x, code, next.status))
  }

  /** `log` is what happens between the loop and `server`, up to some point. */
  ghost predicate Run(log: seq<Logged>, server: ProbeServer, backend: Backend, hint: string, maxAttempts: nat,
                      range: ByteRange, ifMatch: string)
  {
    log != [] ==>
      var before, e, x := log[..|log| - 1], log[|log| - 1], server(|log| - 1, range, ifMatch);
      && Run(before, server, backend, hint, maxAttempts, range, ifMatch)
      && (before != [] ==> !before[|before| - 1].next.Finish?)
      && e.x == AsExchange(x) && x.startFailure.None?
      && Decided(ProgressOf(before, hint), backend, maxAttempts, x, e.code, e.next)
  }

  lemma RunGrows(log: seq<Logged>, e: Logged, server: ProbeServer, backend: Backend, hint: string, maxAttempts: nat,
                 range: ByteRange, ifMatch: string)
    requires Run(log, server, backend, hint, maxAttempts, range, ifMatch)
    requires log != [] ==> !log[|log| - 1].next.Finish?
    requires e.x == AsExchange(server(|log|, range, ifMatch)) && e.x.startFailure.None?
    requires Decided(ProgressOf(log, hint), backend, maxAttempts, server(|log|, range, ifMatch), e.code, e.next)
    ensures Run(log + [e], server, backend, hint, maxAttempts, range, ifMatch)
    ensures ProgressOf(log + [e], hint) == Advance(ProgressOf(log, hint), e)
  {
    LogGrows(log, e, hint);
  }

  lemma NothingSentYet(server: ProbeServer, backend: Backend, hint: string, maxAttempts: nat, range: ByteRange,
                       ifMatch: string)
    ensures Run([], server, backend, hint, maxAttempts, range, ifMatch)
    ensures ProgressOf([], hint) == Progress(0, 0, hint, false, false)
  {}

  lemma DecidedIsLawful(p: Progress, backend: Backend, maxAttempts: nat, x: ProbeExchange, code: CurlCode,
                        next: Decision)
    requires Decided(p, backend, maxAttempts, x, code, next)
    ensures Lawful(p, backend, maxAttempts, AsExchange(x), code, next)
  {}

  lemma {:induction false} RunIsDisciplined(log: seq<Logged>, server: ProbeServer, backend: Backend, hint: string,
                                            maxAttempts: nat, range: ByteRange, ifMatch: string)
    requires Run(log, server, backend, hint, maxAttempts, range, ifMatch)
    ensures Disciplined(log, backend, hint, maxAttempts)
  {
    hide Decided, Lawful;
    if log != [] {
      var before, e := log[..|log| - 1], log[|log| - 1];
      RunIsDisciplined(before, server, backend, hint, maxAttempts, range, ifMatch);
      DecidedIsLawful(ProgressOf(before, hint), backend, maxAttempts, server(|log| - 1, range, ifMatch), e.code,
                      e.next);
    }
  }

  /** The redirect to a dead host, met by a probe. */
  const DEAD_REDIRECT: ProbeExchange :=
    ProbeExchange(Retries.DEAD_REDIRECT.reply, None, "eu-west-1", false, false, false, false, true)

  lemma {:induction false} DeadRedirectFailsFourTimes(log: seq<Logged>, hint: string, maxAttempts: nat,
                                                      range: ByteRange, ifMatch: string)
    requires hint != "eu-west-1" && maxAttempts >= UNREACHABLE_ATTEMPTS && log != []
    requires Run(log, (i, asked, pin) => DEAD_REDIRECT, S3, hint, maxAttempts, range, ifMatch)
    ensures ProgressOf(log, hint) == Progress(|log| - 1, |log| - 1, "eu-west-1", true, false)
    ensures Failures(log) == |log| <= 4
    ensures log[|log| - 1].next.Finish? <==> |log| == 4
  {
    var before, e := log[..|log| - 1], log[|log| - 1];
    if before != [] {
      DeadRedirectFailsFourTimes(before, hint, maxAttempts, range, ifMatch);
    }
    assert Decided(ProgressOf(before, hint), S3, maxAttempts, DEAD_REDIRECT, e.code, e.next);
    assert e.code == CouldntConnect;
  }

  // ------------------------------------------------------------------ how many failures there can be

  function DeadProbe(backend: Backend, hint: string): ProbeExchange
  {
    var x := DeadHost(backend, hint);
    ProbeExchange(x.reply, None, x.region, true, false, false, false, false)
  }

  function DeadServer(backend: Backend, hint: string): ProbeServer { (i, range, pin) => DeadProbe(backend, hint) }

  lemma DeadServerIsHonest(backend: Backend, hint: string)
    ensures HonestProbes(DeadServer(backend, hint), {Version("", [])})
  {
    assert DeadProbe(backend, hint).reply.ReportedEtag() == "";
  }

  lemma DecidedIsResort(p: Progress, backend: Backend, hint: string, maxAttempts: nat, code: CurlCode, next: Decision)
    requires Decided(p, backend, maxAttempts, DeadProbe(backend, hint), code, next)
    ensures code == CouldntConnect && IsResort(next, p, backend, maxAttempts, DeadHost(backend, hint))
  {}

  lemma ResortIsDecided(p: Progress, backend: Backend, hint: string, maxAttempts: nat)
    ensures
      Decided(p, backend, maxAttempts, DeadProbe(backend, hint), CouldntConnect,
              Resort(p, backend, maxAttempts, DeadHost(backend, hint)))
    ensures AsExchange(DeadProbe(backend, hint)) == DeadHost(backend, hint)
  {}

  lemma {:induction false} RunMeetsOnly(log: seq<Logged>, backend: Backend, hint: string, maxAttempts: nat,
                                        range: ByteRange, ifMatch: string)
    requires Run(log, DeadServer(backend, hint), backend, hint, maxAttempts, range, ifMatch)
    ensures MeetsOnly(log, DeadHost(backend, hint), backend, hint, maxAttempts)
  {
    hide Decided, IsResort;
    if log != [] {
      var before, e := log[..|log| - 1], log[|log| - 1];
      RunMeetsOnly(before, backend, hint, maxAttempts, range, ifMatch);
      DecidedIsResort(ProgressOf(before, hint), backend, hint, maxAttempts, e.code, e.next);
    }
  }

  lemma MetAgain(log: seq<Logged>, backend: Backend, hint: string, maxAttempts: nat, range: ByteRange, ifMatch: string)
    returns (e: Logged)
    requires Run(log, DeadServer(backend, hint), backend, hint, maxAttempts, range, ifMatch)
    requires log != [] ==> !log[|log| - 1].next.Finish?
    ensures Run(log + [e], DeadServer(backend, hint), backend, hint, maxAttempts, range, ifMatch)
  {
    hide Run, Decided, Resort;
    var p, x := ProgressOf(log, hint), DeadHost(backend, hint);
    e := Logged(ifMatch, range.first, range.length, x, CouldntConnect, Resort(p, backend, maxAttempts, x));
    ResortIsDecided(p, backend, hint, maxAttempts);
    RunGrows(log, e, DeadServer(backend, hint), backend, hint, maxAttempts, range, ifMatch);
  }

  /** Against the dead host there is a run of every length up to the most failures; the last one has
      come to its end with exactly that many. */
  lemma {:induction false} DeadHostHasRun(backend: Backend, hint: string, maxAttempts: nat, range: ByteRange,
                                          ifMatch: string, n: nat)
    returns (log: seq<Logged>)
    requires maxAttempts >= 1 && n <= MostFailures(backend, maxAttempts)
    ensures Run(log, DeadServer(backend, hint), backend, hint, maxAttempts, range, ifMatch)
    ensures Failures(log) == |log| == n
    ensures log != [] ==> (log[|log| - 1].next.Finish? <==> n == MostFailures(backend, maxAttempts))
    decreases n
  {
    hide Run, MostFailures, Failures;
    log := [];
    NothingSentYet(DeadServer(backend, hint), backend, hint, maxAttempts, range, ifMatch);
    if n > 0 {
      log := DeadHostHasRun(backend, hint, maxAttempts, range, ifMatch, n - 1);
      var e := MetAgain(log, backend, hint, maxAttempts, range, ifMatch);
      log := log + [e];
    }
    RunMeetsOnly(log, backend, hint, maxAttempts, range, ifMatch);
    DeadHostCounts(log, backend, hint, maxAttempts);
  }

  /** A ranged GET meets at most three failures to reach the host, whatever the server does, if and only
      if its attempts and the corrections of its backend add up to no more. */
  lemma AtMostThreeFailures(backend: Backend, hint: string, maxAttempts: nat, range: ByteRange, ifMatch: string)
    ensures MostFailures(backend, maxAttempts) <= 3
       <==> forall server: ProbeServer, versions: set<Version>, log: seq<Logged>
              | HonestProbes(server, versions) && Run(log, server, backend, hint, maxAttempts, range, ifMatch) ::
              Failures(log) <= 3
  {
    assert maxAttempts == 0 ==> MostFailures(backend, maxAttempts) <= UNREACHABLE_ATTEMPTS;
    hide Run, HonestProbes, MostFailures, Failures, Disciplined;
    forall server: ProbeServer, versions: set<Version>, log: seq<Logged>
      | HonestProbes(server, versions) && Run(log, server, backend, hint, maxAttempts, range, ifMatch)
      ensures Failures(log) <= MostFailures(backend, maxAttempts)
    {
      RunIsDisciplined(log, server, backend, hint, maxAttempts, range, ifMatch);
      FailuresExceedThree(log, backend, hint, maxAttempts);
    }
    if maxAttempts >= 1 {
      DeadServerIsHonest(backend, hint);
      var log := DeadHostHasRun(backend, hint, maxAttempts, range, ifMatch, MostFailures(backend, maxAttempts));
    }
  }

  // ------------------------------------------------------------------ the calls

  /** One request and its response, and what they settle. */
  method Attempt(x: ProbeExchange, range: ByteRange, destination: array<byte>, ifMatch: string, fallbackLimit: u64,
                 ghost versions: set<Version>)
    returns (code: CurlCode, settled: Option<Result>)
    requires ValidRange(range) && range.length <= destination.Length && HonestProbe(x, ifMatch, versions)
    modifies destination
    ensures destination[range.length..] == old(destination[range.length..])
    ensures code == x.reply.code || (x.reply.chunks != [] && (code.Ok? || code == WriteError))
    ensures !code.Ok? && x.reply.status != 206 ==> settled.None?
    ensures x.reply.status >= 300 && x.reply.status != 416 ==> settled.None?
    ensures settled.Some? && settled.value.Answered? ==>
              && Truthful(range, settled.value.reply, ifMatch, destination[..], x.reply.version)
              && settled.value.reply.etag == x.reply.ReportedEtag() && x.reply.status in ANSWERS
    ensures settled.Some? && settled.value.Failed? ==> settled.value.status != KaruOk
    ensures Completes(range, ifMatch, fallbackLimit, x.reply) ==> settled.Some? && settled.value.Answered?
    ensures settled.Some? && settled.value.Answered? ==>
              Offers(range, ifMatch, fallbackLimit, x.reply) && LeavesSuffix(range, x.reply.status, settled.value.reply)
  {
    hide Honest, HonestSize, HonoursPin, Truthful, Judge, IsStrongEtag, Offers;
    OffersAreAccepted(range, ifMatch, fallbackLimit, x.reply);
    OffersAreTold(range, ifMatch, fallbackLimit, x.reply);
    var p := new ProbeState(range, destination, ifMatch, fallbackLimit, x.followRedirects, x.reply);
    code := p.Perform(x.reply);
    settled := Settle(p, x.reply, code);
  }

  /** An answer comes from a reply that offers what was asked for, and the status of the last decision is that
      of the result. */
  predicate Tells(log: seq<Logged>, result: Result, range: ByteRange, ifMatch: string, fallbackLimit: u64)
    requires ValidRange(range)
  {
    if log == [] || !log[|log| - 1].next.Finish? then result.Failed?
    else
      var e := log[|log| - 1];
      match result
      case Answered(answer) =>
        && e.next.status == KaruOk && Offers(range, ifMatch, fallbackLimit, e.x.reply)
        && LeavesSuffix(range, e.x.reply.status, answer)
      case Failed(status) => e.next.status == status
  }

  /** One ranged GET with its retries. `sent` counts the requests and `log` records them. The first
      `range.length` bytes of the destination belong to the call; it writes nowhere else. */
  method GetRange(server: ProbeServer, backend: Backend, hint: string, maxAttempts: nat, fallbackLimit: u64,
                  range: ByteRange, destination: array<byte>, ifMatch: string, ghost versions: set<Version>)
    returns (result: Result, sent: nat, ghost log: seq<Logged>, ghost source: Version)
    requires ValidRange(range) && range.length <= destination.Length && HonestProbes(server, versions)
    modifies destination
    ensures destination[range.length..] == old(destination[range.length..])
    ensures result.Answered? ==>
              && source in versions && Truthful(range, result.reply, ifMatch, destination[..], source)
              && (TagsReported(server) ==> result.reply.etag == source.etag)
    ensures Tells(log, result, range, ifMatch, fallbackLimit)
    ensures result.Failed? ==>
              && result.status != KaruOk
              && forall i | 0 <= i < sent :: !Settles(range, ifMatch, fallbackLimit, server(i, range, ifMatch))
    ensures (log != [] && log[|log| - 1].next.Finish?) || maxAttempts == 0
            || server(sent, range, ifMatch).startFailure.Some?
    ensures sent == |log| && Run(log, server, backend, hint, maxAttempts, range, ifMatch)
    ensures Disciplined(log, backend, hint, maxAttempts)
    ensures sent <= maxAttempts + Corrections(backend) && Corrected(log) <= Corrections(backend)
    ensures Failures(log) <= MostFailures(backend, maxAttempts)
    ensures Failures(log) == ProgressOf(log, hint).unreachable + Corrected(log) <= UNREACHABLE_ATTEMPTS + Corrected(log)
  {
    hide Truthful, Run, Failures, Corrected, ProgressOf, Settles, TagsReported, MostFailures, Disciplined;
    result, sent, log, source :=
      RunAttempts(server, backend, hint, maxAttempts, fallbackLimit, range, destination, ifMatch, versions);
    RunIsDisciplined(log, server, backend, hint, maxAttempts, range, ifMatch);
    FailuresAreCounted(log, backend, hint, maxAttempts);
    FailuresExceedThree(log, backend, hint, maxAttempts);
  }

  method RunAttempts(server: ProbeServer, backend: Backend, hint: string, maxAttempts: nat, fallbackLimit: u64,
                     range: ByteRange, destination: array<byte>, ifMatch: string, ghost versions: set<Version>)
    returns (result: Result, sent: nat, ghost log: seq<Logged>, ghost source: Version)
    requires ValidRange(range) && range.length <= destination.Length && HonestProbes(server, versions)
    modifies destination
    ensures destination[range.length..] == old(destination[range.length..])
    ensures result.Answered? ==>
              && source in versions && Truthful(range, result.reply, ifMatch, destination[..], source)
              && (TagsReported(server) ==> result.reply.etag == source.etag)
    ensures Tells(log, result, range, ifMatch, fallbackLimit)
    ensures result.Failed? ==>
              && result.status != KaruOk
              && forall i | 0 <= i < sent :: !Settles(range, ifMatch, fallbackLimit, server(i, range, ifMatch))
    ensures (log != [] && log[|log| - 1].next.Finish?) || maxAttempts == 0
            || server(sent, range, ifMatch).startFailure.Some?
    ensures sent == |log| && Run(log, server, backend, hint, maxAttempts, range, ifMatch)
    ensures maxAttempts == 0 ==> sent == 0
  {
    hide Honest, HonestSize, HonoursPin, Truthful, TagsReported, Run, ProgressOf, Settles, BudgetLeft, Unreachable,
      ValidRange, Decided;
    var p := Progress(0, 0, hint, false, false);
    sent, log, source := 0, [], Version("", []);
    NothingSentYet(server, backend, hint, maxAttempts, range, ifMatch);
    while p.attempt < maxAttempts
      invariant 0 <= p.attempt <= maxAttempts
      invariant sent == |log| && p == ProgressOf(log, hint)
      invariant Run(log, server, backend, hint, maxAttempts, range, ifMatch)
      invariant log != [] ==> !log[|log| - 1].next.Finish?
      invariant p.attempt < maxAttempts || maxAttempts == 0
      invariant maxAttempts == 0 ==> sent == 0
      invariant destination[range.length..] == old(destination[range.length..])
      invariant forall i | 0 <= i < sent :: !Settles(range, ifMatch, fallbackLimit, server(i, range, ifMatch))
      decreases maxAttempts - p.attempt, !p.regionRetried, !p.credentialsRetried
    {
      var x := server(sent, range, ifMatch);
      ProbeIsHonest(server, sent, range, ifMatch, versions);
      if x.startFailure.Some? {
        return Failed(x.startFailure.value), sent, log, source;
      }
      var code, decision;
      ghost var e;
      code, decision, result, e :=
        SendOne(x, backend, p, maxAttempts, fallbackLimit, range, destination, ifMatch, versions);
      RunGrows(log, e, server, backend, hint, maxAttempts, range, ifMatch);
      source, sent, log := x.reply.version, sent + 1, log + [e];
      match decision {
        case Finish(_) => return result, sent, log, source;
        case CorrectRegion => p := p.(regionHint := x.region, regionRetried := true);
        case RefreshCredentials => p := p.(credentialsRetried := true);
        case TryAgain =>
          p := p.(attempt := p.attempt + 1, unreachable := p.unreachable + if Unreachable(code) then 1 else 0);
      }
    }
    result := Failed(ErrNetwork);
  }

  lemma ProbeIsHonest(server: ProbeServer, i: nat, range: ByteRange, pin: string, versions: set<Version>)
    requires HonestProbes(server, versions)
    ensures
      var x := server(i, range, pin);
      && HonestProbe(x, pin, versions) && Honest(x.reply) && x.reply.version in versions
      && x.startFailure != Some(KaruOk)
      && (TagsReported(server) && x.reply.status in ANSWERS ==> x.reply.ReportedEtag() == x.reply.version.etag)
  {}

  /** One exchange and what the loop does about it, as the log will record it. */
  method SendOne(x: ProbeExchange, backend: Backend, p: Progress, maxAttempts: nat, fallbackLimit: u64,
                 range: ByteRange, destination: array<byte>, ifMatch: string, ghost versions: set<Version>)
    returns (code: CurlCode, decision: Decision, result: Result, ghost e: Logged)
    requires ValidRange(range) && range.length <= destination.Length && HonestProbe(x, ifMatch, versions)
    requires Honest(x.reply) && x.startFailure.None?
    modifies destination
    ensures destination[range.length..] == old(destination[range.length..])
    ensures e == Logged(ifMatch, range.first, range.length, AsExchange(x), code, decision)
    ensures Decided(p, backend, maxAttempts, x, code, decision)
    ensures decision.CorrectRegion? ==> !p.regionRetried
    ensures decision.RefreshCredentials? ==> !p.credentialsRetried
    ensures decision.TryAgain? ==> p.attempt + 1 < maxAttempts
    ensures decision.Finish? && result.Answered? ==>
              && Truthful(range, result.reply, ifMatch, destination[..], x.reply.version)
              && result.reply.etag == x.reply.ReportedEtag() && x.reply.status in ANSWERS
    ensures decision.Finish? && result.Failed? ==> result.status != KaruOk
    ensures Tells([e], result, range, ifMatch, fallbackLimit)
    ensures !decision.Finish? || result.Failed? ==> !Settles(range, ifMatch, fallbackLimit, x)
  {
    hide Honest, HonestProbe, Truthful, NamesRegion, RejectsCredentials, Settles, Decided, MayRetry, Completes, Lawful,
      ValidRange, Unreachable;
    var settled;
    code, settled := Attempt(x, range, destination, ifMatch, fallbackLimit, versions);
    decision, result := Conclude(x, code, settled, backend, p, maxAttempts);
    CorrectedIsUnsettled(p, backend, x, range, ifMatch, fallbackLimit);
    DecidedIsLawful(p, backend, maxAttempts, x, code, decision);
    CorrectedOnce(p, backend, maxAttempts, AsExchange(x), code, decision);
    e := Logged(ifMatch, range.first, range.length, AsExchange(x), code, decision);
  }

  lemma CorrectedIsUnsettled(p: Progress, backend: Backend, x: ProbeExchange, range: ByteRange, ifMatch: string,
                             fallbackLimit: u64)
    requires ValidRange(range) && Honest(x.reply)
    ensures NamesRegion(p, backend, x) || RejectsCredentials(p, backend, x) ==>
              !Settles(range, ifMatch, fallbackLimit, x)
    ensures Settles(range, ifMatch, fallbackLimit, x) ==> Completes(range, ifMatch, fallbackLimit, x.reply)
  {
    hide Judge, Honest, ValidRange;
  }

  /** What follows a response: a correction, the result, or another attempt. */
  method Conclude(x: ProbeExchange, code: CurlCode, settled: Option<Result>, backend: Backend, p: Progress,
                  maxAttempts: nat)
    returns (decision: Decision, result: Result)
    requires code == x.reply.code || (x.reply.chunks != [] && (code.Ok? || code == WriteError))
    requires settled.Some? && settled.value.Failed? ==> settled.value.status != KaruOk
    requires !code.Ok? && x.reply.status != 206 ==> settled.None?
    requires x.reply.status >= 300 && x.reply.status != 416 ==> settled.None?
    ensures Decided(p, backend, maxAttempts, x, code, decision)
    ensures
      var corrected := decision.CorrectRegion? || decision.RefreshCredentials?;
      && (corrected ==> NamesRegion(p, backend, x) || RejectsCredentials(p, backend, x))
      && (!corrected && settled.Some? ==> decision.Finish? && result == settled.value)
    ensures settled.None? ==> (decision.TryAgain? <==> MayRetry(p, backend, maxAttempts, x, code))
    ensures decision.Finish? ==> decision.status == if result.Answered? then KaruOk else result.status
    ensures !decision.Finish? ==> result.Failed?
    ensures decision.Finish? ==>
              (result.Answered? ==> settled == Some(result)) && (result.Failed? ==> result.status != KaruOk)
  {
    TransientIsWorthRepeating(code, x.reply.status);
    hide Transient, WorthRepeating, NamesRegion, RejectsCredentials, Unreachable;
    result := Failed(ErrNetwork);
    var httpStatus := x.reply.status;
    if NamesRegion(p, backend, x) {
      return CorrectRegion, result;
    }
    if RejectsCredentials(p, backend, x) {
      return RefreshCredentials, result;
    }
    if settled.Some? {
      return Finish(if settled.value.Answered? then KaruOk else settled.value.status), settled.value;
    }
    if x.deadlineExpired {
      return Finish(KaruTimeout), Failed(KaruTimeout);
    }
    var unreachable := p.unreachable + if Unreachable(code) then 1 else 0;
    if p.attempt + 1 < maxAttempts && unreachable < UNREACHABLE_ATTEMPTS
       && (Transient(code, httpStatus) || (httpStatus == 400 && x.requestTimeout)) {
      if x.noTimeToWait {
        return Finish(KaruTimeout), Failed(KaruTimeout);
      }
      return TryAgain, result;
    }
    if !code.Ok? && 300 <= httpStatus < 400 && x.followRedirects {
      return Finish(ErrNetwork), Failed(ErrNetwork);
    }
    var status := if httpStatus >= 300 then StatusForHttp(httpStatus) else ErrNetwork;
    return Finish(status), Failed(status);
  }

  /** A probe that meets the dead redirect fails to connect four times, too. */
  method ProbeDeadRedirect(hint: string, maxAttempts: nat, range: ByteRange, destination: array<byte>)
    returns (ghost log: seq<Logged>)
    requires ValidRange(range) && range.length <= destination.Length
    requires hint != "eu-west-1" && maxAttempts >= UNREACHABLE_ATTEMPTS
    modifies destination
    ensures Failures(log) == |log| == 4
  {
    hide Run, Failures, Corrected, ProgressOf, Truthful, Settles;
    var server: ProbeServer := (i, asked, pin) => DEAD_REDIRECT;
    assert DEAD_REDIRECT.reply.ReportedEtag() == "";
    var result, sent;
    ghost var source;
    result, sent, log, source := GetRange(server, S3, hint, maxAttempts, 0, range, destination, "", {Version("", [])});
    DeadRedirectFailsFourTimes(log, hint, maxAttempts, range, "");
  }

  /** And a probe of the dead host fails to connect as often as any can. */
  method ProbeDeadHost(backend: Backend, hint: string, maxAttempts: nat, range: ByteRange, destination: array<byte>)
    returns (ghost log: seq<Logged>)
    requires ValidRange(range) && range.length <= destination.Length && maxAttempts >= 1
    modifies destination
    ensures Failures(log) == |log| == MostFailures(backend, maxAttempts)
  {
    hide Run, Failures, Corrected, ProgressOf, Truthful, Settles, MostFailures;
    DeadServerIsHonest(backend, hint);
    var result, sent;
    ghost var source;
    result, sent, log, source :=
      GetRange(DeadServer(backend, hint), backend, hint, maxAttempts, 0, range, destination, "", {Version("", [])});
    RunMeetsOnly(log, backend, hint, maxAttempts, range, "");
    DeadHostCounts(log, backend, hint, maxAttempts);
  }
}
