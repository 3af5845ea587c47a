/**
  One HTTP transfer: the callbacks that receive a response, the resumption rule and the delivery
  of its parts. The state between callbacks is tied to the body received so far by the functions
  of module Scatter, which know nothing about chunks.
*/
module Transfers {
  import opened Numbers
  import opened Origin
  import opened Scatter

  const DRAIN_LIMIT: u64 := 262144

  datatype Part = Part(relativeOffset: u64, length: u64, buffer: array<byte>, tag: int)

  datatype Status =
    | KaruOk | KaruTimeout | ErrIo | ErrNetwork | ErrHttp | ErrRange | ErrAuth | ErrNotFound
    | ErrPrecondition | ErrCredentials | ErrUnsupported

  datatype Completion = Completion(tag: int, status: Status, got: u64, buffer: array<byte>)

  predicate Transient(code: CurlCode, status: int)
  {
    || code in {OperationTimedout, CouldntConnect, CouldntResolveHost, GotNothing, SendError,
                RecvError, PartialFile, SslConnectError, CurlCode.Http2, Http2Stream}
    || status in {408, 425, 429} || 500 <= status < 600
  }

  predicate Unreachable(code: CurlCode)
  {
    code == CouldntResolveHost || code == CouldntConnect
  }

  /** Everything about the response being received that a new status line forgets. */
  datatype ResponseState = ResponseState(
    httpStatus: int, etag: string, contentRange: ContentRange, contentRangeMatches: bool,
    transformed: bool, checkedStatus: bool, versionChanged: bool, fallbackRejected: bool,
    skip: u64, bodyLength: int, consume: u64, satisfied: bool, errorBodyReceived: u64)

  const NO_RESPONSE := ResponseState(0, "", Missing, false, false, false, false, false, 0, -1, 0, false, 0)

  /** The prefix the next attempt keeps and the tag it then asks for. */
  function ResumePoint(ifMatch: string, resumeEtag: string, resumed: u64, received: u64, length: u64,
                       r: ResponseState): (u64, string)
  {
    if ifMatch != "" && !IsStrongEtag(ifMatch) then (0, "")
    else if r.versionChanged || (r.httpStatus == 412 && ifMatch == "") then (0, "")
    else if !(r.httpStatus in {200, 206}) || received <= resumed || received >= length then (resumed, resumeEtag)
    else if ifMatch == "" && resumeEtag == "" then
      if r.etag == "" then (0, "") else (received, r.etag)
    else (received, resumeEtag)
  }

  function PinOf(ifMatch: string, resumeEtag: string): string
  {
    if ifMatch == "" then resumeEtag else ifMatch
  }

  /** May the transfer complete? (src/runtime/http_response.cpp:167-180) */
  predicate Succeeded(r: ResponseState, resumed: u64, received: u64, code: CurlCode)
  {
    && (code.Ok? || r.satisfied)
    && 200 <= r.httpStatus < 300 && !r.transformed
    && (r.httpStatus != 206 ||
        (r.contentRangeMatches && r.contentRange.Satisfied? &&
         received - resumed == r.contentRange.last - r.contentRange.first + 1))
  }

  /** The body bytes up to the last requested one, as far as 64 bits can tell. */
  function Consumed(l: Layout, verdict: Verdict): u64
    requires verdict.Stream? && verdict.base < l.length
  {
    Min(MAX64, verdict.skip + l.length - verdict.base)
  }

  /** Is it known that at most DRAIN_LIMIT bytes follow the last requested one? Then reading on
      keeps the connection usable. Without a length, only a 206 can end where `body` ends. */
  predicate WorthDraining(l: Layout, verdict: Verdict, reply: Reply, body: seq<byte>)
    requires verdict.Stream? && verdict.base < l.length
  {
    if reply.contentLength >= 0 then reply.contentLength <= Consumed(l, verdict) + DRAIN_LIMIT
    else reply.status != 200 && |Drop(body, verdict.skip)| <= l.length - verdict.base
  }

  /** What the body has brought beyond the skipped prefix, as long as it is not all. */
  lemma RestIsOpen(l: Layout, verdict: Verdict, body: seq<byte>, chunk: seq<byte>, received: u64)
    requires verdict.Stream? && verdict.base < l.length && received < l.length
    requires received == verdict.base + |Landed(l, verdict.base, verdict.skip, body)|
    ensures |Drop(body + chunk, verdict.skip)|
         == received - verdict.base + |Drop(chunk, Max(0, verdict.skip - |body|))|
  {}

  /** `r` and the counters are what the body bytes `fed` of `reply` lead to under `verdict`, for
      a transfer that held `kept` bytes and the destinations `before` when the response began. */
  ghost predicate Reflects(l: Layout, verdict: Verdict, kept: u64, before: seq<seq<byte>>, reply: Reply,
                           fed: seq<byte>, r: ResponseState, resumed: u64, received: u64,
                           contents: seq<seq<byte>>)
    requires ValidLayout(l) && kept < l.length && Fits(l, before)
    requires verdict.Stream? ==> verdict.base < l.length
  {
    && r.httpStatus == reply.status && r.transformed == reply.transformed
    && r.etag == reply.ReportedEtag() && r.contentRange == reply.range
    && r.contentRangeMatches == ValidContentRange(l, kept, reply.range)
    && r.satisfied == (received == l.length)
    && if !r.checkedStatus then
         && fed == [] && contents == before && resumed == received == kept
         && r.skip == 0 && !r.versionChanged && !r.fallbackRejected
       else
         && Arrival(resumed, received, contents) == Arrive(l, verdict, kept, before, fed)
         && r.versionChanged == verdict.VersionChanged?
         && r.fallbackRejected == verdict.FallbackRejected?
         && (verdict.Stream? ==> r.skip == Max(0, verdict.skip - |fed|))
         && (verdict.Stream? ==> r.bodyLength == reply.contentLength && r.consume == Consumed(l, verdict))
  }

  lemma HeadersSeen(l: Layout, verdict: Verdict, kept: u64, before: seq<seq<byte>>, reply: Reply,
                    fed: seq<byte>, r: ResponseState, resumed: u64, received: u64, contents: seq<seq<byte>>)
    requires ValidLayout(l) && kept < l.length && Fits(l, before)
    requires verdict.Stream? ==> verdict.base < l.length
    requires Reflects(l, verdict, kept, before, reply, fed, r, resumed, received, contents) && !r.checkedStatus
    ensures r.httpStatus == reply.status && r.transformed == reply.transformed
    ensures r.etag == reply.ReportedEtag() && r.contentRange == reply.range
    ensures r.contentRangeMatches == ValidContentRange(l, kept, reply.range)
    ensures fed == [] && contents == before && resumed == received == kept
    ensures r.skip == 0 && !r.versionChanged && !r.fallbackRejected && !r.satisfied
  {}

  /** Before its first byte is looked at, a body has changed nothing but the kept prefix. */
  lemma BodyStarts(l: Layout, verdict: Verdict, kept: u64, before: seq<seq<byte>>, reply: Reply,
                   r: ResponseState, resumed: u64, received: u64)
    requires ValidLayout(l) && kept < l.length && Fits(l, before)
    requires verdict.Stream? ==> verdict.base < l.length && r.skip == verdict.skip
    requires verdict.Stream? ==> r.bodyLength == reply.contentLength && r.consume == Consumed(l, verdict)
    requires r.httpStatus == reply.status && r.transformed == reply.transformed
    requires r.etag == reply.ReportedEtag() && r.contentRange == reply.range
    requires r.contentRangeMatches == ValidContentRange(l, kept, reply.range)
    requires r.checkedStatus && !r.satisfied
    requires r.versionChanged == verdict.VersionChanged? && r.fallbackRejected == verdict.FallbackRejected?
    requires resumed == received
    requires received == match verdict case Stream(base, _) => base case FallbackRejected => 0 case _ => kept
    ensures Reflects(l, verdict, kept, before, reply, [], r, resumed, received, before)
  {
    PatchAllNothing(l, before, received);
  }

  /** What one more accepted chunk of a body changes. */
  lemma BodyContinues(l: Layout, verdict: Verdict, kept: u64, before: seq<seq<byte>>, reply: Reply,
                      fed: seq<byte>, chunk: seq<byte>, r: ResponseState, resumed: u64, received: u64,
                      contents: seq<seq<byte>>)
    requires ValidLayout(l) && kept < l.length && Fits(l, before) && Fits(l, contents)
    requires verdict.Stream? && verdict.base < l.length && r.checkedStatus && received <= l.length
    requires Reflects(l, verdict, kept, before, reply, fed, r, resumed, received, contents)
    ensures
      var taken := Take(Drop(chunk, r.skip), l.length - received);
      var r' := r.(skip := Max(0, r.skip - |chunk|), satisfied := received + |taken| == l.length);
      Reflects(l, verdict, kept, before, reply, fed + chunk, r', resumed, received + |taken|,
               PatchAll(l, contents, received, taken))
  {
    hide PatchAll, ValidContentRange, Landed;
    ArriveAppend(l, verdict.base, verdict.skip, kept, before, fed, chunk);
  }

  /** What is known after some prefix of a body holds for the whole body when the client has
      everything it asked for, or has refused the body. */
  lemma BodyEnds(l: Layout, verdict: Verdict, kept: u64, before: seq<seq<byte>>, reply: Reply,
                 fed: seq<byte>, r: ResponseState, resumed: u64, received: u64, contents: seq<seq<byte>>,
                 body: seq<byte>)
    requires ValidLayout(l) && kept < l.length && Fits(l, before)
    requires verdict.Stream? ==> verdict.base < l.length
    requires Reflects(l, verdict, kept, before, reply, fed, r, resumed, received, contents) && r.checkedStatus
    requires verdict.Stream? ==> fed <= body && (fed == body || r.satisfied)
    ensures Arrival(resumed, received, contents) == Arrive(l, verdict, kept, before, body)
  {
    if verdict.Stream? && r.satisfied {
      LandedFull(l, verdict.base, verdict.skip, fed, body);
    }
  }

  class Transfer {
    const offset: u64
    const length: u64
    const parts: seq<Part>
    const ifMatch: string
    const scattered: bool
    const fallbackLimit: u64

    var resumed: u64
    var resumeEtag: string
    var received: u64
    var scatterCursor: nat
    var response: ResponseState
    var followRedirects: bool             // of the request that is out

    // The libcurl handle: it reports the response code and the content length.
    var reply: Reply
    // What the transfer held when the response began, and the body received so far.
    ghost var kept: u64
    ghost var before: seq<seq<byte>>
    ghost var fed: seq<byte>

    constructor (offset: u64, length: u64, parts: seq<Part>, ifMatch: string, fallbackLimit: u64)
      requires parts != []
      requires ValidLayout(Layout(offset, length, Spans(parts)))
      requires forall i | 0 <= i < |parts| :: parts[i].buffer.Length == parts[i].length
      requires forall i, j | 0 <= i < j < |parts| :: parts[i].buffer != parts[j].buffer
      ensures WellFormed() && Valid() && this.parts == parts && this.ifMatch == ifMatch && this.offset == offset
      ensures this.length == length && this.fallbackLimit == fallbackLimit
      ensures resumed == 0 && resumeEtag == ""
    {
      this.offset, this.length, this.parts, this.ifMatch := offset, length, parts, ifMatch;
      this.fallbackLimit := fallbackLimit;
      scattered := |parts| != 1 || parts[0].relativeOffset != 0 || parts[0].length != length;
      resumed, received, resumeEtag, scatterCursor, response, followRedirects := 0, 0, "", 0, NO_RESPONSE, true;
    }

    static function Spans(parts: seq<Part>): (r: seq<Span>)
    {
      seq(|parts|, i requires 0 <= i < |parts| => Span(parts[i].relativeOffset, parts[i].length))
    }

    function Shape(): Layout { Layout(offset, length, Spans(parts)) }

    function Buffers(): set<array<byte>> { set part | part in parts :: part.buffer }

    ghost function Contents(): (r: seq<seq<byte>>)
      reads Buffers()
      ensures |r| == |parts|
      ensures forall i | 0 <= i < |parts| :: r[i] == parts[i].buffer[..]
    {
      seq(|parts|, i requires 0 <= i < |parts| reads Buffers() => parts[i].buffer[..])
    }

    /** What never changes: a valid layout and one separate destination per part. */
    ghost predicate WellFormed()
    {
      && parts != [] && ValidLayout(Shape())
      && (forall i | 0 <= i < |parts| :: parts[i].buffer.Length == parts[i].length)
      && (forall i, j | 0 <= i < j < |parts| :: parts[i].buffer != parts[j].buffer)
      && (!scattered ==> |parts| == 1 && parts[0].relativeOffset == 0 && parts[0].length == length)
    }

    ghost predicate Valid()
      reads this
    {
      resumed < length && resumed <= received <= length
    }

    /** The first `cursor` parts end within the first `n` bytes. */
    ghost predicate Passed(cursor: nat, n: u64)
    {
      cursor <= |parts| && forall j | 0 <= j < cursor :: parts[j].relativeOffset + parts[j].length <= n
    }

    /** The version a request asks for (src/runtime/transport.cpp:747-750). */
    function VersionPin(): string
      reads this
    {
      PinOf(ifMatch, resumeEtag)
    }

    // ---------------------------------------------------------------- receiving

    /** The decision the first byte of this response's body leads (or led) to. */
    ghost function Decision(): Verdict
      requires WellFormed() && kept < length
      reads this
    {
      Judge(Shape(), VersionPin(), fallbackLimit, kept, reply)
    }

    /** The state depends only on the bytes received so far, not on how they were cut. */
    ghost predicate Receiving()
      requires WellFormed()
      reads this, Buffers()
    {
      && Valid() && kept < length && Passed(scatterCursor, received) && Fits(Shape(), before)
      && (!response.checkedStatus ==> scatterCursor == 0)
      && Reflects(Shape(), Decision(), kept, before, reply, fed, response, resumed, received, Contents())
    }

    /** The client has refused the body: libcurl makes no further callback. */
    ghost predicate Refused()
      requires WellFormed() && kept < length
      reads this
    {
      response.checkedStatus && !Decision().Stream? && !Decision().ErrorBody?
    }

    method ResetResponse()
      requires WellFormed() && Valid()
      modifies this`received, this`scatterCursor, this`response
      ensures Valid() && received == resumed && scatterCursor == 0 && response == NO_RESPONSE
    {
      received, scatterCursor, response := resumed, 0, NO_RESPONSE;
    }

    /** The status line and headers of one response. */
    method HeaderCallback(answer: Reply)
      requires WellFormed() && Valid()
      modifies this
      ensures Receiving() && reply == answer && kept == resumed == old(resumed) && !response.checkedStatus
      ensures resumeEtag == old(resumeEtag) && followRedirects == old(followRedirects)
    {
      ResetResponse();
      response := response.(
        httpStatus := answer.status, contentRange := answer.range, etag := answer.ReportedEtag(),
        contentRangeMatches := ValidContentRange(Shape(), resumed, answer.range),
        transformed := answer.transformed);
      reply, kept, before, fed := answer, resumed, Contents(), [];
    }

    /** Puts `data` behind what is already there: directly for a single part, else in every part
        it touches (src/runtime/transport.cpp:801-836). */
    method StorePayload(data: seq<byte>)
      requires WellFormed() && Valid() && received + |data| <= length && Passed(scatterCursor, received)
      modifies this`received, this`scatterCursor, Buffers()
      ensures Valid() && received == old(received) + |data| && Passed(scatterCursor, received)
      ensures Contents() == PatchAll(Shape(), old(Contents()), old(received), data)
    {
      if !scattered {
        FillSink(received, data);
      } else {
        AdvanceCursor();
        ScatterFrom(scatterCursor, received, data);
      }
      received := received + |data|;
    }

    method FillSink(chunkBegin: u64, data: seq<byte>)
      requires WellFormed() && !scattered && chunkBegin + |data| <= length
      modifies Buffers()
      ensures Contents() == PatchAll(Shape(), old(Contents()), chunkBegin, data)
    {
      ghost var start := Contents();
      var sink := parts[0].buffer;
      forall k | 0 <= k < |data| {
        sink[chunkBegin + k] := data[k];
      }
      assert Contents()[0] == Patch(Shape().spans[0], start[0], chunkBegin, data);
    }

    /** Parts may overlap, so only those that no later chunk can touch are passed over. */
    method AdvanceCursor()
      requires WellFormed() && Valid() && Passed(scatterCursor, received)
      modifies this`scatterCursor
      ensures Valid() && Passed(scatterCursor, received)
    {
      while scatterCursor < |parts| && parts[scatterCursor].relativeOffset + parts[scatterCursor].length <= received
        invariant Passed(scatterCursor, received)
        decreases |parts| - scatterCursor
      {
        scatterCursor := scatterCursor + 1;
      }
    }

    method ScatterFrom(cursor: nat, chunkBegin: u64, data: seq<byte>)
      requires WellFormed() && Passed(cursor, chunkBegin) && chunkBegin + |data| <= length
      modifies Buffers()
      ensures Contents() == PatchAll(Shape(), old(Contents()), chunkBegin, data)
    {
      hide Patch, PatchAll, ValidLayout;
      ghost var start := Contents();
      ghost var goal := PatchAll(Shape(), start, chunkBegin, data);
      var chunkEnd: u64 := chunkBegin + |data|;
      var index := cursor;
      PatchAllMissesBefore(Shape(), start, chunkBegin, data, cursor);
      while index < |parts| && parts[index].relativeOffset < chunkEnd
        invariant cursor <= index <= |parts|
        invariant forall j | 0 <= j < index :: parts[j].buffer[..] == goal[j]
        invariant forall j | index <= j < |parts| :: parts[j].buffer[..] == start[j]
        decreases |parts| - index
      {
        PatchAllAt(Shape(), start, chunkBegin, data, index);
        CopyOverlap(index, chunkBegin, data);
        index := index + 1;
      }
      PatchAllMissesAfter(Shape(), start, chunkBegin, data, index);
    }

    /** Copies the intersection of one part with the chunk, if there is one. */
    method CopyOverlap(index: nat, chunkBegin: u64, data: seq<byte>)
      requires WellFormed() && index < |parts| && chunkBegin + |data| <= length
      modifies parts[index].buffer
      ensures parts[index].buffer[..] == Patch(Shape().spans[index], old(parts[index].buffer[..]), chunkBegin, data)
    {
      var part := parts[index];
      var partBegin := part.relativeOffset;
      assert Shape().spans[index] == Span(partBegin, part.length);
      var partEnd: u64 := partBegin + part.length;
      var begin: u64 := Max(chunkBegin, partBegin);
      var end: u64 := Min(chunkBegin + |data|, partEnd);
      if begin < end {
        forall k | begin <= k < end {
          part.buffer[k - partBegin] := data[k - chunkBegin];
        }
      }
    }

    /** The first callback of a body decides what becomes of it (src/runtime/transport.cpp:275-312). */
    method CheckStatus() returns (accepted: bool)
      requires WellFormed() && Receiving() && !response.checkedStatus
      requires reply.status in {200, 206} || reply.status >= 300
      modifies this`resumed, this`received, this`response
      ensures Receiving() && response.checkedStatus && accepted == !Refused() && !response.satisfied
    {
      hide Reflects, Arrive, ValidContentRange;
      ghost var verdict := Decision();
      HeadersSeen(Shape(), verdict, kept, before, reply, fed, response, resumed, received, Contents());
      var r := response.(checkedStatus := true);
      var ok := 200 <= r.httpStatus < 300;
      var base := resumed;
      accepted := false;
      if ok && r.transformed {
      } else if ok && IsStrongEtag(VersionPin()) && r.etag != "" && r.etag != VersionPin() {
        r := r.(versionChanged := true);
      } else if r.httpStatus == 206 && !ValidContentRange(Shape(), resumed, r.contentRange) {
      } else {
        if r.httpStatus == 200 && resumed > 0 {
          base := 0;
        }
        var first: u64 := offset + base;
        if r.httpStatus == 200 && first > 0 && first > fallbackLimit {
          r := r.(fallbackRejected := true);
        } else {
          var wanted: u64 := length - base;
          var skip := if r.httpStatus == 200 then first else 0;
          r := r.(skip := skip, bodyLength := reply.contentLength,
                  consume := if skip > MAX64 - wanted then MAX64 else skip + wanted);
          accepted := true;
        }
      }
      BodyStarts(Shape(), verdict, kept, before, reply, r, base, base);
      resumed, received, response := base, base, r;
      assert Contents() == before;
    }

    /** One chunk of a body. False makes libcurl stop the transfer. */
    method WriteCallback(chunk: seq<byte>) returns (accepted: bool)
      requires WellFormed() && Receiving() && !Refused() && |chunk| <= MAX64
      requires reply.status in {200, 206} || reply.status >= 300
      modifies this`resumed, this`received, this`response, this`scatterCursor, this`fed, Buffers()
      ensures Receiving() && response.checkedStatus
      ensures !Refused() ==> fed == old(fed) + chunk
      ensures accepted ==> !Refused()
      ensures !accepted ==> Refused() || Decision().ErrorBody? || response.satisfied
      ensures Decision().Stream? && response.satisfied && !old(response.satisfied) ==>
                accepted == WorthDraining(Shape(), Decision(), reply, fed)
    {
      hide Arrive, Judge, WorthDraining;
      if !response.checkedStatus {
        accepted := CheckStatus();
        if !accepted {
          return;
        }
      }
      if response.satisfied {
        accepted := AlreadyFull(chunk);
      } else if response.httpStatus >= 300 {
        accepted := DrainErrorBody(chunk);
      } else {
        accepted := StoreBody(chunk);
      }
    }

    /** Whatever follows the last requested byte is ignored. */
    method AlreadyFull(chunk: seq<byte>) returns (accepted: bool)
      requires WellFormed() && Receiving() && response.satisfied
      modifies this`fed
      ensures Receiving() && fed == old(fed) + chunk && accepted
    {
      LandedFull(Shape(), Decision().base, Decision().skip, fed, fed + chunk);
      fed := fed + chunk;
      accepted := true;
    }

    /** The body of a redirect that is followed is read and ignored; that of an error is read to its end
        if it is small, so that the connection stays usable. */
    method DrainErrorBody(chunk: seq<byte>) returns (accepted: bool)
      requires WellFormed() && Receiving() && response.checkedStatus && !Refused()
      requires response.httpStatus >= 300
      modifies this`fed, this`response
      ensures Receiving() && response.checkedStatus && Decision().ErrorBody? && fed == old(fed) + chunk
      ensures
        var followed := response.httpStatus < 400 && followRedirects;
        && (accepted <==> followed || chunk == [] || old(response.errorBodyReceived) + |chunk| <= DRAIN_LIMIT)
        && (accepted ==>
            response.errorBodyReceived == old(response.errorBodyReceived) + if followed then 0 else |chunk|)
    {
      fed := fed + chunk;
      if response.httpStatus < 400 && followRedirects {
        return true;
      }
      accepted := |chunk| <= DRAIN_LIMIT - Min(DRAIN_LIMIT, response.errorBodyReceived);
      if accepted {
        response := response.(errorBodyReceived := response.errorBodyReceived + |chunk|);
      }
    }

    /** One chunk of a body that is wanted. */
    method StoreBody(chunk: seq<byte>) returns (accepted: bool)
      requires WellFormed() && Receiving() && response.checkedStatus && Decision().Stream? && !response.satisfied
      modifies this`received, this`response, this`scatterCursor, this`fed, Buffers()
      ensures Receiving() && response.checkedStatus && fed == old(fed) + chunk && resumed == old(resumed)
      ensures accepted <==> (response.satisfied ==> WorthDraining(Shape(), Decision(), reply, fed))
    {
      hide Receiving, Reflects, Judge, Consumed, WorthDraining;
      RestOfBody(chunk);
      var keep := KeepReading(|Drop(chunk, response.skip)| <= length - received);
      TakeBytes(chunk);
      accepted := !response.satisfied || keep;
    }

    method TakeBytes(chunk: seq<byte>)
      requires WellFormed() && Receiving() && response.checkedStatus && Decision().Stream? && !response.satisfied
      modifies this`received, this`response, this`scatterCursor, this`fed, Buffers()
      ensures Receiving() && response.checkedStatus && fed == old(fed) + chunk && resumed == old(resumed)
    {
      hide Reflects, Judge;
      BodyContinues(Shape(), Decision(), kept, before, reply, fed, chunk, response, resumed, received, Contents());
      var taken := Take(Drop(chunk, response.skip), length - received);
      fed := fed + chunk;
      response := response.(skip := Max(0, response.skip - |chunk|), satisfied := received + |taken| == length);
      if taken == [] {
        PatchAllNothing(Shape(), Contents(), received);
      } else {
        StorePayload(taken);
      }
    }

    /** Is so little left to read that the connection is worth keeping? */
    method KeepReading(takenAll: bool) returns (keep: bool)
      ensures keep == if response.bodyLength >= 0 then response.bodyLength <= response.consume + DRAIN_LIMIT
                      else takenAll && response.httpStatus != 200
    {
      var excess := MAX64;
      if response.bodyLength >= 0 {
        excess := if response.bodyLength > response.consume then response.bodyLength - response.consume else 0;
      } else if takenAll && response.httpStatus != 200 {
        excess := 0;
      }
      keep := excess <= DRAIN_LIMIT;
    }

    lemma RestOfBody(chunk: seq<byte>)
      requires WellFormed() && Receiving() && response.checkedStatus && Decision().Stream? && !response.satisfied
      ensures
        var takenAll := |Drop(chunk, response.skip)| <= length - received;
        WorthDraining(Shape(), Decision(), reply, fed + chunk)
        == if response.bodyLength >= 0 then response.bodyLength <= response.consume + DRAIN_LIMIT
           else takenAll && response.httpStatus != 200
    {
      hide Judge;
      RestIsOpen(Shape(), Decision(), fed, chunk, received);
    }

    /** libcurl's delivery of one response body. However the body is cut, the kept bytes and the
        destinations end up as they would after one write of the whole body. */
    method ReceiveBody(chunks: seq<seq<byte>>) returns (accepted: bool)
      requires WellFormed() && Receiving() && !response.checkedStatus
      requires forall i | 0 <= i < |chunks| :: |chunks[i]| <= MAX64
      requires chunks != [] ==> reply.status in {200, 206} || reply.status >= 300
      modifies this`resumed, this`received, this`response, this`scatterCursor, this`fed, Buffers()
      ensures Receiving() && response.checkedStatus == (chunks != [])
      ensures chunks != [] ==>
        Arrival(resumed, received, Contents()) == Arrive(Shape(), Decision(), kept, before, Flatten(chunks))
      ensures chunks != [] && accepted ==> !Refused()
      ensures !accepted ==> chunks != [] && (Refused() || Decision().ErrorBody? || response.satisfied)
    {
      hide Arrive, Judge, Reflects;
      HeadersSeen(Shape(), Decision(), kept, before, reply, fed, response, resumed, received, Contents());
      accepted := true;
      var i := 0;
      while i < |chunks|
        invariant 0 <= i <= |chunks| && Receiving() && !Refused()
        invariant response.checkedStatus == (i > 0)
        invariant fed == Flatten(chunks[..i])
      {
        FlattenSnoc(chunks[..i], chunks[i]);
        assert chunks[..i + 1] == chunks[..i] + [chunks[i]];
        accepted := WriteCallback(chunks[i]);
        i := i + 1;
        if !accepted {
          break;
        }
      }
      if chunks != [] {
        FlattenPrefix(chunks, i);
        assert chunks[..|chunks|] == chunks;
        BodyEnds(Shape(), Decision(), kept, before, reply, fed, response, resumed, received, Contents(),
                 Flatten(chunks));
      }
    }

    // ---------------------------------------------------------------- the next attempt

    /** What has arrived so far stays if the next request can name its version, and is given up otherwise. */
    method PlanResume()
      modifies this`resumed, this`resumeEtag
      ensures (resumed, resumeEtag) == old(ResumePoint(ifMatch, resumeEtag, resumed, received, length, response))
      ensures old(Valid()) ==> resumed < length && resumed <= received && resumed in {0, old(resumed), received}
    {
      if ifMatch != "" && !IsStrongEtag(ifMatch) {
        resumed, resumeEtag := 0, "";
        return;
      }
      if response.versionChanged || (response.httpStatus == 412 && ifMatch == "") {
        resumed, resumeEtag := 0, "";
        return;
      }
      var data := response.httpStatus == 200 || response.httpStatus == 206;
      if !data || received <= resumed || received >= length {
        return;
      }
      if ifMatch == "" && resumeEtag == "" {
        if response.etag == "" {
          resumed := 0;
          return;
        }
        resumeEtag := response.etag;
      }
      resumed := received;
    }

    // ---------------------------------------------------------------- delivery

    /** One completion per part: in full, or as the prefix of it that exists
        (src/runtime/engine.cpp:404-434). */
    method Deliver(status: Status) returns (completions: seq<Completion>)
      requires WellFormed() && Valid()
      ensures |completions| == |parts|
      ensures forall i | 0 <= i < |parts| :: completions[i] == CompletionOf(parts[i], status, received)
    {
      completions := [];
      for i := 0 to |parts|
        invariant |completions| == i
        invariant forall j | 0 <= j < i :: completions[j] == CompletionOf(parts[j], status, received)
      {
        var part := parts[i];
        assert Shape().spans[i] == Span(part.relativeOffset, part.length);
        var completion := Completion(part.tag, status, 0, part.buffer);
        if status == KaruOk {
          var partEnd := part.relativeOffset + part.length;
          if partEnd > received {
            completion := completion.(
              status := ErrRange,
              got := if received > part.relativeOffset then received - part.relativeOffset else 0);
          } else {
            completion := completion.(got := part.length);
          }
        }
        completions := completions + [completion];
      }
    }

    static function CompletionOf(part: Part, status: Status, received: u64): Completion
    {
      var present := Max(0, Min(part.length, received - part.relativeOffset));
      if status != KaruOk then Completion(part.tag, status, 0, part.buffer)
      else Completion(part.tag, if present == part.length then KaruOk else ErrRange, present, part.buffer)
    }
  }
}
