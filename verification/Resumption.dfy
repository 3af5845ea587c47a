/**
  Why a resumed transfer never mixes versions: the bytes kept between attempts always belong to
  the version its pin names, and a body is stored only when it is of that version.
*/
module Resumption {
  import opened Numbers
  import opened Origin
  import opened Scatter
  import opened Transfers

  /** The first `kept` bytes of the transfer are those of `origin`, which the next request names. */
  predicate PrefixPinned(l: Layout, buffers: seq<seq<byte>>, kept: nat, pin: string, origin: Version,
                         versions: set<Version>)
    requires Fits(l, buffers)
  {
    kept > 0 ==>
      && IsStrongEtag(pin) && origin in versions && origin.etag == pin
      && Holds(l, buffers, kept, origin.content)
  }

  /** A body that is accepted extends a kept prefix only with bytes of the same version. */
  lemma ArrivalIsOneVersion(l: Layout, pin: string, limit: u64, kept: u64, before: seq<seq<byte>>,
                            reply: Reply, origin: Version, versions: set<Version>)
    requires ValidLayout(l) && kept < l.length && Fits(l, before)
    requires Honest(reply) && HonoursPin(reply, pin) && Coherent(versions) && reply.version in versions
    requires PrefixPinned(l, before, kept, pin, origin, versions)
    requires reply.status in {200, 206} && Judge(l, pin, limit, kept, reply).Stream?
    ensures
      var a := Arrive(l, Judge(l, pin, limit, kept, reply), kept, before, reply.Body());
      && Holds(l, a.buffers, a.received, reply.version.content)
      && (IsStrongEtag(pin) ==> reply.version.etag == pin)
  {
    hide Holds, Landed, PatchAll, Honest;
    if reply.status == 206 {
      assert kept > 0 ==> origin.content == reply.version.content;
      assert kept == 0 ==> Holds(l, before, kept, reply.version.content) by {
        HoldsNothing(l, before, reply.version.content);
      }
      PartialBodyHolds(l, kept, before, reply);
    } else {
      WholeBodyHolds(l, before, reply);
    }
  }

  lemma HoldsNothing(l: Layout, buffers: seq<seq<byte>>, content: seq<byte>)
    requires ValidLayout(l) && Fits(l, buffers)
    ensures Holds(l, buffers, 0, content)
  {}

  lemma PartialBodyHolds(l: Layout, kept: u64, before: seq<seq<byte>>, reply: Reply)
    requires ValidLayout(l) && kept < l.length && Fits(l, before) && Honest(reply) && !reply.transformed
    requires reply.status == 206 && ValidContentRange(l, kept, reply.range)
    requires Holds(l, before, kept, reply.version.content)
    ensures
      var a := Arrive(l, Stream(kept, 0), kept, before, reply.Body());
      Holds(l, a.buffers, a.received, reply.version.content)
  {
    hide Holds, Honest, Landed, PatchAll;
    LandedOf206(l, kept, reply);
    HoldsPatch(l, before, kept, Landed(l, kept, 0, reply.Body()), reply.version.content);
  }

  lemma WholeBodyHolds(l: Layout, before: seq<seq<byte>>, reply: Reply)
    requires ValidLayout(l) && Fits(l, before) && Honest(reply) && !reply.transformed && reply.status == 200
    ensures
      var a := Arrive(l, Stream(0, l.offset), 0, before, reply.Body());
      Holds(l, a.buffers, a.received, reply.version.content)
  {
    hide Holds, Honest, Landed, PatchAll;
    var landed := Landed(l, 0, l.offset, reply.Body());
    LandedOf200(l, reply);
    HoldsNothing(l, before, reply.version.content);
    if landed == [] {
      PatchAllNothing(l, before, 0);
    } else {
      HoldsPatch(l, before, 0, landed, reply.version.content);
    }
  }

  lemma LandedOf206(l: Layout, kept: u64, reply: Reply)
    requires ValidLayout(l) && kept < l.length && Honest(reply) && !reply.transformed
    requires reply.status == 206 && ValidContentRange(l, kept, reply.range)
    ensures
      var content := reply.version.content;
      var landed := Landed(l, kept, 0, reply.Body());
      && l.offset + kept + |landed| <= reply.range.last + 1 <= |content|
      && forall k | 0 <= k < |landed| :: landed[k] == content[l.offset + kept + k]
  {
    var content := reply.version.content;
    var range := content[reply.range.first..reply.range.last + 1];
    var landed := Landed(l, kept, 0, reply.Body());
    assert landed <= reply.Body() <= range;
    forall k | 0 <= k < |landed| ensures landed[k] == content[l.offset + kept + k] {
      assert landed[k] == range[k];
    }
  }

  lemma LandedOf200(l: Layout, reply: Reply)
    requires ValidLayout(l) && Honest(reply) && !reply.transformed && reply.status == 200
    ensures
      var content := reply.version.content;
      var landed := Landed(l, 0, l.offset, reply.Body());
      && (landed != [] ==> l.offset + |landed| <= |content|)
      && (forall k | 0 <= k < |landed| :: landed[k] == content[l.offset + k])
  {
    var landed := Landed(l, 0, l.offset, reply.Body());
    if landed != [] {
      assert landed <= reply.Body()[l.offset..];
    }
  }

  // ------------------------------------------------------------------ planning the next attempt

  /** Planning a retry preserves the pinning of the kept prefix, and never keeps all of it. */
  lemma ResumePointIsPinned(l: Layout, buffers: seq<seq<byte>>, ifMatch: string, resumeEtag: string,
                            resumed: u64, received: u64, r: ResponseState, current: Version, versions: set<Version>)
    requires ValidLayout(l) && Fits(l, buffers) && resumed < l.length && resumed <= received <= l.length
    requires resumeEtag == "" || IsStrongEtag(resumeEtag)
    requires r.etag == "" || IsStrongEtag(r.etag)
    requires PrefixPinned(l, buffers, resumed, PinOf(ifMatch, resumeEtag), current, versions)
    requires received > resumed ==>
      && current in versions && Holds(l, buffers, received, current.content)
      && (IsStrongEtag(PinOf(ifMatch, resumeEtag)) ==> current.etag == PinOf(ifMatch, resumeEtag))
      && (r.etag != "" ==> current.etag == r.etag)
    ensures
      var (kept, tag) := ResumePoint(ifMatch, resumeEtag, resumed, received, l.length, r);
      && kept < l.length && (tag == "" || IsStrongEtag(tag))
      && PrefixPinned(l, buffers, kept, PinOf(ifMatch, tag), current, versions)
  {}

  // ------------------------------------------------------------------ the end of the object

  /** A 206 that completes a transfer either fills it or reports where the object ends, whatever
      the server did: nothing is assumed of the reply. */
  lemma SuccessOn206(l: Layout, kept: u64, reply: Reply, r: ResponseState, received: u64, code: CurlCode)
    requires ValidLayout(l) && kept < l.length && kept <= received <= l.length
    requires WellParsed(reply.range) && r.httpStatus == 206 && r.contentRange == reply.range
    requires r.contentRangeMatches == ValidContentRange(l, kept, reply.range)
    requires Succeeded(r, kept, received, code)
    ensures received > kept
    ensures received == l.length ||
            (reply.range.total.Some? && reply.range.total.value == l.offset + received)
  {}

  /** The object of `content` really ends after `received` bytes of the transfer (or before it). */
  predicate EndsAt(l: Layout, received: nat, content: seq<byte>)
  {
    |content| == l.offset + received || (received == 0 && |content| <= l.offset)
  }

  /** What a transfer holds after a whole response. */
  function ArrivalOf(l: Layout, pin: string, limit: u64, kept: u64, before: seq<seq<byte>>, reply: Reply): Arrival
    requires ValidLayout(l) && kept < l.length && Fits(l, before)
  {
    if reply.chunks == [] then Arrival(kept, kept, before)
    else Arrive(l, Judge(l, pin, limit, kept, reply), kept, before, reply.Body())
  }

  /** The response `reply`, recorded as `r` and ended by curl with `code`, completes the transfer. */
  ghost predicate CompletedBy(l: Layout, pin: string, limit: u64, kept: u64, before: seq<seq<byte>>,
                              reply: Reply, r: ResponseState, code: CurlCode)
    requires ValidLayout(l) && kept < l.length && Fits(l, before)
  {
    var a := ArrivalOf(l, pin, limit, kept, before, reply);
    && r.httpStatus == reply.status && r.transformed == reply.transformed && r.contentRange == reply.range
    && r.contentRangeMatches == ValidContentRange(l, kept, reply.range) && r.satisfied == (a.received == l.length)
    && (code.Ok? ==> reply.code.Ok?)
    && (code.Ok? && reply.chunks != [] ==> Judge(l, pin, limit, kept, reply).Stream?)
    && a.resumed <= a.received && Succeeded(r, a.resumed, a.received, code)
  }

  /** The transfer is full, or stops where the object does. */
  predicate Truthful(l: Layout, received: nat, content: seq<byte>)
  {
    received == l.length || EndsAt(l, received, content)
  }

  /** Can a completion by such a reply be believed? It cannot when no byte reached the status check:
      an empty 200 while bytes are kept, or an empty reply with any other status than 200 and 206,
      unless the object has no room to reach past the request's first byte. */
  predicate TellsEnd(l: Layout, status: int, empty: bool, kept: u64)
  {
    if status == 206 || !empty then true
    else if status == 200 then kept == 0
    else kept == 0 && l.offset == MAX64
  }

  /** When a completion that stops short tells the truth about the object's end: for 200 and 206,
      exactly if it is not an empty 200 to a resumed request; for any other status, of which no body
      is ever read, exactly if the object happens to end behind the kept bytes. */
  lemma ShortSuccessIsTruthful(l: Layout, pin: string, limit: u64, kept: u64, before: seq<seq<byte>>,
                               reply: Reply, r: ResponseState, code: CurlCode)
    requires ValidLayout(l) && kept < l.length && Fits(l, before) && Honest(reply)
    requires CompletedBy(l, pin, limit, kept, before, reply, r, code)
    ensures
      var a := ArrivalOf(l, pin, limit, kept, before, reply);
      && (Truthful(l, a.received, reply.version.content) <==>
          if reply.status in {200, 206} then !(reply.status == 200 && reply.chunks == [] && kept > 0)
          else EndsAt(l, kept, reply.version.content))
      && (reply.status !in {200, 206} ==> reply.chunks == [] && a.received == kept)
      && (a.received < l.length ==> code.Ok? && (reply.status == 206 ==> reply.chunks != []))
  {
    var a := ArrivalOf(l, pin, limit, kept, before, reply);
    if a.received < l.length {
      if reply.status == 206 {
        if reply.chunks != [] {
          assert a.resumed == kept;
        }
        SuccessOn206(l, kept, reply, r, a.received, code);
      } else if reply.chunks != [] {
        assert Judge(l, pin, limit, kept, reply) == Stream(0, l.offset);
        assert reply.Body() == reply.version.content;
      }
    }
  }

  /** The status, whether a body came and how much was kept decide whether every completion of that
      kind is truthful, whatever the object is. */
  lemma TruthfulExactlyWhenTold(l: Layout, pin: string, limit: u64, kept: u64, before: seq<seq<byte>>, status: int,
                                empty: bool)
    requires ValidLayout(l) && kept < l.length && Fits(l, before) && 200 <= status < 300
    ensures
      TellsEnd(l, status, empty, kept) <==>
      forall reply: Reply, r: ResponseState, code: CurlCode
        | reply.status == status && (reply.chunks == []) == empty && Honest(reply) && HonoursPin(reply, pin)
          && CompletedBy(l, pin, limit, kept, before, reply, r, code) ::
        Truthful(l, ArrivalOf(l, pin, limit, kept, before, reply).received, reply.version.content)
  {
    hide CompletedBy, Honest, HonoursPin, Truthful;
    if TellsEnd(l, status, empty, kept) {
      forall reply: Reply, r: ResponseState, code: CurlCode
        | reply.status == status && (reply.chunks == []) == empty && Honest(reply)
          && CompletedBy(l, pin, limit, kept, before, reply, r, code)
        ensures Truthful(l, ArrivalOf(l, pin, limit, kept, before, reply).received, reply.version.content)
      {
        ShortSuccessIsTruthful(l, pin, limit, kept, before, reply, r, code);
        ToldIsTrue(l, kept, reply);
      }
    } else {
      var reply, r := Misleading(l, status, kept), MisleadingResponse(l, status, kept);
      MisleadingCompletes(l, pin, limit, kept, before, status);
    }
  }

  lemma ToldIsTrue(l: Layout, kept: u64, reply: Reply)
    requires ValidLayout(l) && Honest(reply) && TellsEnd(l, reply.status, reply.chunks == [], kept)
    requires reply.status !in {200, 206} ==> reply.chunks == []
    ensures reply.status !in {200, 206} ==> EndsAt(l, kept, reply.version.content)
  {}

  /** An empty reply to a request that keeps `kept` bytes, about an object that is empty now, or one
      byte longer than the transfer's start when nothing is kept. */
  function Misleading(l: Layout, status: int, kept: u64): Reply
  {
    var content := if kept > 0 then [] else seq(l.offset + 1, i => 0 as byte);
    Reply(Version("\"b\"", content), status, "\"b\"", Missing, -1, false, [], CurlCode.Ok)
  }

  function MisleadingResponse(l: Layout, status: int, kept: u64): ResponseState
  {
    NO_RESPONSE.(httpStatus := status, etag := "\"b\"")
  }

  lemma MisleadingCompletes(l: Layout, pin: string, limit: u64, kept: u64, before: seq<seq<byte>>, status: int)
    requires ValidLayout(l) && kept < l.length && Fits(l, before) && 200 <= status < 300
    requires !TellsEnd(l, status, true, kept)
    ensures
      var reply := Misleading(l, status, kept);
      && Honest(reply) && HonoursPin(reply, pin) && reply.chunks == []
      && CompletedBy(l, pin, limit, kept, before, reply, MisleadingResponse(l, status, kept), CurlCode.Ok)
      && !Truthful(l, ArrivalOf(l, pin, limit, kept, before, reply).received, reply.version.content)
  {
    var reply := Misleading(l, status, kept);
    assert IsStrongEtag("\"b\"") && reply.ReportedEtag() == "\"b\"";
  }

  /** A body that is accepted completes the transfer exactly when it ends well, or has brought all
      that was asked for, and a 206 has brought its whole Content-Range. */
  lemma SuccessIsComplete(l: Layout, pin: string, limit: u64, kept: u64, before: seq<seq<byte>>,
                          reply: Reply, r: ResponseState, code: CurlCode)
    requires ValidLayout(l) && kept < l.length && Fits(l, before) && Honest(reply)
    requires reply.status in {200, 206} && r.httpStatus == reply.status && r.transformed == reply.transformed
    requires r.contentRange == reply.range && r.contentRangeMatches == ValidContentRange(l, kept, reply.range)
    requires Judge(l, pin, limit, kept, reply).Stream?
    requires r.satisfied
             == (Arrive(l, Judge(l, pin, limit, kept, reply), kept, before, reply.Body()).received == l.length)
    ensures
      var a := Arrive(l, Judge(l, pin, limit, kept, reply), kept, before, reply.Body());
      Succeeded(r, a.resumed, a.received, code) <==>
        && (code.Ok? || a.received == l.length)
        && (reply.status == 206 ==> |reply.Body()| == reply.range.last - reply.range.first + 1)
  {
    hide PatchAll, IsStrongEtag;
  }

  /** All bytes of the transfer that an object has. */
  function Existing(l: Layout, content: seq<byte>): int { Max(0, Min(l.length, |content| - l.offset)) }

  /** Do the headers of the reply to a request that starts at byte `first` offer what the transfer still
      lacks? It is readable and of no other version than the pinned one. A 206 names exactly the bytes still
      wanted that exist, and one without a size does not end early; a 200 is the whole object, of which no
      more than `limit` bytes precede the transfer. */
  predicate Offered(l: Layout, limit: u64, pin: string, first: int, reply: Reply)
  {
    var content, end := reply.version.content, l.offset + l.length;
    && !reply.transformed && !(IsStrongEtag(pin) && reply.ReportedEtag() != "" && reply.ReportedEtag() != pin)
    && match reply.status
       case 200 => l.offset <= limit
       case 206 =>
         && reply.range.Satisfied? && reply.range.first == first && reply.range.last + 1 == Min(end, |content|)
         && (reply.range.total.Some? || reply.range.last + 1 == end)
       case _ => false
  }

  /** And does its body hold all of it? */
  predicate Fulfils(l: Layout, limit: u64, pin: string, first: int, reply: Reply)
  {
    var size, end := |reply.Body()|, l.offset + l.length;
    && Offered(l, limit, pin, first, reply)
    && if reply.status == 200 then
         && (reply.code.Ok? || size >= end) && (reply.chunks == [] ==> first == l.offset && reply.code.Ok?)
       else
         && reply.chunks != [] && size == reply.range.last + 1 - first
         && (reply.code.Ok? || reply.range.last + 1 == end)
  }

  /** What a transfer holds after the response: of an offered body, its bytes behind those it kept, or, if it
      is of the whole object, all of its bytes that belong to the transfer; after an error what it kept. */
  predicate Arrived(l: Layout, limit: u64, pin: string, first: int, reply: Reply, resumed: int, received: int)
  {
    && (Offered(l, limit, pin, first, reply) && reply.status == 206 ==>
          resumed == first - l.offset && received == resumed + |reply.Body()|)
    && (Offered(l, limit, pin, first, reply) && reply.status == 200 && reply.chunks != [] ==>
          resumed == 0 && received == Max(0, Min(l.length, |reply.Body()| - l.offset)))
    && (reply.status >= 300 ==> resumed == received == first - l.offset)
  }

  lemma OfferedHasArrived(l: Layout, pin: string, limit: u64, kept: u64, before: seq<seq<byte>>, reply: Reply)
    requires ValidLayout(l) && kept < l.length && Fits(l, before) && Honest(reply)
    ensures
      var a := ArrivalOf(l, pin, limit, kept, before, reply);
      Arrived(l, limit, pin, l.offset + kept, reply, a.resumed, a.received)
  {
    hide PatchAll, IsStrongEtag;
  }

  /** A reply that fulfils the request completes the transfer with all of it that exists, and no other
      200 or 206 with a body does. */
  lemma FulfilledExactly(l: Layout, pin: string, limit: u64, kept: u64, before: seq<seq<byte>>,
                         reply: Reply, r: ResponseState, code: CurlCode)
    requires ValidLayout(l) && kept < l.length && Fits(l, before) && Honest(reply) && reply.status in {200, 206}
    requires r.httpStatus == reply.status && r.transformed == reply.transformed && r.contentRange == reply.range
    requires r.contentRangeMatches == ValidContentRange(l, kept, reply.range)
    requires r.satisfied == (ArrivalOf(l, pin, limit, kept, before, reply).received == l.length)
    requires code == reply.code || (code == WriteError && reply.chunks != [])
    requires code != reply.code ==> r.satisfied || !Judge(l, pin, limit, kept, reply).Stream?
    ensures
      var a := ArrivalOf(l, pin, limit, kept, before, reply);
      && (Fulfils(l, limit, pin, l.offset + kept, reply) ==>
            Succeeded(r, a.resumed, a.received, code) && a.received == Existing(l, reply.version.content))
      && (reply.chunks != [] && Succeeded(r, a.resumed, a.received, code) && (code.Ok? ==> reply.code.Ok?)
          && (code.Ok? ==> Judge(l, pin, limit, kept, reply).Stream?) ==>
            Fulfils(l, limit, pin, l.offset + kept, reply))
  {
    if reply.chunks != [] && Judge(l, pin, limit, kept, reply).Stream? {
      SuccessIsComplete(l, pin, limit, kept, before, reply, r, code);
    }
  }

  /** Both kinds happen. Five bytes of version "a" are kept, the object is replaced by an empty one,
      and its empty 200 completes the transfer although it names another tag than the pin. */
  lemma EmptyReplyEndsResumedTransfer()
    ensures
      var l := Layout(0, 10, []);
      var reply := Reply(Version("\"b\"", []), 200, "\"b\"", Missing, 0, false, [], CurlCode.Ok);
      var r := NO_RESPONSE.(httpStatus := 200, etag := "\"b\"");
      && ValidLayout(l) && Honest(reply) && HonoursPin(reply, "\"a\"")
      && CompletedBy(l, "\"a\"", 0, 5, [], reply, r, CurlCode.Ok) && !Truthful(l, 5, reply.version.content)
  {
    var reply := Reply(Version("\"b\"", []), 200, "\"b\"", Missing, 0, false, [], CurlCode.Ok);
    assert IsStrongEtag("\"a\"") && IsStrongEtag("\"b\"");
    assert reply.ReportedEtag()[1] != "\"a\""[1];
  }

  /** And an empty 204 completes a fresh transfer of an object that has all ten bytes. */
  lemma NoContentEndsFreshTransfer()
    ensures
      var l := Layout(0, 10, []);
      var reply := Reply(Version("", seq(10, i => 1 as byte)), 204, "", Missing, 0, false, [], CurlCode.Ok);
      var r := NO_RESPONSE.(httpStatus := 204);
      && ValidLayout(l) && Honest(reply) && HonoursPin(reply, "")
      && CompletedBy(l, "", 0, 0, [], reply, r, CurlCode.Ok) && !Truthful(l, 0, reply.version.content)
  {
    var reply := Reply(Version("", seq(10, i => 1 as byte)), 204, "", Missing, 0, false, [], CurlCode.Ok);
    assert reply.ReportedEtag() == "";
  }
}
