/**
  The origin server as the client sees it: object versions, replies, and what a reply is
  assumed to be truthful about. Nothing else is assumed: a reply may have any status, be cut at
  any byte, be delivered in any chunks and fail with any transport result.
*/
module Origin {
  import opened Numbers

  newtype byte = x: int | 0 <= x < 256

  /** One representation of the object. `etag` is its strong tag, or "" when it has none. */
  datatype Version = Version(etag: string, content: seq<byte>)

  datatype CurlCode =
    | Ok | WriteError | OperationTimedout | CouldntConnect | CouldntResolveHost | GotNothing
    | SendError | RecvError | PartialFile | SslConnectError | Http2 | Http2Stream | OtherError

  /** A parsed Content-Range header: `bytes F-L/T`, `bytes F-L/*` or `bytes */T`. */
  datatype ContentRange =
    | Missing
    | Malformed
    | Satisfied(first: u64, last: u64, total: Option<u64>)
    | Unsatisfied(size: u64)

  /** The final response of one attempt. `etag` is the raw ETag value ("" when absent),
      `contentLength` is -1 when unknown, `chunks` are the pieces of the body that reach the
      client if it accepts them all, and `code` is the transport result in that case. `version`
      records which version the server answered from. */
  datatype Reply = Reply(version: Version, status: int, etag: string, range: ContentRange,
                         contentLength: int, transformed: bool, chunks: seq<seq<byte>>,
                         code: CurlCode)
  {
    function Body(): seq<byte> { Flatten(chunks) }

    predicate Successful() { 200 <= status < 300 }

    /** The tag the client stores: a strong tag of at most 255 characters, else "". */
    function ReportedEtag(): string
    {
      if |etag| <= 255 && IsStrongEtag(etag) then etag else ""
    }
  }

  predicate IsStrongEtag(value: string)
  {
    && |value| >= 2 && value[0] == '"' && value[|value| - 1] == '"'
    && forall i | 1 <= i < |value| - 1 ::
         value[i] as int >= 0x21 && value[i] != '"' && value[i] as int != 0x7f
  }

  /** What the Content-Range parser guarantees of an accepted value. */
  predicate WellParsed(range: ContentRange)
  {
    range.Satisfied? ==>
      && range.first <= range.last
      && (range.total.Some? ==> range.last < range.total.value)
  }

  /** The environment assumption on one reply (RFC 9110, sections 8.8.3, 14.4 and 15.3.7). */
  predicate Honest(reply: Reply)
  {
    var content := reply.version.content;
    && |content| <= MAX64
    && reply.contentLength >= -1
    && WellParsed(reply.range)
    && (reply.ReportedEtag() != "" ==> reply.ReportedEtag() == reply.version.etag)
    && (reply.status < 300 && reply.status != 200 && reply.status != 206 ==> reply.chunks == [])
    && (reply.status == 200 && !reply.transformed ==>
          && reply.Body() <= content
          && reply.contentLength in {-1, |content|}
          && (reply.code.Ok? ==> reply.Body() == content))
    && (reply.status == 206 && !reply.transformed && reply.range.Satisfied? ==>
          && reply.range.last < |content|
          && (reply.range.total.Some? ==> reply.range.total.value == |content|)
          && reply.Body() <= content[reply.range.first..reply.range.last + 1])
    && (reply.status == 416 && reply.range.Unsatisfied? ==> reply.range.size == |content|)
  }

  /** A successful reply to a request pinned by one strong tag (RFC 9110, section 13.1.1) is
      either of that version or betrays itself by another strong tag. */
  predicate HonoursPin(reply: Reply, pin: string)
  {
    IsStrongEtag(pin) && reply.Successful() ==>
      reply.version.etag == pin || reply.ReportedEtag() !in {"", pin}
  }

  /** Strong validators identify content (RFC 9110, section 8.8.1). */
  predicate Coherent(versions: set<Version>)
  {
    forall v, w | v in versions && w in versions && v.etag == w.etag && v.etag != "" ::
      v.content == w.content
  }
}
