/**
  What one response body means for the destinations of a transfer, as functions of the whole
  body: which prefix of the requested range is present afterwards, and what every destination
  buffer then holds.
*/
module Scatter {
  import opened Numbers
  import opened Origin

  /** A requested part inside a transfer: `relative` is its distance from the transfer's start. */
  datatype Span = Span(relative: u64, length: u64)

  datatype Layout = Layout(offset: u64, length: u64, spans: seq<Span>)

  /** The planner's promise: spans sorted by start, inside the transfer; they may overlap,
      repeat and leave gaps. The absolute range fits in 64 bits. */
  predicate ValidLayout(l: Layout)
  {
    && l.length >= 1 && l.offset + l.length - 1 <= MAX64
    && (forall i | 0 <= i < |l.spans| ::
          l.spans[i].length >= 1 && l.spans[i].relative + l.spans[i].length <= l.length)
    && (forall i, j | 0 <= i < j < |l.spans| :: l.spans[i].relative <= l.spans[j].relative)
  }

  /** One destination per span, of exactly the span's length. */
  predicate Fits(l: Layout, buffers: seq<seq<byte>>)
  {
    && |buffers| == |l.spans|
    && forall i | 0 <= i < |buffers| :: |buffers[i]| == l.spans[i].length
  }

  /** `buffer` after the bytes `data`, which start `at` bytes into the transfer, are copied into
      the part of it they cover. */
  function Patch(span: Span, buffer: seq<byte>, at: nat, data: seq<byte>): (r: seq<byte>)
    ensures |r| == |buffer|
  {
    seq(|buffer|, k requires 0 <= k < |buffer| =>
      if at <= span.relative + k < at + |data| then data[span.relative + k - at] else buffer[k])
  }

  /** A chunk that ends before a part or starts after it leaves it alone. */
  lemma PatchMisses(span: Span, buffer: seq<byte>, at: nat, data: seq<byte>)
    requires |buffer| <= span.length
    requires span.relative + span.length <= at || at + |data| <= span.relative
    ensures Patch(span, buffer, at, data) == buffer
  {
    assert forall k | 0 <= k < |buffer| :: Patch(span, buffer, at, data)[k] == buffer[k];
  }

  function PatchAll(l: Layout, buffers: seq<seq<byte>>, at: nat, data: seq<byte>): (r: seq<seq<byte>>)
    requires Fits(l, buffers)
    ensures Fits(l, r)
  {
    seq(|buffers|, i requires 0 <= i < |buffers| => Patch(l.spans[i], buffers[i], at, data))
  }

  /** Scattering two adjacent chunks is scattering their concatenation. */
  lemma PatchAllAppend(l: Layout, buffers: seq<seq<byte>>, at: nat, first: seq<byte>, second: seq<byte>)
    requires Fits(l, buffers)
    ensures PatchAll(l, PatchAll(l, buffers, at, first), at + |first|, second)
         == PatchAll(l, buffers, at, first + second)
  {
    forall i | 0 <= i < |buffers|
      ensures Patch(l.spans[i], Patch(l.spans[i], buffers[i], at, first), at + |first|, second)
           == Patch(l.spans[i], buffers[i], at, first + second)
    {
      var once := Patch(l.spans[i], buffers[i], at, first + second);
      var twice := Patch(l.spans[i], Patch(l.spans[i], buffers[i], at, first), at + |first|, second);
      assert forall k | 0 <= k < |buffers[i]| :: twice[k] == once[k];
    }
  }

  lemma PatchAllNothing(l: Layout, buffers: seq<seq<byte>>, at: nat)
    requires Fits(l, buffers)
    ensures PatchAll(l, buffers, at, []) == buffers
  {
    forall i | 0 <= i < |buffers| ensures Patch(l.spans[i], buffers[i], at, []) == buffers[i] {}
  }

  /** The bytes of `body` that are kept: those after the skipped prefix, up to the transfer's end. */
  function Landed(l: Layout, base: nat, skip: nat, body: seq<byte>): (r: seq<byte>)
    requires base <= l.length
    ensures base + |r| <= l.length
  {
    Take(Drop(body, skip), l.length - base)
  }

  /** What the next chunk adds to the kept bytes. */
  lemma LandedAppend(l: Layout, base: nat, skip: nat, body: seq<byte>, chunk: seq<byte>)
    requires base <= l.length
    ensures
      var before := Landed(l, base, skip, body);
      var rest := Drop(chunk, Max(0, skip - |body|));
      Landed(l, base, skip, body + chunk) == before + Take(rest, l.length - base - |before|)
  {
    if |body| <= skip {
      assert Drop(body, skip) == [];
      assert Drop(body + chunk, skip) == Drop(chunk, skip - |body|);
    } else {
      assert Drop(body + chunk, skip) == Drop(body, skip) + chunk;
    }
  }

  /** Once every requested byte has landed, later bytes change nothing. */
  lemma LandedFull(l: Layout, base: nat, skip: nat, prefix: seq<byte>, body: seq<byte>)
    requires base <= l.length && prefix <= body
    requires base + |Landed(l, base, skip, prefix)| == l.length
    ensures Landed(l, base, skip, body) == Landed(l, base, skip, prefix)
  {
    if skip <= |prefix| {
      assert prefix[skip..] <= body[skip..];
    }
  }

  /** Every destination byte within the first `n` bytes of the transfer is that byte of `content`. */
  predicate Holds(l: Layout, buffers: seq<seq<byte>>, n: nat, content: seq<byte>)
    requires Fits(l, buffers)
  {
    forall i, k | 0 <= i < |buffers| && 0 <= k < |buffers[i]| && l.spans[i].relative + k < n ::
      ByteIs(content, l.offset + l.spans[i].relative + k, buffers[i][k])
  }

  predicate ByteIs(content: seq<byte>, position: nat, value: byte)
  {
    position < |content| && value == content[position]
  }

  /** Scattering the next bytes of the same content extends the correct prefix. */
  lemma HoldsPatch(l: Layout, buffers: seq<seq<byte>>, n: nat, data: seq<byte>, content: seq<byte>)
    requires Fits(l, buffers) && Holds(l, buffers, n, content)
    requires l.offset + n + |data| <= |content|
    requires forall k | 0 <= k < |data| :: data[k] == content[l.offset + n + k]
    ensures Holds(l, PatchAll(l, buffers, n, data), n + |data|, content)
  {
    var after := PatchAll(l, buffers, n, data);
    forall i, k | 0 <= i < |after| && 0 <= k < |after[i]| && l.spans[i].relative + k < n + |data|
      ensures ByteIs(content, l.offset + l.spans[i].relative + k, after[i][k])
    {
      if l.spans[i].relative + k < n {
        assert after[i][k] == buffers[i][k];
        assert ByteIs(content, l.offset + l.spans[i].relative + k, buffers[i][k]);
      } else {
        assert after[i][k] == data[l.spans[i].relative + k - n];
      }
    }
  }

  lemma HoldsLess(l: Layout, buffers: seq<seq<byte>>, n: nat, m: nat, content: seq<byte>)
    requires Fits(l, buffers) && Holds(l, buffers, n, content) && m <= n
    ensures Holds(l, buffers, m, content)
  {}

  // ------------------------------------------------------------------ acceptance of a body

  /** May the body of a 206 be stored? It must start where the request did and stop at the end
      of the request or of the object (src/runtime/transport.cpp:181-192). */
  predicate ValidContentRange(l: Layout, resumed: u64, range: ContentRange)
    requires ValidLayout(l) && resumed < l.length
  {
    && range.Satisfied?
    && range.first == l.offset + resumed
    && range.last <= l.offset + l.length - 1
    && (range.last == l.offset + l.length - 1 ||
        (range.total.Some? && range.last + 1 == range.total.value))
  }

  /** Byte `k` is still wanted of an object of that size, if it is known. */
  predicate Wanted(l: Layout, resumed: u64, total: Option<u64>, k: int)
  {
    l.offset + resumed <= k < l.offset + l.length && (total.Some? ==> k < total.value)
  }

  /** A Content-Range is accepted exactly when it covers the bytes still wanted that exist, and no
      others; one without a size must cover all that are wanted. */
  lemma ContentRangeIsExact(l: Layout, resumed: u64, first: u64, last: u64, total: Option<u64>)
    requires ValidLayout(l) && resumed < l.length && WellParsed(Satisfied(first, last, total))
    ensures ValidContentRange(l, resumed, Satisfied(first, last, total))
       <==> forall k | 0 <= k :: (first <= k <= last) == Wanted(l, resumed, total, k)
  {
    if forall k | 0 <= k :: (first <= k <= last) == Wanted(l, resumed, total, k) {
      assert Wanted(l, resumed, total, first);
      assert Wanted(l, resumed, total, last) && !Wanted(l, resumed, total, last + 1);
      assert first > 0 ==> !Wanted(l, resumed, total, first - 1);
    }
  }

  predicate ContradictsPin(reply: Reply, pin: string)
  {
    IsStrongEtag(pin) && reply.ReportedEtag() != "" && reply.ReportedEtag() != pin
  }

  /** The decision taken when the first byte of a body arrives. `Stream` keeps `base` bytes from
      earlier attempts and drops the first `skip` bytes of the body. */
  datatype Verdict = Abort | VersionChanged | FallbackRejected | ErrorBody | Stream(base: u64, skip: u64)

  function Judge(l: Layout, pin: string, fallbackLimit: u64, resumed: u64, reply: Reply): (v: Verdict)
    requires ValidLayout(l) && resumed < l.length
    ensures v.Stream? ==> v.base < l.length && reply.status < 300
    ensures v.ErrorBody? ==> reply.status >= 300
  {
    if reply.Successful() && reply.transformed then Abort
    else if reply.Successful() && ContradictsPin(reply, pin) then VersionChanged
    else if reply.status == 206 && !ValidContentRange(l, resumed, reply.range) then Abort
    else if reply.status == 200 && l.offset > fallbackLimit then FallbackRejected
    else if reply.status >= 300 then ErrorBody
    else if reply.status == 200 then Stream(0, l.offset)
    else Stream(resumed, 0)
  }

  /** What a transfer has after (part of) a body: the bytes kept from earlier attempts, the bytes
      present in all, and the destinations. */
  datatype Arrival = Arrival(resumed: u64, received: u64, buffers: seq<seq<byte>>)

  function Arrive(l: Layout, verdict: Verdict, resumed: u64, buffers: seq<seq<byte>>, body: seq<byte>): (a: Arrival)
    requires ValidLayout(l) && resumed < l.length && Fits(l, buffers)
    requires verdict.Stream? ==> verdict.base < l.length
    ensures Fits(l, a.buffers)
  {
    match verdict
    case Stream(base, skip) =>
      var landed := Landed(l, base, skip, body);
      Arrival(base, base + |landed|, PatchAll(l, buffers, base, landed))
    case FallbackRejected => Arrival(0, 0, buffers)
    case _ => Arrival(resumed, resumed, buffers)
  }

  /** Receiving one more chunk of a body is having received the longer body. */
  lemma ArriveAppend(l: Layout, base: u64, skip: u64, kept: u64, before: seq<seq<byte>>,
                     body: seq<byte>, chunk: seq<byte>)
    requires ValidLayout(l) && kept < l.length && base < l.length && Fits(l, before)
    ensures
      var a := Arrive(l, Stream(base, skip), kept, before, body);
      var next := Take(Drop(chunk, Max(0, skip - |body|)), l.length - a.received);
      Arrive(l, Stream(base, skip), kept, before, body + chunk)
        == Arrival(base, a.received + |next|, PatchAll(l, a.buffers, a.received, next))
  {
    LandedAppend(l, base, skip, body, chunk);
    var landed := Landed(l, base, skip, body);
    var next := Take(Drop(chunk, Max(0, skip - |body|)), l.length - base - |landed|);
    PatchAllAppend(l, before, base, landed, next);
  }

  lemma PatchAllAt(l: Layout, buffers: seq<seq<byte>>, at: nat, data: seq<byte>, i: nat)
    requires Fits(l, buffers) && i < |buffers|
    ensures PatchAll(l, buffers, at, data)[i] == Patch(l.spans[i], buffers[i], at, data)
  {}

  /** A chunk leaves alone the parts that end before it. */
  lemma PatchAllMissesBefore(l: Layout, buffers: seq<seq<byte>>, at: nat, data: seq<byte>, count: nat)
    requires Fits(l, buffers) && count <= |buffers|
    requires forall j | 0 <= j < count :: l.spans[j].relative + l.spans[j].length <= at
    ensures forall j | 0 <= j < count :: PatchAll(l, buffers, at, data)[j] == buffers[j]
  {
    forall j | 0 <= j < count ensures PatchAll(l, buffers, at, data)[j] == buffers[j] {
      PatchMisses(l.spans[j], buffers[j], at, data);
    }
  }

  /** Once a part starts after the chunk, so do all later ones. */
  lemma PatchAllMissesAfter(l: Layout, buffers: seq<seq<byte>>, at: nat, data: seq<byte>, index: nat)
    requires ValidLayout(l) && Fits(l, buffers)
    requires index < |buffers| ==> at + |data| <= l.spans[index].relative
    ensures forall j | index <= j < |buffers| :: PatchAll(l, buffers, at, data)[j] == buffers[j]
  {
    forall j | index <= j < |buffers| ensures PatchAll(l, buffers, at, data)[j] == buffers[j] {
      assert l.spans[index].relative <= l.spans[j].relative;
      PatchMisses(l.spans[j], buffers[j], at, data);
    }
  }
}
