/**
  Downloading a whole object into a file (src/download.cpp:74-210): a probe for the size and the
  first bytes, then chunks of one size over a window of slots, each slot one request at a time.
  "Content" means the bytes visible through the locator's window.
*/
module Downloads {
  import opened Numbers
  import opened Origin
  import T = Transfers

  // ------------------------------------------------------------------ tiling

  /** `probe` bytes are there already; the rest of `size` bytes is cut into chunks. */
  datatype Tiling = Tiling(size: u64, probe: u64, chunkSize: u64)
  {
    predicate Valid() { probe <= size && chunkSize >= 1 }

    function Chunks(): u64
      requires Valid()
    {
      if size - probe == 0 then 0 else 1 + (size - probe - 1) / chunkSize
    }

    /** Where chunk `c` starts; module members below show that it fits 64 bits. */
    function Start(c: nat): nat { probe + c * chunkSize }

    function Length(c: nat): u64
      requires Valid() && c < Chunks()
    {
      ChunkStarts(this, c);
      Min(chunkSize, size - Start(c))
    }

    /** The chunk that byte `k` belongs to. */
    function ChunkOf(k: nat): nat
      requires Valid() && probe <= k
    {
      (k - probe) / chunkSize
    }
  }

  /** Every chunk starts inside the object, so its offset and its length never wrap around. */
  lemma ChunkStarts(t: Tiling, c: nat)
    requires t.Valid() && c < t.Chunks()
    ensures t.probe <= t.Start(c) < t.size
  {
    var last := (t.size - t.probe - 1) / t.chunkSize;
    Multiply(c, last, t.chunkSize);
    assert last * t.chunkSize <= t.size - t.probe - 1;
  }

  lemma Multiply(a: nat, b: nat, k: nat)
    requires a <= b
    ensures a * k <= b * k
  {}

  /** The chunks tile the object: a byte lies in the range of exactly one of them. */
  lemma ChunksTile(t: Tiling, c: nat, k: nat)
    requires t.Valid() && c < t.Chunks()
    ensures t.Start(c) <= k < t.Start(c) + t.Length(c) <==> t.probe <= k < t.size && t.ChunkOf(k) == c
  {
    ChunkStarts(t, c);
    if t.probe <= k {
      QuotientIs(k - t.probe, t.chunkSize, c);
    }
  }

  lemma QuotientIs(n: nat, d: nat, q: nat)
    requires d >= 1
    ensures n / d == q <==> q * d <= n < q * d + d
  {
    var r := n / d;
    assert r * d <= n < r * d + d;
    assert (r + 1) * d == r * d + d && (q + 1) * d == q * d + d;
    if r < q {
      Multiply(r + 1, q, d);
    } else if q < r {
      Multiply(q + 1, r, d);
    }
  }

  lemma EveryByteHasChunk(t: Tiling, k: nat)
    requires t.Valid() && t.probe <= k < t.size
    ensures t.ChunkOf(k) < t.Chunks()
  {
    DivideMonotone(k - t.probe, t.size - t.probe - 1, t.chunkSize);
  }

  lemma DivideMonotone(a: nat, b: nat, k: nat)
    requires a <= b && k >= 1
    ensures a / k <= b / k
  {
    var p, q := a / k, b / k;
    assert p * k <= a && b < q * k + k && (q + 1) * k == q * k + k;
    if p > q {
      Multiply(q + 1, p, k);
    }
  }

  // ------------------------------------------------------------------ counting writes

  function Ones(writes: seq<nat>): nat
  {
    if writes == [] then 0 else writes[0] + Ones(writes[1..])
  }

  lemma {:induction false} OnesAppend(x: seq<nat>, y: seq<nat>)
    ensures Ones(x + y) == Ones(x) + Ones(y)
    decreases |x|
  {
    if x == [] {
      assert x + y == y;
    } else {
      OnesAppend(x[1..], y);
      assert (x + y)[1..] == x[1..] + y;
    }
  }

  lemma {:induction false} OnesOf(writes: seq<nat>, v: nat)
    requires forall k | 0 <= k < |writes| :: writes[k] == v
    ensures Ones(writes) == v * |writes|
    decreases |writes|
  {
    if writes != [] {
      OnesOf(writes[1..], v);
      assert v * |writes| == v + v * (|writes| - 1);
    }
  }

  /** One more write to each of `n` bytes from `from`. */
  function Written(writes: seq<nat>, from: nat, n: nat): (r: seq<nat>)
    requires from + n <= |writes|
    ensures |r| == |writes|
    ensures forall k | 0 <= k < |writes| :: r[k] == writes[k] + if from <= k < from + n then 1 else 0
  {
    seq(|writes|, k requires 0 <= k < |writes| => writes[k] + if from <= k < from + n then 1 else 0)
  }

  lemma OnesSplit(x: seq<nat>, a: nat, b: nat)
    requires a <= b <= |x|
    ensures Ones(x) == Ones(x[..a]) + Ones(x[a..b]) + Ones(x[b..])
  {
    assert x == x[..a] + x[a..] && x[a..] == x[a..b] + x[b..];
    OnesAppend(x[..a], x[a..]);
    OnesAppend(x[a..b], x[b..]);
  }

  lemma OnesRange(writes: seq<nat>, from: nat, n: nat, v: nat)
    requires from + n <= |writes| && forall k | from <= k < from + n :: writes[k] == v
    ensures Ones(writes[from..from + n]) == v * n
  {
    OnesOf(writes[from..from + n], v);
  }

  /** Sequences that agree outside a range. */
  lemma SameAround(x: seq<nat>, y: seq<nat>, from: nat, to: nat)
    requires |x| == |y| && from <= to <= |x| && forall k | 0 <= k < |x| && !(from <= k < to) :: x[k] == y[k]
    ensures x[..from] == y[..from] && x[to..] == y[to..]
  {}

  lemma WrittenOnes(writes: seq<nat>, from: nat, n: nat)
    requires from + n <= |writes| && forall k | from <= k < from + n :: writes[k] == 0
    ensures Ones(Written(writes, from, n)) == Ones(writes) + n
  {
    hide Ones, Written;
    var w := Written(writes, from, n);
    OnesRange(writes, from, n, 0);
    OnesRange(w, from, n, 1);
    SameAround(writes, w, from, from + n);
    OnesSplit(writes, from, from + n);
    OnesSplit(w, from, from + n);
  }

  // ------------------------------------------------------------------ slots

  /** A slot has a request out for `chunk` while it is live. */
  datatype Slot = Slot(chunk: nat, offset: u64, length: u64, live: bool)

  const EMPTY_SLOT: Slot := Slot(0, 0, 0, false)

  function Live(slots: seq<Slot>): nat
  {
    if slots == [] then 0 else (if slots[0].live then 1 else 0) + Live(slots[1..])
  }

  lemma {:induction false} LiveUpdate(slots: seq<Slot>, i: nat, to: Slot)
    requires i < |slots|
    ensures Live(slots[i := to]) + (if slots[i].live then 1 else 0) == Live(slots) + if to.live then 1 else 0
    decreases |slots|
  {
    if i > 0 {
      LiveUpdate(slots[1..], i - 1, to);
      assert slots[i := to][1..] == slots[1..][i - 1 := to];
    } else {
      assert slots[i := to][1..] == slots[1..];
    }
  }

  lemma {:induction false} LiveBounds(slots: seq<Slot>)
    ensures Live(slots) <= |slots|
    ensures Live(slots) == 0 <==> forall i | 0 <= i < |slots| :: !slots[i].live
    ensures Live(slots) == |slots| <==> forall i | 0 <= i < |slots| :: slots[i].live
    decreases |slots|
  {
    if slots != [] {
      LiveBounds(slots[1..]);
      assert forall i | 0 < i < |slots| :: slots[i] == slots[1..][i - 1];
      assert forall i | 0 <= i < |slots| - 1 :: slots[1..][i] == slots[i + 1];
    }
  }

  /** Starting anywhere, one turn around the slots comes to each of them. */
  lemma TurnReaches(cursor: nat, n: nat, i: nat) returns (step: nat)
    requires cursor < n && i < n
    ensures step < n && (cursor + step) % n == i
  {
    step := if i >= cursor then i - cursor else i + n - cursor;
    assert cursor + step == i || cursor + step == i + n;
  }

  // ------------------------------------------------------------------ the environment

  /** What `next` answers for the batch of a slot, and what the file, the progress callback and the
      next submission do about it. `version` is where the bytes came from. */
  datatype Poll =
    | TimedOut
    | Broken(status: T.Status)
    | Finished(status: T.Status, got: u64, ownTag: bool, version: Version,
               writeFails: bool, stopped: bool, statsFail: Option<T.Status>, submitFails: Option<T.Status>)

  /** The answer to the i-th poll, for a slot whose request is for these bytes. */
  type Batches = (nat, u64, u64) -> Poll

  /** What is true of a completed chunk: its bytes exist in one version, the pinned one when the
      request had a pin. ChunkReads.FetchChunk shows that a batch of one request keeps it. */
  predicate HonestPoll(poll: Poll, offset: u64, length: u64, etag: string, versions: set<Version>)
  {
    && (poll.Broken? ==> poll.status != T.KaruOk)
    && (poll.Finished? && poll.status == T.KaruOk && poll.got == length ==>
          && poll.version in versions && offset + length <= |poll.version.content|
          && (etag != "" ==> poll.version.etag == etag))
  }

  ghost predicate HonestBatches(batches: Batches, etag: string, versions: set<Version>)
  {
    forall i: nat, offset: u64, length: u64 {:trigger batches(i, offset, length)} ::
      HonestPoll(batches(i, offset, length), offset, length, etag, versions)
  }

  /** Does this answer let the download go on? `more` says that another chunk is to be submitted. */
  predicate GoesOn(poll: Poll, length: u64, more: bool)
  {
    poll.TimedOut? ||
    (&& poll.Finished? && poll.status == T.KaruOk && poll.ownTag && poll.got == length
     && !poll.writeFails && !poll.stopped && poll.statsFail.None? && (more ==> poll.submitFails.None?))
  }

  /** What the file and the progress callback do before the first chunk is submitted, and when the
      file is published. */
  datatype FileEvents = FileEvents(resizeFails: bool, probeFails: bool, stopped: bool, publishFails: bool)
  {
    /** Does the download end before a chunk is asked for? An empty probe is not written. */
    predicate EndsEarly(probeLength: u64) { resizeFails || (probeLength > 0 && (probeFails || stopped)) }
  }

  datatype Ending = Published | Stopped(status: T.Status) | Cancelled | Unfinished

  class Download {
    const tiling: Tiling
    const parallelism: u64
    const etag: string
    const file: array<byte>
    const buffers: seq<array<byte>>
    ghost const source: Version           // the version the probe read
    ghost const versions: set<Version>

    var slots: seq<Slot>
    var nextChunk: u64
    var active: nat
    var waitCursor: nat
    var downloaded: u64
    var polls: nat

    ghost var polled: nat                 // the chunk of the last poll
    ghost var done: set<nat>              // the chunks written
    ghost var writes: seq<nat>            // how often each byte of the file was written
    ghost var origins: seq<Version>       // where each written chunk came from

    ghost predicate Shaped()
      reads `slots
    {
      && tiling.Valid() && file.Length == tiling.size && parallelism >= 1
      && |slots| == |buffers| == Min(parallelism, tiling.Chunks())
      && (forall i | 0 <= i < |buffers| ::
          buffers[i] != file && buffers[i].Length >= Min(tiling.chunkSize, tiling.size - tiling.probe))
      && (forall i, j | 0 <= i < j < |buffers| :: buffers[i] != buffers[j])
    }

    /** The requests that are out are for different chunks, none of them written yet, and every
        chunk so far is out or written. */
    ghost predicate SlotsInv()
      requires tiling.Valid()
      reads `slots, `nextChunk, `done
    {
      && nextChunk <= tiling.Chunks()
      && (forall c | c in done :: c < nextChunk)
      && (forall i | 0 <= i < |slots| && slots[i].live :: Requested(slots[i], nextChunk) && slots[i].chunk !in done)
      && (forall i, j | 0 <= i < j < |slots| && slots[i].live && slots[j].live :: slots[i].chunk != slots[j].chunk)
      && (forall c | 0 <= c < nextChunk :: c in done || IsOut(slots, c))
    }

    ghost predicate Requested(slot: Slot, limit: nat)
      requires tiling.Valid() && limit <= tiling.Chunks()
    {
      slot.chunk < limit && slot.offset == tiling.Start(slot.chunk) && slot.length == tiling.Length(slot.chunk)
    }

    static ghost predicate IsOut(slots: seq<Slot>, c: nat)
    {
      exists i | 0 <= i < |slots| :: slots[i].live && slots[i].chunk == c
    }

    /** The last poll asked for a chunk that had been requested, and its answer does not let the
        download go on. */
    ghost predicate BrokenOff(batches: Batches)
      reads `polls, `polled, `nextChunk
    {
      && tiling.Valid() && polls > 0 && polled < nextChunk <= tiling.Chunks()
      && var length := tiling.Length(polled);
         !GoesOn(batches(polls - 1, tiling.Start(polled), length), length, nextChunk < tiling.Chunks())
    }

    /** The slots in use are counted, and all are in use while chunks are left. */
    ghost predicate CountsInv()
      requires tiling.Valid()
      reads `slots, `nextChunk, `active
    {
      active == Live(slots) && (nextChunk < tiling.Chunks() ==> active == |slots|)
    }

    ghost predicate IsWritten(k: nat)
      requires tiling.Valid()
      reads `done
    {
      k < tiling.probe || tiling.ChunkOf(k) in done
    }

    /** The version that byte `k` of the file was read from. */
    ghost function OriginOf(k: nat): Version
      requires tiling.Valid()
      reads `origins
    {
      if k < tiling.probe then source else if tiling.ChunkOf(k) < |origins| then origins[tiling.ChunkOf(k)] else source
    }

    /** Each byte was written once if its chunk is done and never otherwise, with the byte of the
        version its chunk came from. */
    ghost predicate FileInv()
      requires tiling.Valid() && file.Length == tiling.size
      reads `done, `writes, `origins, `downloaded, file
    {
      && |writes| == tiling.size && |origins| == tiling.Chunks()
      && (forall k | 0 <= k < tiling.size :: writes[k] == if IsWritten(k) then 1 else 0)
      && (forall k | 0 <= k < tiling.size && IsWritten(k) ::
            k < |OriginOf(k).content| && file[k] == OriginOf(k).content[k])
      && downloaded == Ones(writes)
      && source in versions
      && (forall c | c in done && c < |origins| :: origins[c] in versions && (etag != "" ==> origins[c].etag == etag))
    }

    ghost predicate Valid()
      reads this, file
    {
      && Shaped() && SlotsInv() && CountsInv() && FileInv()
      && (|slots| > 0 ==> waitCursor < |slots|)
    }

    /** The probe is in the file, and nothing has been requested. */
    constructor (tiling: Tiling, parallelism: u64, etag: string, file: array<byte>, buffers: seq<array<byte>>,
                 ghost source: Version, ghost versions: set<Version>)
      requires tiling.Valid() && file.Length == tiling.size && parallelism >= 1
      requires |buffers| == Min(parallelism, tiling.Chunks())
      requires forall i | 0 <= i < |buffers| ::
                 buffers[i] != file && buffers[i].Length >= Min(tiling.chunkSize, tiling.size - tiling.probe)
      requires forall i, j | 0 <= i < j < |buffers| :: buffers[i] != buffers[j]
      requires source in versions && tiling.probe <= |source.content|
      requires forall k | 0 <= k < tiling.probe :: file[k] == source.content[k]
      ensures Shaped() && SlotsInv() && FileInv()
      ensures this.tiling == tiling && this.parallelism == parallelism && this.etag == etag && this.file == file
      ensures this.buffers == buffers && this.source == source && this.versions == versions
      ensures nextChunk == 0 && active == 0 && waitCursor == 0 && polls == 0
      ensures forall i | 0 <= i < |slots| :: !slots[i].live
    {
      this.tiling, this.parallelism, this.etag, this.file, this.buffers := tiling, parallelism, etag, file, buffers;
      this.source, this.versions := source, versions;
      slots := seq(|buffers|, i => EMPTY_SLOT);
      nextChunk, active, waitCursor, polls, downloaded := 0, 0, 0, 0, tiling.probe;
      polled, done := 0, {};
      writes := seq(tiling.size, k => if k < tiling.probe then 1 else 0);
      origins := seq(tiling.Chunks(), c => source);
      new;
      FirstWrites(writes, tiling.probe);
    }

    /** Every slot gets one of the first chunks; then they are counted as active. */
    method SubmitFirst(failures: nat -> Option<T.Status>) returns (ending: Option<Ending>)
      requires Shaped() && SlotsInv() && FileInv() && nextChunk == 0 && active == 0 && waitCursor == 0
      requires forall i | 0 <= i < |slots| :: !slots[i].live
      modifies this
      ensures ending.None? ==> Valid() && polls == old(polls)
      ensures ending.Some? ==> exists i | 0 <= i < Min(parallelism, tiling.Chunks()) :: failures(i).Some?
      ensures ending != Some(Published)
    {
      hide FileInv, SlotsInv;
      for i := 0 to |slots|
        invariant Shaped() && SlotsInv() && FileInv() && nextChunk == i && |slots| == |old(slots)|
        invariant active == 0 && waitCursor == 0 && polls == old(polls)
        invariant forall j | 0 <= j < |slots| :: slots[j].live == (j < i)
      {
        var failure := failures(i);
        if failure.Some? { return Some(Stopped(failure.value)); }
        SubmitChunk(i);
      }
      LiveBounds(slots);
      active := |slots|;
      ending := None;
    }

    /** The request of a slot has completed: its bytes arrive in the slot's buffer and are written
        to the file. */
    method WriteChunk(index: nat, ghost v: Version)
      requires Shaped() && index < |slots| && slots[index].offset + slots[index].length <= tiling.size
      requires slots[index].length <= buffers[index].Length && slots[index].offset + slots[index].length <= |v.content|
      requires forall i | 0 <= i < slots[index].length :: buffers[index][i] == v.content[slots[index].offset + i]
      modifies file
      ensures forall k | 0 <= k < tiling.size ::
                file[k] == if slots[index].offset <= k < slots[index].offset + slots[index].length then v.content[k]
                           else old(file[k])
    {
      var slot, buffer := slots[index], buffers[index];
      forall i | 0 <= i < slot.length { file[slot.offset + i] := buffer[i]; }
      forall k | slot.offset <= k < slot.offset + slot.length ensures file[k] == v.content[k] {
        assert file[slot.offset + (k - slot.offset)] == buffer[k - slot.offset];
      }
    }

    /** What the transfer does meanwhile: it fills the first `length` bytes of the slot's buffer. */
    method ReceiveChunk(index: nat, v: Version)
      requires Shaped() && index < |slots| && slots[index].length <= buffers[index].Length
      requires slots[index].offset + slots[index].length <= |v.content|
      modifies buffers[index]
      ensures forall i | 0 <= i < slots[index].length :: buffers[index][i] == v.content[slots[index].offset + i]
    {
      var slot, buffer := slots[index], buffers[index];
      forall i | 0 <= i < slot.length { buffer[i] := v.content[slot.offset + i]; }
    }

    /** The chunk of a slot is in the file; the slot is free again. */
    method FinishChunk(index: nat, ghost v: Version)
      requires Shaped() && SlotsInv() && index < |slots| && slots[index].live
      requires |writes| == tiling.size && |origins| == tiling.Chunks() && downloaded == Ones(writes)
      requires forall k | 0 <= k < tiling.size :: writes[k] == if IsWritten(k) then 1 else 0
      modifies `slots, `downloaded, `done, `writes, `origins
      ensures Shaped() && SlotsInv() && slots == old(slots)[index := EMPTY_SLOT] && Live(slots) + 1 == Live(old(slots))
      ensures done == old(done) + {old(slots)[index].chunk} && origins == old(origins)[old(slots)[index].chunk := v]
      ensures |writes| == tiling.size && downloaded == Ones(writes)
      ensures forall k | 0 <= k < tiling.size :: writes[k] == if IsWritten(k) then 1 else 0
    {
      hide Ones, Live, IsOut, Written;
      var slot := slots[index];
      ghost var c := slot.chunk;
      ChunkStarts(tiling, c);
      forall k | 0 <= k < tiling.size
        ensures slot.offset <= k < slot.offset + slot.length <==> tiling.probe <= k && tiling.ChunkOf(k) == c
      {
        ChunksTile(tiling, c, k);
      }
      WrittenOnes(writes, slot.offset, slot.length);
      writes := Written(writes, slot.offset, slot.length);
      OnesBound(writes);
      downloaded := downloaded + slot.length;
      done, origins := done + {c}, origins[c := v];
      LiveUpdate(slots, index, EMPTY_SLOT);
      SlotIsFreed(slots, index, c, nextChunk);
      slots := slots[index := EMPTY_SLOT];
    }

    /** A completed request: receive, write, account. */
    method CompleteChunk(index: nat, v: Version)
      requires Shaped() && SlotsInv() && FileInv() && index < |slots| && slots[index].live
      requires v in versions && (etag != "" ==> v.etag == etag)
      requires slots[index].offset + slots[index].length <= |v.content|
      modifies file, buffers[index], `slots, `downloaded, `done, `writes, `origins
      ensures Shaped() && SlotsInv() && FileInv()
      ensures slots == old(slots)[index := EMPTY_SLOT] && Live(slots) + 1 == Live(old(slots))
    {
      hide SlotsInv, IsOut, Ones, Live, Written, Tiling.ChunkOf, Tiling.Chunks, Tiling.Start, Tiling.Length;
      ghost var slot, before := slots[index], file[..];
      ghost var c := slot.chunk;
      SlotFits(index);
      ReceiveChunk(index, v);
      WriteChunk(index, v);
      forall k | 0 <= k < tiling.size
        ensures tiling.probe <= k && tiling.ChunkOf(k) == c ==> k < |v.content|
        ensures file[k] == if tiling.probe <= k && tiling.ChunkOf(k) == c then v.content[k] else before[k]
      {
        ChunksTile(tiling, c, k);
      }
      FinishChunk(index, v);
      forall k | 0 <= k < tiling.size && IsWritten(k)
        ensures k < |OriginOf(k).content| && file[k] == OriginOf(k).content[k]
      {
        if tiling.probe <= k {
          EveryByteHasChunk(tiling, k);
        }
        if tiling.probe <= k && tiling.ChunkOf(k) == c {
          assert OriginOf(k) == v && file[k] == v.content[k];
        } else {
          assert old(IsWritten(k)) && OriginOf(k) == old(OriginOf(k)) && file[k] == before[k];
        }
      }
    }

    lemma SlotFits(index: nat)
      requires Shaped() && SlotsInv() && index < |slots| && slots[index].live
      ensures Requested(slots[index], tiling.Chunks())
      ensures slots[index].chunk < tiling.Chunks() && slots[index].chunk !in done
      ensures slots[index].offset == tiling.Start(slots[index].chunk)
      ensures slots[index].length == tiling.Length(slots[index].chunk)
      ensures slots[index].offset + slots[index].length <= tiling.size && slots[index].length <= buffers[index].Length
    {
      ChunkStarts(tiling, slots[index].chunk);
    }

    /** The next chunk goes out in a free slot. */
    method SubmitChunk(index: nat)
      requires Shaped() && SlotsInv() && index < |slots| && !slots[index].live && nextChunk < tiling.Chunks()
      modifies `slots, `nextChunk
      ensures Shaped() && SlotsInv() && nextChunk == old(nextChunk) + 1 && Live(slots) == Live(old(slots)) + 1
      ensures |slots| == |old(slots)| && slots == old(slots)[index := slots[index]] && slots[index].live
    {
      ChunkStarts(tiling, nextChunk);
      var offset: u64 := tiling.probe + nextChunk * tiling.chunkSize;
      var length: u64 := Min(tiling.chunkSize, tiling.size - offset);
      var slot := Slot(nextChunk, offset, length, true);
      LiveUpdate(slots, index, slot);
      SlotIsTaken(slots, index, slot, nextChunk);
      slots, nextChunk := slots[index := slot], nextChunk + 1;
    }

    static lemma SlotIsTaken(slots: seq<Slot>, index: nat, slot: Slot, limit: nat)
      requires index < |slots| && !slots[index].live && slot.live && slot.chunk == limit
      ensures IsOut(slots[index := slot], limit)
      ensures forall c | 0 <= c < limit && IsOut(slots, c) :: IsOut(slots[index := slot], c)
    {
      assert slots[index := slot][index] == slot;
      forall c | 0 <= c < limit && IsOut(slots, c) ensures IsOut(slots[index := slot], c) {
        var i :| 0 <= i < |slots| && slots[i].live && slots[i].chunk == c;
        assert slots[index := slot][i] == slots[i];
      }
    }

    /** What follows a successful `next`; an ending stops the download. */
    method HandleFinished(index: nat, poll: Poll) returns (ending: Option<Ending>)
      requires Valid() && index < |slots| && slots[index].live && poll.Finished?
      requires poll.status == T.KaruOk && poll.got == slots[index].length ==>
                 && poll.version in versions && slots[index].offset + slots[index].length <= |poll.version.content|
                 && (etag != "" ==> poll.version.etag == etag)
      modifies file, buffers[index], `slots, `nextChunk, `active, `waitCursor, `downloaded, `done, `writes, `origins
      ensures ending.None? ==> Valid() && |slots| == |old(slots)| && waitCursor == (index + 1) % |slots|
      ensures ending.Some? ==> nextChunk == old(nextChunk)
      ensures ending.None? <==> GoesOn(poll, old(slots[index].length), old(nextChunk) < tiling.Chunks())
      ensures ending != Some(Published) && ending != Some(Unfinished)
    {
      hide FileInv, SlotsInv;
      LiveBounds(slots);
      if poll.status != T.KaruOk { return Some(Stopped(poll.status)); }
      if !poll.ownTag || poll.got != slots[index].length { return Some(Stopped(T.ErrIo)); }
      if poll.writeFails { return Some(Stopped(T.ErrIo)); }
      CompleteChunk(index, poll.version);
      if poll.stopped { return Some(Cancelled); }
      if poll.statsFail.Some? { return Some(Stopped(poll.statsFail.value)); }
      if nextChunk < tiling.Chunks() {
        if poll.submitFails.Some? { return Some(Stopped(poll.submitFails.value)); }
        SubmitChunk(index);
      } else {
        active := active - 1;
      }
      waitCursor := (index + 1) % |slots|;
      ending := None;
    }

    /** Asks for the result of one slot. */
    method PollSlot(index: nat, batches: Batches, budget: nat) returns (ending: Option<Ending>, completed: bool)
      requires Valid() && polls <= budget && HonestBatches(batches, etag, versions) && index < |slots|
      requires slots[index].live
      modifies this, file, buffers[index]
      ensures ending != Some(Published)
      ensures ending.Some? ==> (ending == Some(Unfinished) && polls == budget) || BrokenOff(batches)
      ensures ending.None? ==> Valid() && polls == old(polls) + 1 && polls <= budget && |slots| == |old(slots)|
      ensures ending.None? && !completed ==>
                slots == old(slots) && waitCursor == old(waitCursor) && active == old(active)
    {
      hide FileInv, SlotsInv, HonestBatches;
      completed := false;
      if polls == budget { return Some(Unfinished), false; }
      var poll := batches(polls, slots[index].offset, slots[index].length);
      PollIsHonest(batches, polls, slots[index].offset, slots[index].length);
      RequestOf(index);
      polls, polled := polls + 1, slots[index].chunk;
      match poll {
        case TimedOut => ending := None;
        case Broken(status) => ending := Some(Stopped(status));
        case Finished(_, _, _, _, _, _, _, _) =>
          ending := HandleFinished(index, poll);
          completed := true;
      }
    }

    lemma RequestOf(index: nat)
      requires Shaped() && SlotsInv() && index < |slots| && slots[index].live
      ensures slots[index].chunk < nextChunk <= tiling.Chunks()
      ensures slots[index].offset == tiling.Start(slots[index].chunk)
      ensures slots[index].length == tiling.Length(slots[index].chunk)
    {}

    /** The slot that a pass looks at in its `step`-th turn. */
    static function TurnOf(cursor: nat, step: nat, n: nat): nat
      requires n > 0
    {
      (cursor + step) % n
    }

    /** One pass over the slots. The cursor moves inside the pass, so a pass that completes something
        may skip slots; a pass that completes nothing has polled every live one. */
    method Round(batches: Batches, budget: nat)
      returns (ending: Option<Ending>, completedOne: bool, ghost polled: set<nat>)
      requires Valid() && active > 0 && polls <= budget && HonestBatches(batches, etag, versions)
      modifies this, file, buffers
      ensures ending != Some(Published)
      ensures ending.Some? ==> (ending == Some(Unfinished) && polls == budget) || BrokenOff(batches)
      ensures ending.None? ==> Valid() && |slots| == |old(slots)| && old(polls) < polls <= budget
      ensures ending.None? && !completedOne ==> slots == old(slots) && waitCursor == (old(waitCursor) + 1) % |slots|
      ensures ending.None? && !completedOne ==> forall i | 0 <= i < |slots| && slots[i].live :: i in polled
    {
      hide FileInv, SlotsInv, CountsInv, HonestBatches, BrokenOff;
      ending, completedOne, polled := None, false, {};
      SomeSlotIsLive();
      for step := 0 to |slots|
        invariant ending == None && Valid() && |slots| == |old(slots)| && old(polls) <= polls <= budget
        invariant completedOne || polled != {} ==> old(polls) < polls
        invariant !completedOne ==> slots == old(slots) && waitCursor == old(waitCursor)
        invariant !completedOne ==>
                    forall s | 0 <= s < step :: slots[TurnOf(waitCursor, s, |slots|)].live ==>
                        TurnOf(waitCursor, s, |slots|) in polled
      {
        var index := TurnOf(waitCursor, step, |slots|);
        if slots[index].live {
          var completed;
          ending, completed := PollSlot(index, batches, budget);
          if ending.Some? { return; }
          completedOne, polled := completedOne || completed, polled + {index};
        }
      }
      if !completedOne {
        forall i | 0 <= i < |slots| && slots[i].live ensures i in polled {
          var s := TurnReaches(waitCursor, |slots|, i);
          assert TurnOf(waitCursor, s, |slots|) == i;
        }
        waitCursor := (waitCursor + 1) % |slots|;
      }
    }

    lemma SomeSlotIsLive()
      requires Valid() && active > 0
      ensures |slots| > 0 && exists i | 0 <= i < |slots| :: slots[i].live
    {
      LiveBounds(slots);
    }

    lemma PollIsHonest(batches: Batches, i: nat, offset: u64, length: u64)
      requires HonestBatches(batches, etag, versions)
      ensures HonestPoll(batches(i, offset, length), offset, length, etag, versions)
    {}

    static lemma SlotIsFreed(slots: seq<Slot>, index: nat, c: nat, limit: nat)
      requires index < |slots| && slots[index].chunk == c
      ensures forall other | 0 <= other < limit && other != c && IsOut(slots, other) ::
                IsOut(slots[index := EMPTY_SLOT], other)
    {
      forall other | 0 <= other < limit && other != c && IsOut(slots, other)
        ensures IsOut(slots[index := EMPTY_SLOT], other)
      {
        var i :| 0 <= i < |slots| && slots[i].live && slots[i].chunk == other;
        assert slots[index := EMPTY_SLOT][i] == slots[i];
      }
    }
  }

  lemma FirstWrites(writes: seq<nat>, n: nat)
    requires n <= |writes| && forall k | 0 <= k < |writes| :: writes[k] == if k < n then 1 else 0
    ensures Ones(writes) == n
  {
    OnesOf(writes[..n], 1);
    OnesOf(writes[n..], 0);
    OnesAppend(writes[..n], writes[n..]);
    assert writes == writes[..n] + writes[n..];
  }

  lemma {:induction false} OnesBound(writes: seq<nat>)
    requires forall k | 0 <= k < |writes| :: writes[k] <= 1
    ensures Ones(writes) <= |writes|
    decreases |writes|
  {
    if writes != [] {
      OnesBound(writes[1..]);
    }
  }

  // ------------------------------------------------------------------ the whole download

  const PROBE_SIZE: u64 := 0x10_0000

  /** The object does not change, or it changes its tag when it does and has one. */
  ghost predicate Stable(etag: string, source: Version, versions: set<Version>)
  {
    && Coherent(versions)
    && (etag == "" ==> forall v | v in versions :: v.content == source.content)
  }

  method AllocateBuffers(n: nat, capacity: nat) returns (buffers: seq<array<byte>>)
    ensures |buffers| == n && forall i | 0 <= i < n :: fresh(buffers[i]) && buffers[i].Length == capacity
    ensures forall i, j | 0 <= i < j < n :: buffers[i] != buffers[j]
  {
    buffers := [];
    for k := 0 to n
      invariant |buffers| == k && forall i | 0 <= i < k :: fresh(buffers[i]) && buffers[i].Length == capacity
      invariant forall i, j | 0 <= i < j < k :: buffers[i] != buffers[j]
    {
      var buffer := new byte[capacity];
      buffers := buffers + [buffer];
    }
  }

  /** What publishing means. */
  ghost predicate Assembled(d: Download)
    reads d, d.file
  {
    && d.Valid() && d.downloaded == d.tiling.size && d.active == 0
    && (forall k | 0 <= k < d.tiling.size :: d.writes[k] == 1)
    && (forall k | 0 <= k < d.tiling.size ::
          d.OriginOf(k) in d.versions && k < |d.OriginOf(k).content| && d.file[k] == d.OriginOf(k).content[k])
  }

  /** The requests that are out are counted by `active`, and never more than there are slots. */
  lemma OutstandingIsBounded(d: Download)
    requires d.Valid()
    ensures d.active == Live(d.slots) <= Min(d.parallelism, d.tiling.Chunks())
  {
    LiveBounds(d.slots);
  }

  /** With no request out, every chunk has been written, and so every byte, exactly once. */
  lemma FinishedIsAssembled(d: Download)
    requires d.Valid() && d.active == 0
    ensures Assembled(d)
  {
    hide Ones;
    LiveBounds(d.slots);
    assert d.nextChunk == d.tiling.Chunks();
    forall k | 0 <= k < d.tiling.size ensures d.IsWritten(k) && d.OriginOf(k) in d.versions {
      if k >= d.tiling.probe {
        EveryByteHasChunk(d.tiling, k);
        assert d.tiling.ChunkOf(k) in d.done || Download.IsOut(d.slots, d.tiling.ChunkOf(k));
      }
    }
    OnesOf(d.writes, 1);
  }

  /** The pieces are all of the object, so the file is. */
  lemma AssembledIsObject(d: Download)
    requires Assembled(d) && |d.source.content| == d.tiling.size && Stable(d.etag, d.source, d.versions)
    requires d.etag != "" ==> d.source.etag == d.etag
    ensures d.file[..] == d.source.content
  {
    forall k | 0 <= k < d.tiling.size ensures d.file[k] == d.source.content[k] {
      assert d.OriginOf(k).content == d.source.content by {
        if k >= d.tiling.probe {
          EveryByteHasChunk(d.tiling, k);
          assert d.writes[k] == 1 && d.IsWritten(k);
        }
      }
    }
  }

  /** Creates the file and the slots, and writes the probe. */
  method Prepare(size: u64, etag: string, probe: array<byte>, chunkSize: u64, parallelism: u64,
                 ghost source: Version, ghost versions: set<Version>)
    returns (d: Download)
    requires 1 <= chunkSize && 1 <= parallelism && probe.Length == Min(chunkSize, PROBE_SIZE)
    requires source in versions && |source.content| == size
    requires forall k | 0 <= k < Min(probe.Length, size) :: probe[k] == source.content[k]
    ensures fresh(d) && fresh(d.file) && (forall i | 0 <= i < |d.buffers| :: fresh(d.buffers[i]))
    ensures d.tiling == Tiling(size, Min(probe.Length, size), chunkSize) && d.tiling.Valid()
    ensures d.parallelism == parallelism
    ensures d.etag == etag && d.source == source && d.versions == versions
    ensures d.Shaped() && d.SlotsInv() && d.FileInv()
    ensures d.nextChunk == 0 && d.active == 0 && d.waitCursor == 0 && d.polls == 0
    ensures forall i | 0 <= i < |d.slots| :: !d.slots[i].live
  {
    hide Ones;
    var file := new byte[size];
    var probeLength: u64 := Min(probe.Length, size);
    forall k | 0 <= k < probeLength { file[k] := probe[k]; }
    var tiling := Tiling(size, probeLength, chunkSize);
    var remaining: u64 := size - probeLength;
    var buffers := AllocateBuffers(Min(parallelism, tiling.Chunks()), Min(chunkSize, remaining));
    d := new Download(tiling, parallelism, etag, file, buffers, source, versions);
  }

  /** Every ending but success is the environment's doing. */
  ghost predicate Excused(d: Download, ending: Ending, events: FileEvents, batches: Batches,
                          failures: nat -> Option<T.Status>, budget: nat)
    reads d, d.file
  {
    || (d.polls == 0 && d.nextChunk == 0 && events.EndsEarly(d.tiling.probe))
    || (events.publishFails && Assembled(d) && ending == Stopped(T.ErrIo))
    || (ending.Unfinished? && d.polls == budget)
    || (exists i | 0 <= i < |d.buffers| :: failures(i).Some?)
    || d.BrokenOff(batches)
  }

  /** `size`, `etag` and the probe's bytes are what ReadEnds.ReadEnds found. Publishes only the
      whole object, each byte written once, and does publish unless something failed; never has
      more requests out than slots. */
  method DownloadObject(size: u64, etag: string, probe: array<byte>, chunkSize: u64, parallelism: u64,
                        events: FileEvents, batches: Batches, failures: nat -> Option<T.Status>, budget: nat,
                        ghost source: Version, ghost versions: set<Version>)
    returns (ending: Ending, d: Download)
    requires 1 <= chunkSize && 1 <= parallelism && probe.Length == Min(chunkSize, PROBE_SIZE)
    requires source in versions && |source.content| == size && (etag != "" ==> source.etag == etag)
    requires forall k | 0 <= k < Min(probe.Length, size) :: probe[k] == source.content[k]
    requires HonestBatches(batches, etag, versions)
    ensures fresh(d) && fresh(d.file) && d.tiling.size == size && d.source == source && d.versions == versions
    ensures ending.Published? ==> Assembled(d) && d.downloaded == size
    ensures !ending.Published? ==> Excused(d, ending, events, batches, failures, budget)
    ensures ending.Published? ==> !events.EndsEarly(d.tiling.probe) && !events.publishFails
    ensures ending.Published? && Stable(etag, source, versions) ==> d.file[..] == source.content
    ensures d.tiling.Valid() && |d.buffers| == Min(parallelism, d.tiling.Chunks())
  {
    hide HonestBatches, Download.BrokenOff, Ones, Live;
    d := Prepare(size, etag, probe, chunkSize, parallelism, source, versions);
    if events.resizeFails { return Stopped(T.ErrIo), d; }
    if d.tiling.probe > 0 {
      if events.probeFails { return Stopped(T.ErrIo), d; }
      if events.stopped { return Cancelled, d; }
    }
    var first := d.SubmitFirst(failures);
    if first.Some? { return first.value, d; }
    while d.active > 0
      invariant d.Valid() && d.polls <= budget
      invariant fresh(d) && fresh(d.file) && forall i | 0 <= i < |d.buffers| :: fresh(d.buffers[i])
      decreases budget - d.polls
    {
      var stopped, completedOne;
      ghost var polled;
      stopped, completedOne, polled := d.Round(batches, budget);
      if stopped.Some? { return stopped.value, d; }
    }
    FinishedIsAssembled(d);
    if events.publishFails { return Stopped(T.ErrIo), d; }
    if Stable(etag, source, versions) { AssembledIsObject(d); }
    ending := Published;
  }
}
