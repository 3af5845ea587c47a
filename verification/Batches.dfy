/**
  The per-batch ledger shared by workers and consumers (src/runtime/batch.cpp). Every method runs
  under the batch mutex, so each is one atomic step; the functions on `Ledger` are the same steps
  as values, and module Engines interleaves them.
*/
module Batches {
  /** `pendingParts` and `liveTransfers` are size_t counters whose decrements are guarded. */
  datatype Ledger<C> = Ledger(ready: seq<C>, pendingParts: nat, liveTransfers: nat, cancelled: bool)

  datatype Answer<C> = Returned(completion: C) | End | Timeout

  function Push<C>(b: Ledger<C>, completion: C): Ledger<C>
  {
    b.(ready := b.ready + [completion], pendingParts := if b.pendingParts > 0 then b.pendingParts - 1 else 0)
  }

  function TransferFinished<C>(b: Ledger<C>): Ledger<C>
  {
    b.(liveTransfers := if b.liveTransfers > 0 then b.liveTransfers - 1 else 0)
  }

  /** What a consumer waits for. */
  predicate CanReturn<C>(b: Ledger<C>) { b.ready != [] || b.pendingParts == 0 || b.cancelled }

  function Take<C>(b: Ledger<C>): Ledger<C>
    requires b.ready != []
  {
    b.(ready := b.ready[1..])
  }

  class Batch<C> {
    var ready: seq<C>
    var pendingParts: nat
    var liveTransfers: nat
    var cancelled: bool

    constructor (pendingParts: nat, liveTransfers: nat)
      ensures State() == Ledger([], pendingParts, liveTransfers, false)
    {
      this.ready, this.cancelled := [], false;
      this.pendingParts, this.liveTransfers := pendingParts, liveTransfers;
    }

    ghost function State(): Ledger<C>
      reads this
    {
      Ledger(ready, pendingParts, liveTransfers, cancelled)
    }

    /** `expired` says that the wait ended by its timeout; with none, it ends only when a consumer
        can return. A result that is ready is returned even from a cancelled batch. */
    method Next(expired: bool) returns (answer: Answer<C>)
      requires expired || CanReturn(State())
      modifies this
      ensures answer == Timeout <==> !CanReturn(old(State()))
      ensures answer.Returned? <==> old(ready) != []
      ensures answer == End ==> old(pendingParts) == 0 || old(cancelled)
      ensures answer.Returned? ==> State() == Take(old(State())) && old(ready) == [answer.completion] + ready
      ensures !answer.Returned? ==> State() == old(State())
    {
      if ready == [] && pendingParts != 0 && !cancelled { return Timeout; }
      if ready == [] { return End; }
      answer := Returned(ready[0]);
      ready := ready[1..];
    }

    method PushCompletion(completion: C)
      modifies this
      ensures State() == Push(old(State()), completion)
    {
      ready := ready + [completion];
      if pendingParts > 0 { pendingParts := pendingParts - 1; }
    }

    method FinishTransfer()
      modifies this
      ensures State() == TransferFinished(old(State()))
    {
      if liveTransfers > 0 { liveTransfers := liveTransfers - 1; }
    }
  }
}
