/**
  What the engine promises its callers, in every reachable state of every interleaving.
*/
module Guarantees {
  import opened Numbers
  import opened Batches
  import opened Engines
  import opened Conservation
  import opened Cancellation

  // ------------------------------------------------------------------ conservation

  /** Each live transfer is in exactly one queue, container or hand, and the batch's counters are
      exact: live transfers, undelivered parts, and the parts themselves, tag by tag. */
  lemma LedgersAreExact(
      states: seq<State>, steps: seq<Step>, concurrency: nat, ioThreads: nat, n: nat, b: nat)
    requires IsRun(states, steps, concurrency, ioThreads) && n < |states| && b < |states[n].batches|
    ensures
      var s := states[n];
      var batch := s.batches[b];
      && (forall id :: Total(OfId(id), s) <= 1)
      && Total(OfBatch(b), s) == batch.ledger.liveTransfers
      && Total(OfParts(b), s) + |batch.dropped| == batch.ledger.pendingParts
      && (forall tag :: Total(OfTag(b, tag), s) + batch.returned[tag] + multiset(batch.ledger.ready)[tag]
                        + batch.dropped[tag] == batch.submitted[tag])
      && (!batch.ledger.cancelled ==> batch.dropped == multiset{})
  {
    ConservationHolds(states, steps, concurrency, ioThreads, n);
    RunIsSafe(states, steps, concurrency, ioThreads, n);
    var s := states[n];
    hide IsRun, Total, LoopsInv;
    assert BatchOk(s.batches[b]);
    assert Balance(s, OfBatch(b)) && Balance(s, OfParts(b));
    forall id ensures Total(OfId(id), s) <= 1 {
      assert Balance(s, OfId(id));
    }
    forall tag
      ensures Total(OfTag(b, tag), s) + s.batches[b].returned[tag] + multiset(s.batches[b].ledger.ready)[tag]
            + s.batches[b].dropped[tag] == s.batches[b].submitted[tag]
    {
      assert Balance(s, OfTag(b, tag));
    }
  }

  // Parts against tags: the undelivered parts are those with some tag.

  lemma {:induction false} SumTagsBelow(b: nat, tag: Tag, js: seq<Job>)
    ensures Sum(OfTag(b, tag), js) <= Sum(OfParts(b), js)
    decreases |js|
  {
    if js != [] {
      TagBelow(tag, js[0].parts);
      SumTagsBelow(b, tag, js[1..]);
    }
  }

  lemma TagBelow(tag: Tag, parts: seq<Tag>)
    ensures multiset(parts)[tag] <= |parts|
  {
    assert multiset(parts)[tag := 0] + multiset{}[tag := multiset(parts)[tag]] == multiset(parts);
  }

  lemma ActorTagsBelow(b: nat, tag: Tag, a: Actor)
    ensures ActorWeight(OfTag(b, tag), a) <= ActorWeight(OfParts(b), a)
  {
    if a.hand != Empty && !a.hand.Closing? {
      TagBelow(tag, a.hand.job.parts);
    }
    match a.role
    case Loop(loop) =>
      SumTagsBelow(b, tag, loop.pending);
      SumTagsBelow(b, tag, loop.resolving);
      SumTagsBelow(b, tag, loop.retries);
      SumTagsBelow(b, tag, loop.active);
      SumTagsBelow(b, tag, loop.waiting);
    case Worker(_) =>
    case Client(_, jobs) => SumTagsBelow(b, tag, jobs);
  }

  lemma {:induction false} ActorsTagsBelow(b: nat, tag: Tag, actors: seq<Actor>)
    ensures ActorsWeight(OfTag(b, tag), actors) <= ActorsWeight(OfParts(b), actors)
    decreases |actors|
  {
    if actors != [] {
      ActorsTagsBelow(b, tag, actors[..|actors| - 1]);
      ActorTagsBelow(b, tag, actors[|actors| - 1]);
    }
  }

  lemma TagsBelowParts(b: nat, tag: Tag, s: State)
    ensures Total(OfTag(b, tag), s) <= Total(OfParts(b), s)
  {
    SumTagsBelow(b, tag, s.files);
    SumTagsBelow(b, tag, s.credentials);
    SumTagsBelow(b, tag, s.http);
    ActorsTagsBelow(b, tag, s.actors);
  }

  lemma {:induction false} SumHasTag(b: nat, js: seq<Job>) returns (tag: Tag)
    requires Sum(OfParts(b), js) > 0
    ensures Sum(OfTag(b, tag), js) > 0
    decreases |js|
  {
    if Weight(OfParts(b), js[0]) > 0 {
      tag := js[0].parts[0];
    } else {
      tag := SumHasTag(b, js[1..]);
    }
  }

  lemma ActorHasTag(b: nat, a: Actor) returns (tag: Tag)
    requires ActorWeight(OfParts(b), a) > 0
    ensures ActorWeight(OfTag(b, tag), a) > 0
  {
    if HandWeight(OfParts(b), a.hand) > 0 {
      tag := a.hand.job.parts[0];
    } else if a.role.Client? {
      tag := SumHasTag(b, a.role.jobs);
    } else {
      var loop := a.role.loop;
      if Sum(OfParts(b), loop.pending) > 0 {
        tag := SumHasTag(b, loop.pending);
      } else if Sum(OfParts(b), loop.resolving) > 0 {
        tag := SumHasTag(b, loop.resolving);
      } else if Sum(OfParts(b), loop.retries) > 0 {
        tag := SumHasTag(b, loop.retries);
      } else if Sum(OfParts(b), loop.active) > 0 {
        tag := SumHasTag(b, loop.active);
      } else {
        tag := SumHasTag(b, loop.waiting);
      }
    }
  }

  lemma {:induction false} ActorsHaveTag(b: nat, actors: seq<Actor>) returns (tag: Tag)
    requires ActorsWeight(OfParts(b), actors) > 0
    ensures ActorsWeight(OfTag(b, tag), actors) > 0
    decreases |actors|
  {
    if ActorWeight(OfParts(b), actors[|actors| - 1]) > 0 {
      tag := ActorHasTag(b, actors[|actors| - 1]);
    } else {
      tag := ActorsHaveTag(b, actors[..|actors| - 1]);
    }
  }

  lemma SomeTagIsLeft(b: nat, s: State) returns (tag: Tag)
    requires Total(OfParts(b), s) > 0
    ensures Total(OfTag(b, tag), s) > 0
  {
    if Sum(OfParts(b), s.files) > 0 {
      tag := SumHasTag(b, s.files);
    } else if Sum(OfParts(b), s.credentials) > 0 {
      tag := SumHasTag(b, s.credentials);
    } else if Sum(OfParts(b), s.http) > 0 {
      tag := SumHasTag(b, s.http);
    } else {
      tag := ActorsHaveTag(b, s.actors);
    }
  }

  /** A batch that was not cancelled, with no result ready, ends exactly when every submitted part
      has been returned once: KARU_END comes neither early nor never. */
  lemma EndIsComplete(
      states: seq<State>, steps: seq<Step>, concurrency: nat, ioThreads: nat, n: nat, b: nat)
    requires IsRun(states, steps, concurrency, ioThreads) && n < |states| && b < |states[n].batches|
    requires !states[n].batches[b].ledger.cancelled && states[n].batches[b].ledger.ready == []
    ensures CanReturn(states[n].batches[b].ledger) <==> states[n].batches[b].returned == states[n].batches[b].submitted
  {
    LedgersAreExact(states, steps, concurrency, ioThreads, n, b);
    var s := states[n];
    hide IsRun, Total;
    if CanReturn(s.batches[b].ledger) {
      forall tag ensures s.batches[b].returned[tag] == s.batches[b].submitted[tag] {
        TagsBelowParts(b, tag, s);
      }
    } else {
      var tag := SomeTagIsLeft(b, s);
      assert Total(OfTag(b, tag), s) > 0;
    }
  }

  /** Until then nothing is returned that was not submitted, however many consumers take results. */
  lemma NothingReturnedTwice(
      states: seq<State>, steps: seq<Step>, concurrency: nat, ioThreads: nat, n: nat, b: nat)
    requires IsRun(states, steps, concurrency, ioThreads) && n < |states| && b < |states[n].batches|
    ensures
      var batch := states[n].batches[b];
      batch.returned + multiset(batch.ledger.ready) + batch.dropped <= batch.submitted
  {
    LedgersAreExact(states, steps, concurrency, ioThreads, n, b);
    hide IsRun, Total;
  }

  /** A consumer that has to wait waits for a transfer that is somewhere in the engine with a part
      still to deliver. */
  lemma WaitingConsumerHasWork(
      states: seq<State>, steps: seq<Step>, concurrency: nat, ioThreads: nat, n: nat, b: nat)
    requires IsRun(states, steps, concurrency, ioThreads) && n < |states| && b < |states[n].batches|
    requires !CanReturn(states[n].batches[b].ledger)
    ensures Total(OfParts(b), states[n]) == states[n].batches[b].ledger.pendingParts > 0
  {
    LedgersAreExact(states, steps, concurrency, ioThreads, n, b);
    hide IsRun, Total;
  }

  // ------------------------------------------------------------------ cancel

  lemma DoneStays(s: State, s': State, step: Step, b: nat)
    requires BatchInv(s) && StepOf(s, s', step) && b < |s.batches| && s.batches[b].cancel.Done?
    ensures b < |s'.batches| && s'.batches[b].cancel.Done?
  {
    if step.Act? {
      hide ActStep;
      ActKeepsBatches(s, s', step.k, step.move);
    } else {
      hide NewBatch, DiscardAll;
    }
  }

  lemma {:induction false} DoneStaysDone(
      states: seq<State>, steps: seq<Step>, concurrency: nat, ioThreads: nat, n: nat, later: nat, b: nat)
    requires IsRun(states, steps, concurrency, ioThreads) && n <= later < |states|
    requires b < |states[n].batches| && states[n].batches[b].cancel.Done?
    ensures b < |states[later].batches| && states[later].batches[b].cancel.Done?
    decreases later - n
  {
    if n < later {
      DoneStaysDone(states, steps, concurrency, ioThreads, n, later - 1, b);
      RunIsSafe(states, steps, concurrency, ioThreads, later - 1);
      var step := steps[later - 1];
      hide StepOf, Init, BatchInv, LoopsInv;
      DoneStays(states[later - 1], states[later], step, b);
    }
  }

  /** Can a thread touch caller memory of batch `b`? A file read or a running request receives into
      it, and `deliver` copies staged bytes into it. */
  ghost predicate MayWrite(s: State, b: nat)
  {
    exists k | 0 <= k < |s.actors| :: ActorMayWrite(s.actors[k], b)
  }

  ghost predicate ActorMayWrite(a: Actor, b: nat)
  {
    || ((a.hand.Starting? || a.hand.Delivering?) && a.hand.job.batch == b)
    || (a.role.Loop? && exists i | 0 <= i < |a.role.loop.active| :: a.role.loop.active[i].batch == b)
  }

  lemma WriterIsCounted(a: Actor, b: nat)
    requires ActorMayWrite(a, b)
    ensures ActorWeight(OfBatch(b), a) > 0
  {
    if a.role.Loop? && exists i | 0 <= i < |a.role.loop.active| :: a.role.loop.active[i].batch == b {
      var i :| 0 <= i < |a.role.loop.active| && a.role.loop.active[i].batch == b;
      SumRemove(OfBatch(b), a.role.loop.active, i);
    }
  }

  /** From the moment `cancel` returns, no transfer of the batch is anywhere in the engine, and no
      thread will ever write into its buffers again. */
  lemma CancelLeavesNothing(
      states: seq<State>, steps: seq<Step>, concurrency: nat, ioThreads: nat, n: nat, later: nat, b: nat)
    requires IsRun(states, steps, concurrency, ioThreads) && n <= later < |states|
    requires b < |states[n].batches| && states[n].batches[b].cancel.Done?
    ensures Total(OfBatch(b), states[later]) == 0 && !MayWrite(states[later], b)
  {
    hide Init, StepOf, ActorMayWrite, ActorWeight, LoopsInv;
    DoneStaysDone(states, steps, concurrency, ioThreads, n, later, b);
    RunIsSafe(states, steps, concurrency, ioThreads, later);
    LedgersAreExact(states, steps, concurrency, ioThreads, later, b);
    var s := states[later];
    assert BatchOk(s.batches[b]);
    forall k | 0 <= k < |s.actors| ensures !ActorMayWrite(s.actors[k], b) {
      if ActorMayWrite(s.actors[k], b) {
        WriterIsCounted(s.actors[k], b);
        ActorAtMost(OfBatch(b), s.actors, k);
      }
    }
  }

  /** Where a loop keeps transfers that it does not check again on its own: container 1, 2 or 3,
      set aside for a restart, or in the hand between its check and its container. */
  ghost predicate HoldsUnchecked(a: Actor, b: nat)
    requires a.role.Loop?
  {
    var loop := a.role.loop;
    || ((a.hand.Starting? || a.hand.Ended?) && a.hand.job.batch == b)
    || (exists i | 0 <= i < |loop.waiting| :: loop.waiting[i].batch == b)
    || (exists i | 0 <= i < |loop.resolving| :: loop.resolving[i].batch == b)
    || (exists i | 0 <= i < |loop.retries| :: loop.retries[i].batch == b)
    || (exists i | 0 <= i < |loop.active| :: loop.active[i].batch == b)
  }

  /** Cancel strands nothing: once it has reached a loop, the loop holds no transfer of the batch
      unless its flag is set or a sweep is under way. */
  lemma CancelStrandsNothing(
      states: seq<State>, steps: seq<Step>, concurrency: nat, ioThreads: nat, n: nat, l: nat, b: nat)
    requires IsRun(states, steps, concurrency, ioThreads) && n < |states|
    requires l < states[n].loops && b < |states[n].batches| && HasNotified(states[n].batches[b].cancel, l)
    ensures l < |states[n].actors| && states[n].actors[l].role.Loop?
    ensures
      var a := states[n].actors[l];
      HoldsUnchecked(a, b) ==> a.role.loop.flag || a.role.loop.phase.Sweeping?
  {
    hide IsRun, LoopOk;
    RunIsSafe(states, steps, concurrency, ioThreads, n);
    assert LoopInv(states[n], l);
    assert b in Reached(states[n], l);
  }

  /** And the sweep has not yet come to any such transfer: it never leaves one behind. */
  lemma SweepLeavesNoneBehind(
      states: seq<State>, steps: seq<Step>, concurrency: nat, ioThreads: nat, n: nat, l: nat, b: nat, which: nat,
      k: nat)
    requires IsRun(states, steps, concurrency, ioThreads) && n < |states|
    requires l < states[n].loops && b < |states[n].batches| && HasNotified(states[n].batches[b].cancel, l)
    requires l < |states[n].actors| && states[n].actors[l].role.Loop? && !states[n].actors[l].role.loop.flag
    requires 1 <= which <= 3 && k < Passed(states[n].actors[l].role.loop, which)
    ensures Container(states[n].actors[l].role.loop, which)[k].batch != b
  {
    hide IsRun, LoopOk;
    RunIsSafe(states, steps, concurrency, ioThreads, n);
    assert LoopInv(states[n], l);
    assert b in Reached(states[n], l);
  }

  // ------------------------------------------------------------------ nothing starts after a cancel

  /** The thread is starting or reading the transfer, or has its request running. */
  predicate Uses(a: Actor, job: Job)
  {
    a.hand == Starting(job) || (a.role.Loop? && job in a.role.loop.active)
  }

  predicate IsCancelled(s: State, b: nat) { b < |s.batches| && s.batches[b].ledger.cancelled }

  /** A transfer becomes active only through a start, and starts only after is_cancelled answered no. */
  lemma LoopStartsNothing(hand: Hand, a: LoopState, move: Move, cancelled: set<nat>, http: seq<Job>, job: Job)
    requires job.batch in cancelled
    ensures
      var o := LoopMove(hand, a, move, cancelled, http);
      o.Moved? && Uses(o.actor, job) ==> Uses(Actor(hand, Loop(a)), job)
  {
    hide TakeCount;
  }

  lemma WorkerStartsNothing(hand: Hand, files: bool, move: Move, cancelled: set<nat>, queue: seq<Job>, job: Job)
    requires job.batch in cancelled
    ensures
      var o := WorkerMove(hand, files, move, cancelled, queue);
      o.Moved? && Uses(o.actor, job) ==> Uses(Actor(hand, Worker(files)), job)
  {}

  lemma ActStartsNothing(s: State, s': State, k: nat, move: Move, i: nat, job: Job)
    requires ActStep(s, s', k, move) && IsCancelled(s, job.batch) && i < |s'.actors| && Uses(s'.actors[i], job)
    ensures i < |s.actors| && Uses(s.actors[i], job)
  {
    hide LoopMove, WorkerMove, Uses, Apply;
    EffectKeepsActors(s.(actors := s.actors[k := ActorMove(s, k, move).actor]), ActorMove(s, k, move).effect);
    assert job.batch in Cancelled(s);
    if i == k {
      var Actor(hand, role) := s.actors[k];
      match role
      case Loop(loop) => LoopStartsNothing(hand, loop, move, Cancelled(s), s.http, job);
      case Worker(files) =>
        WorkerStartsNothing(hand, files, move, Cancelled(s), if files then s.files else s.credentials, job);
      case Client(_, _) =>
    }
  }

  lemma EffectKeepsActors(s: State, e: Effect)
    ensures Apply(s, e).actors == s.actors
  {}

  lemma OthersStartNothing(s: State, s': State, step: Step, i: nat, job: Job)
    requires ClientStep(s, s', step) || CancelStep(s, s', step)
    requires i < |s'.actors| && Uses(s'.actors[i], job)
    ensures i < |s.actors| && Uses(s.actors[i], job)
  {
    hide DiscardAll;
  }

  lemma ActKeepsCancelled(s: State, s': State, k: nat, move: Move, b: nat)
    requires ActStep(s, s', k, move)
    ensures IsCancelled(s, b) ==> IsCancelled(s', b)
  {
    hide ActorMove;
  }

  lemma ClientKeepsCancelled(s: State, s': State, step: Step, b: nat)
    requires ClientStep(s, s', step)
    ensures IsCancelled(s, b) ==> IsCancelled(s', b)
  {}

  lemma CancelKeepsCancelled(s: State, s': State, step: Step, b: nat)
    requires CancelStep(s, s', step)
    ensures IsCancelled(s, b) ==> IsCancelled(s', b)
  {
    if step.CancelPurge? {
      DiscardKeepsFlags(s.batches[step.b], Only(s.files, step.b) + Only(s.credentials, step.b));
    } else if step.CancelPurgeHttp? {
      DiscardKeepsFlags(s.batches[step.b], Only(s.http, step.b));
    }
    hide DiscardAll;
  }

  lemma StepKeepsCancelled(s: State, s': State, step: Step, b: nat)
    requires StepOf(s, s', step)
    ensures IsCancelled(s, b) ==> IsCancelled(s', b)
  {
    hide ActStep, ClientStep, CancelStep, IsCancelled;
    if step.Act? {
      ActKeepsCancelled(s, s', step.k, step.move, b);
    } else if ClientStep(s, s', step) {
      ClientKeepsCancelled(s, s', step, b);
    } else {
      CancelKeepsCancelled(s, s', step, b);
    }
  }

  lemma StepStartsNothing(s: State, s': State, step: Step, i: nat, job: Job)
    requires StepOf(s, s', step) && IsCancelled(s, job.batch)
    ensures i < |s'.actors| && Uses(s'.actors[i], job) ==> i < |s.actors| && Uses(s.actors[i], job)
  {
    hide ActStep, ClientStep, CancelStep, IsCancelled, Uses;
    if i < |s'.actors| && Uses(s'.actors[i], job) {
      if step.Act? {
        ActStartsNothing(s, s', step.k, step.move, i, job);
      } else {
        OthersStartNothing(s, s', step, i, job);
      }
    }
  }

  /** In every run: once a batch is marked as cancelled it stays so, and whichever thread uses one of
      its transfers later was using it then. */
  lemma {:induction false} CancelledNeverStarts(
      states: seq<State>, steps: seq<Step>, concurrency: nat, ioThreads: nat, n: nat, later: nat, i: nat, job: Job)
    requires IsRun(states, steps, concurrency, ioThreads) && n <= later < |states|
    requires IsCancelled(states[n], job.batch)
    ensures IsCancelled(states[later], job.batch)
    ensures i < |states[later].actors| && Uses(states[later].actors[i], job) ==>
              i < |states[n].actors| && Uses(states[n].actors[i], job)
    decreases later - n
  {
    hide Init, StepOf, IsCancelled, Uses;
    if n < later {
      CancelledNeverStarts(states, steps, concurrency, ioThreads, n, later - 1, i, job);
      var step := steps[later - 1];
      StepKeepsCancelled(states[later - 1], states[later], step, job.batch);
      StepStartsNothing(states[later - 1], states[later], step, i, job);
    }
  }

  // ------------------------------------------------------------------ concurrency

  function LimitsUpTo(concurrency: nat, count: nat, n: nat): nat
    requires count > 0
  {
    if n == 0 then 0 else LimitsUpTo(concurrency, count, n - 1) + LoopLimit(concurrency, count, n - 1)
  }

  lemma {:induction false} LimitsClosedForm(concurrency: nat, count: nat, n: nat)
    requires count > 0
    ensures LimitsUpTo(concurrency, count, n) == n * (concurrency / count) + Min(n, concurrency % count)
  {
    if n > 0 {
      LimitsClosedForm(concurrency, count, n - 1);
      var q := concurrency / count;
      assert n * q == (n - 1) * q + q;
    }
  }

  /** Every loop gets at least one slot, and the slots add up to the client-wide limit. */
  lemma LimitsShareConcurrency(concurrency: nat, ioThreads: nat, l: nat)
    requires concurrency >= 1
    ensures
      var count := LoopCount(concurrency, ioThreads);
      && 1 <= count <= 64 && LimitsUpTo(concurrency, count, count) == concurrency
      && LoopLimit(concurrency, count, l) >= 1
  {
    var count := LoopCount(concurrency, ioThreads);
    LimitsClosedForm(concurrency, count, count);
  }

  /** Loops keep the limits they were given. */
  ghost predicate LimitsInv(s: State, concurrency: nat)
  {
    && 1 <= s.loops <= |s.actors|
    && forall l | 0 <= l < s.loops ::
         s.actors[l].role.Loop? && s.actors[l].role.loop.limit == LoopLimit(concurrency, s.loops, l)
  }

  lemma ActKeepsLimits(s: State, s': State, k: nat, move: Move, concurrency: nat)
    requires LimitsInv(s, concurrency) && LoopsInv(s) && ActStep(s, s', k, move)
    ensures LimitsInv(s', concurrency)
  {
    assert s'.actors == s.actors[k := ActorMove(s, k, move).actor] && s'.loops == s.loops;
    hide LoopMove, WorkerMove, LoopOk, Finishing, Cancelled, Apply, LoopLimit;
    if k < s.loops {
      assert LoopInv(s, k);
      LimitIsKept(s.actors[k].hand, s.actors[k].role.loop, move, Cancelled(s), s.http);
    }
  }

  lemma ClientKeepsLimits(s: State, s': State, step: Step, concurrency: nat)
    requires LimitsInv(s, concurrency) && ClientStep(s, s', step)
    ensures LimitsInv(s', concurrency)
  {
    hide LoopLimit;
  }

  lemma CancelKeepsLimits(s: State, s': State, step: Step, concurrency: nat)
    requires LimitsInv(s, concurrency) && CancelStep(s, s', step)
    ensures LimitsInv(s', concurrency)
  {
    hide LoopLimit, DiscardAll;
  }

  lemma StepKeepsLimits(s: State, s': State, step: Step, concurrency: nat)
    requires LimitsInv(s, concurrency) && LoopsInv(s) && StepOf(s, s', step)
    ensures LimitsInv(s', concurrency)
  {
    hide LimitsInv, LoopsInv, ActStep, ClientStep, CancelStep;
    if step.Act? {
      ActKeepsLimits(s, s', step.k, step.move, concurrency);
    } else if ClientStep(s, s', step) {
      ClientKeepsLimits(s, s', step, concurrency);
    } else {
      CancelKeepsLimits(s, s', step, concurrency);
    }
  }

  lemma LimitIsKept(hand: Hand, a: LoopState, move: Move, cancelled: set<nat>, http: seq<Job>)
    requires LoopOk(hand, a)
    ensures KeepsOk(LoopMove(hand, a, move, cancelled, http), a.limit)
  {
    if hand == Empty {
      FreeKeepsOk(a, move, cancelled, http);
    } else {
      BusyKeepsOk(hand, a, move, cancelled, http);
    }
    hide FreeLoopMove, KeepsOk;
  }

  lemma {:induction false} RunKeepsLimits(
      states: seq<State>, steps: seq<Step>, concurrency: nat, ioThreads: nat, n: nat)
    requires IsRun(states, steps, concurrency, ioThreads) && n < |states|
    ensures LimitsInv(states[n], concurrency) && states[n].loops == LoopCount(concurrency, ioThreads)
  {
    if n > 0 {
      RunKeepsLimits(states, steps, concurrency, ioThreads, n - 1);
      RunIsSafe(states, steps, concurrency, ioThreads, n - 1);
      var step := steps[n - 1];
      hide LimitsInv, LoopsInv, BatchInv, Init;
      StepKeepsLimits(states[n - 1], states[n], step, concurrency);
      StepKeepsLoopCount(states[n - 1], states[n], step);
    }
  }

  lemma StepKeepsLoopCount(s: State, s': State, step: Step)
    requires StepOf(s, s', step)
    ensures s'.loops == s.loops
  {
    hide ActorMove, DiscardAll;
  }

  /** HTTP transfers that the first `n` loops have started, or are starting. */
  function RunningUpTo(s: State, n: nat): nat
    requires n <= |s.actors| && forall l | 0 <= l < n :: s.actors[l].role.Loop?
  {
    if n == 0 then 0 else RunningUpTo(s, n - 1) + Running(s.actors[n - 1].hand, s.actors[n - 1].role.loop)
  }

  lemma {:induction false} RunningBelowLimits(s: State, concurrency: nat, n: nat)
    requires LimitsInv(s, concurrency) && LoopsInv(s) && n <= s.loops
    ensures RunningUpTo(s, n) <= LimitsUpTo(concurrency, s.loops, n)
  {
    if n > 0 {
      RunningBelowLimits(s, concurrency, n - 1);
      assert LoopInv(s, n - 1);
    }
  }

  /** The client never runs more than `concurrency` HTTP transfers at once. */
  lemma ConcurrencyIsCapped(
      states: seq<State>, steps: seq<Step>, concurrency: nat, ioThreads: nat, n: nat)
    requires IsRun(states, steps, concurrency, ioThreads) && n < |states|
    ensures LimitsInv(states[n], concurrency) && RunningUpTo(states[n], states[n].loops) <= concurrency
  {
    RunKeepsLimits(states, steps, concurrency, ioThreads, n);
    RunIsSafe(states, steps, concurrency, ioThreads, n);
    RunningBelowLimits(states[n], concurrency, states[n].loops);
    LimitsShareConcurrency(concurrency, ioThreads, 0);
  }
}
