/**
  What cancel guarantees (src/runtime/engine.cpp:588-669 and 961-1017): it strands no transfer in a
  loop, and once it has returned nothing of its batch is left to write into caller memory. Also the
  client-wide limit on concurrent HTTP transfers (195-213, 650-669), which every loop keeps even
  while the transfers that wait for a lookup are set aside.
*/
module Cancellation {
  import opened Numbers
  import opened Batches
  import opened Engines
  import opened Conservation

  // ------------------------------------------------------------------ batches

  predicate IsMarked(c: Canceller) { c.Purging? || c.PurgingHttp? || c.Notifying? || c.Waiting? || c.Done? }

  ghost predicate BatchOk(b: BatchRecord)
  {
    && (b.ledger.cancelled <==> IsMarked(b.cancel))
    && (!b.ledger.cancelled ==> b.dropped == multiset{})
    && (b.cancel.Done? ==> b.ledger.liveTransfers == 0)
  }

  ghost predicate BatchInv(s: State) { forall b | 0 <= b < |s.batches| :: BatchOk(s.batches[b]) }

  lemma {:induction false} DiscardKeepsFlags(b: BatchRecord, js: seq<Job>)
    ensures DiscardAll(b, js).ledger.cancelled == b.ledger.cancelled
    decreases |js|
  {
    if js != [] {
      DiscardKeepsFlags(b.(ledger := TransferFinished(b.ledger), dropped := b.dropped + multiset(js[0].parts)),
                        js[1..]);
    }
  }

  lemma ActKeepsBatches(s: State, s': State, k: nat, move: Move)
    requires BatchInv(s) && ActStep(s, s', k, move)
    ensures BatchInv(s')
    ensures |s'.batches| == |s.batches|
    ensures forall b | 0 <= b < |s.batches| :: s'.batches[b].cancel == s.batches[b].cancel
  {
    hide ActorMove;
    ActorShaped(s, k, move);
  }

  lemma ReplaceKeepsBatches(s: State, s': State, b: nat)
    requires BatchInv(s) && b < |s.batches| == |s'.batches| && BatchOk(s'.batches[b])
    requires s'.batches == s.batches[b := s'.batches[b]]
    ensures BatchInv(s')
  {
    hide BatchOk;
  }

  lemma ClientKeepsBatches(s: State, s': State, step: Step)
    requires BatchInv(s) && ClientStep(s, s', step)
    ensures BatchInv(s')
  {
    match step
    case Submit(_, _, _) => hide NewBatch; NewBatchOk(step.jobs, step.immediate);
    case Enqueue(k) => ReplaceKeepsBatches(s, s', s.actors[k].role.submitting.value);
    case Next(b) => ReplaceKeepsBatches(s, s', b);
  }

  lemma NewBatchOk(jobs: seq<Job>, immediate: seq<Tag>)
    ensures BatchOk(NewBatch(jobs, immediate))
  {}

  lemma CancelKeepsBatches(s: State, s': State, step: Step)
    requires BatchInv(s) && CancelStep(s, s', step)
    ensures BatchInv(s')
  {
    var b := step.b;
    if step.CancelPurge? {
      DiscardKeepsFlags(s.batches[b], Only(s.files, b) + Only(s.credentials, b));
    } else if step.CancelPurgeHttp? {
      DiscardKeepsFlags(s.batches[b], Only(s.http, b));
    }
    assert BatchOk(s.batches[b]);
    ReplaceKeepsBatches(s, s', b);
  }

  lemma StepKeepsBatches(s: State, s': State, step: Step)
    requires BatchInv(s) && StepOf(s, s', step)
    ensures BatchInv(s')
  {
    hide ActStep, ClientStep, CancelStep, BatchInv;
    if step.Act? {
      ActKeepsBatches(s, s', step.k, step.move);
    } else if ClientStep(s, s', step) {
      ClientKeepsBatches(s, s', step);
    } else {
      CancelKeepsBatches(s, s', step);
    }
  }

  // ------------------------------------------------------------------ loops

  /** Slots in use, counting transfers set aside for a restart and the one being started. */
  function Running(hand: Hand, a: LoopState): nat
  {
    |a.active| + |a.resolving| + |a.waiting| + if hand.Starting? then 1 else 0
  }

  ghost predicate LoopOk(hand: Hand, a: LoopState)
  {
    && Running(hand, a) <= a.limit
    && (a.waiting != [] ==> a.phase == Restarting)
    && (hand.Starting? ==> a.phase == Restarting || a.phase == Filling)
    && (hand.Ended? ==> a.phase == Performing)
    && !hand.Checking? && !hand.Vetted?
    && (a.phase.Sweeping? ==> a.phase.which <= 3)
  }

  /** How much of a container the sweep under way has passed; all of it when there is none. */
  function Passed(a: LoopState, which: nat): nat
  {
    if !a.phase.Sweeping? || which < a.phase.which then |Container(a, which)|
    else if which == a.phase.which then Min(a.phase.at, |Container(a, which)|)
    else 0
  }

  /** The first `n` transfers are of other batches. */
  ghost predicate Free(js: seq<Job>, n: nat, reached: set<nat>)
    requires n <= |js|
  {
    forall k | 0 <= k < n :: js[k].batch !in reached
  }

  /** No transfer of a batch in `reached` is where the loop would not look again by itself. */
  ghost predicate Clear(hand: Hand, a: LoopState, reached: set<nat>)
  {
    && Free(a.resolving, Passed(a, 1), reached) && Free(a.retries, Passed(a, 2), reached)
    && Free(a.active, Passed(a, 3), reached) && Free(a.waiting, |a.waiting|, reached)
    && (hand.Starting? || hand.Ended? ==> hand.job.batch !in reached)
  }

  ghost predicate KeepsClear(o: Outcome, reached: set<nat>)
  {
    o.Moved? ==> o.actor.role.Loop? && (o.actor.role.loop.flag || Clear(o.actor.hand, o.actor.role.loop, reached))
  }

  ghost predicate KeepsOk(o: Outcome, limit: nat)
  {
    o.Moved? ==> o.actor.role.Loop? && o.actor.role.loop.limit == limit && LoopOk(o.actor.hand, o.actor.role.loop)
  }

  lemma SweepKeepsOk(a: LoopState, which: nat, at: nat, cancelled: set<nat>)
    requires a.phase == Sweeping(which, at) && LoopOk(Empty, a)
    ensures KeepsOk(SweepMove(a, which, at, cancelled), a.limit)
  {}

  lemma RequeueKeepsOk(a: LoopState, at: nat, due: bool)
    requires a.phase == Requeueing(at) && LoopOk(Empty, a)
    ensures KeepsOk(RequeueMove(a, at, due), a.limit)
  {}

  lemma BusyKeepsOk(hand: Hand, a: LoopState, move: Move, cancelled: set<nat>, http: seq<Job>)
    requires LoopOk(hand, a) && hand != Empty
    ensures KeepsOk(LoopMove(hand, a, move, cancelled, http), a.limit)
  {}

  lemma FreeKeepsOk(a: LoopState, move: Move, cancelled: set<nat>, http: seq<Job>)
    requires LoopOk(Empty, a)
    ensures KeepsOk(FreeLoopMove(a, move, cancelled, http), a.limit)
  {
    hide SweepMove, RequeueMove, TakeCount;
    match a.phase
    case Sweeping(which, at) => SweepKeepsOk(a, which, at, cancelled);
    case Requeueing(at) =>
      if move.Requeue? { RequeueKeepsOk(a, at, move.due); }
    case _ =>
  }

  lemma SweepKeepsClear(a: LoopState, which: nat, at: nat, cancelled: set<nat>, reached: set<nat>)
    requires a.phase == Sweeping(which, at) && which <= 3 && a.waiting == [] && reached <= cancelled
    requires a.flag || Clear(Empty, a, reached)
    ensures KeepsClear(SweepMove(a, which, at, cancelled), reached)
  {
    var js := Container(a, which);
    FreeOfNone(js, reached);
    FreeOfNone(a.resolving, reached);
    FreeOfNone(a.retries, reached);
    FreeOfNone(a.active, reached);
    if at < |js| {
      RemoveKeepsFree(js, at, reached);
    }
    hide Free, RemoveAt;
  }

  lemma FreeOfNone(js: seq<Job>, reached: set<nat>)
    ensures Free(js, 0, reached)
  {}

  /** Removing the next transfer, or passing it when it is of another batch, keeps what is passed. */
  lemma RemoveKeepsFree(js: seq<Job>, at: nat, reached: set<nat>)
    requires at < |js|
    ensures |RemoveAt(js, at)| == |js| - 1
    ensures Free(js, at, reached) ==> Free(RemoveAt(js, at), at, reached)
    ensures Free(js, at, reached) && js[at].batch !in reached ==> Free(js, at + 1, reached)
  {}

  lemma RequeueKeepsClear(a: LoopState, at: nat, due: bool, reached: set<nat>)
    requires a.phase == Requeueing(at) && (a.flag || Clear(Empty, a, reached))
    ensures KeepsClear(RequeueMove(a, at, due), reached)
  {}

  lemma BusyKeepsClear(hand: Hand, a: LoopState, move: Move, cancelled: set<nat>, http: seq<Job>, reached: set<nat>)
    requires LoopOk(hand, a) && hand != Empty && (a.flag || Clear(hand, a, reached))
    ensures KeepsClear(LoopMove(hand, a, move, cancelled, http), reached)
  {}

  lemma FreeKeepsClear(a: LoopState, move: Move, cancelled: set<nat>, http: seq<Job>, reached: set<nat>)
    requires LoopOk(Empty, a) && reached <= cancelled && (a.flag || Clear(Empty, a, reached))
    ensures KeepsClear(FreeLoopMove(a, move, cancelled, http), reached)
  {
    hide SweepMove, RequeueMove;
    match a.phase
    case Sweeping(which, at) => SweepKeepsClear(a, which, at, cancelled, reached);
    case Requeueing(at) =>
      if move.Requeue? { RequeueKeepsClear(a, at, move.due, reached); }
    case _ =>
  }

  lemma LoopKeeps(hand: Hand, a: LoopState, move: Move, cancelled: set<nat>, http: seq<Job>, reached: set<nat>)
    requires LoopOk(hand, a) && reached <= cancelled && (a.flag || Clear(hand, a, reached))
    ensures KeepsOk(LoopMove(hand, a, move, cancelled, http), a.limit)
    ensures KeepsClear(LoopMove(hand, a, move, cancelled, http), reached)
  {
    if hand == Empty {
      FreeKeepsOk(a, move, cancelled, http);
      FreeKeepsClear(a, move, cancelled, http, reached);
    } else {
      BusyKeepsOk(hand, a, move, cancelled, http);
      BusyKeepsClear(hand, a, move, cancelled, http, reached);
    }
    hide FreeLoopMove, KeepsOk, KeepsClear;
  }

  // ------------------------------------------------------------------ all loops

  /** Has `cancel`, at this point, set the flag of loop `l`? */
  predicate HasNotified(c: Canceller, l: nat) { (c.Notifying? && l < c.k) || c.Waiting? }

  function Reached(s: State, l: nat): set<nat> {
    set b: nat | b < |s.batches| && HasNotified(s.batches[b].cancel, l) :: b
  }

  ghost predicate LoopInv(s: State, l: nat)
    requires l < |s.actors|
  {
    var a := s.actors[l];
    a.role.Loop? && LoopOk(a.hand, a.role.loop) && (a.role.loop.flag || Clear(a.hand, a.role.loop, Reached(s, l)))
  }

  ghost predicate LoopsInv(s: State)
  {
    && s.loops <= |s.actors|
    && (forall l | 0 <= l < s.loops :: LoopInv(s, l))
    && (forall k | s.loops <= k < |s.actors| :: !s.actors[k].role.Loop?)
  }

  lemma ReachedIsCancelled(s: State, l: nat)
    requires BatchInv(s)
    ensures Reached(s, l) <= Cancelled(s)
  {}

  /** Fewer batches to be clear of is never harder. */
  lemma ClearMonotone(hand: Hand, a: LoopState, reached: set<nat>, fewer: set<nat>)
    requires Clear(hand, a, reached) && fewer <= reached
    ensures Clear(hand, a, fewer)
  {}

  lemma MoveKeepsKind(s: State, k: nat, move: Move)
    requires k < |s.actors| && ActorMove(s, k, move).Moved? && !s.actors[k].role.Loop?
    ensures !ActorMove(s, k, move).actor.role.Loop?
  {
    hide LoopMove, Cancelled;
  }

  lemma ActKeepsLoop(s: State, k: nat, move: Move, reached: set<nat>)
    requires k < |s.actors| && s.actors[k].role.Loop? && ActorMove(s, k, move).Moved? && reached <= Cancelled(s)
    requires LoopOk(s.actors[k].hand, s.actors[k].role.loop)
    requires s.actors[k].role.loop.flag || Clear(s.actors[k].hand, s.actors[k].role.loop, reached)
    ensures
      var a := ActorMove(s, k, move).actor;
      a.role.Loop? && LoopOk(a.hand, a.role.loop) && (a.role.loop.flag || Clear(a.hand, a.role.loop, reached))
  {
    hide LoopMove, WorkerMove, LoopOk, Clear, Cancelled;
    LoopKeeps(s.actors[k].hand, s.actors[k].role.loop, move, Cancelled(s), s.http, reached);
  }

  lemma ActKeepsLoops(s: State, s': State, k: nat, move: Move)
    requires BatchInv(s) && LoopsInv(s) && ActStep(s, s', k, move)
    ensures LoopsInv(s')
  {
    ActKeepsBatches(s, s', k, move);
    assert s'.actors == s.actors[k := ActorMove(s, k, move).actor] && s'.loops == s.loops;
    hide ActorMove, LoopOk, Clear, ActStep, Apply, Cancelled, BatchInv;
    if !s.actors[k].role.Loop? {
      MoveKeepsKind(s, k, move);
    }
    forall l | 0 <= l < s'.loops ensures LoopInv(s', l) {
      assert LoopInv(s, l);
      SameReached(s, s', l);
      if l == k {
        ReachedIsCancelled(s, l);
        ActKeepsLoop(s, k, move, Reached(s, l));
      }
    }
  }

  lemma SameReached(s: State, s': State, l: nat)
    requires |s'.batches| == |s.batches|
    requires forall b | 0 <= b < |s.batches| :: s'.batches[b].cancel == s.batches[b].cancel
    ensures Reached(s', l) == Reached(s, l)
  {}

  lemma ClientKeepsReached(s: State, s': State, step: Step, l: nat)
    requires ClientStep(s, s', step)
    ensures Reached(s', l) == Reached(s, l)
  {
    forall b: nat ensures b in Reached(s', l) <==> b in Reached(s, l) {
      assert b < |s'.batches| ==>
          HasNotified(s'.batches[b].cancel, l) == (b < |s.batches| && HasNotified(s.batches[b].cancel, l));
    }
  }

  lemma ClientKeepsLoops(s: State, s': State, step: Step)
    requires LoopsInv(s) && ClientStep(s, s', step)
    ensures LoopsInv(s')
  {
    hide LoopOk, Clear;
    forall l | 0 <= l < s'.loops ensures LoopInv(s', l) {
      assert LoopInv(s, l);
      ClientKeepsReached(s, s', step, l);
    }
  }

  lemma {:induction false} DiscardKeepsCancel(b: BatchRecord, js: seq<Job>)
    ensures DiscardAll(b, js).cancel == b.cancel
    decreases |js|
  {
    if js != [] {
      DiscardKeepsCancel(b.(ledger := TransferFinished(b.ledger), dropped := b.dropped + multiset(js[0].parts)),
                         js[1..]);
    }
  }

  /** A cancel reaches a loop only together with its flag. */
  lemma CancelReaches(s: State, s': State, step: Step, l: nat)
    requires LoopsInv(s) && CancelStep(s, s', step) && l < s.loops
    ensures s'.loops == s.loops && l < |s'.actors| == |s.actors| && s'.actors[l].role.Loop?
    ensures s'.actors[l] == s.actors[l]
            || s'.actors[l] == s.actors[l].(role := Loop(s.actors[l].role.loop.(flag := true)))
    ensures Reached(s', l) <= Reached(s, l) || s'.actors[l].role.loop.flag
  {
    hide LoopOk, Clear;
    assert LoopInv(s, l);
    if step.CancelNotify? {
      var k := s.batches[step.b].cancel.k;
      assert k < s.loops ==> LoopInv(s, k);
    }
  }

  lemma CancelKeepsLoops(s: State, s': State, step: Step)
    requires LoopsInv(s) && CancelStep(s, s', step)
    ensures LoopsInv(s')
  {
    hide CancelStep;
    assert s'.loops == s.loops && |s'.actors| == |s.actors|
        && forall k | s.loops <= k < |s.actors| :: !s'.actors[k].role.Loop? by { CancelKeepsActors(s, s', step); }
    forall l | 0 <= l < s.loops ensures LoopInv(s', l) {
      assert LoopInv(s, l);
      CancelReaches(s, s', step, l);
      FlagKeepsOk(s.actors[l].hand, s.actors[l].role.loop);
      hide LoopOk, Clear, Reached;
      var a := s.actors[l].role.loop;
      if !s'.actors[l].role.loop.flag {
        ClearMonotone(s.actors[l].hand, a, Reached(s, l), Reached(s', l));
      }
    }
  }

  lemma FlagKeepsOk(hand: Hand, a: LoopState)
    requires LoopOk(hand, a)
    ensures LoopOk(hand, a.(flag := true))
  {}

  lemma CancelKeepsActors(s: State, s': State, step: Step)
    requires LoopsInv(s) && CancelStep(s, s', step)
    ensures s'.loops == s.loops && |s'.actors| == |s.actors|
    ensures forall k | s.loops <= k < |s.actors| :: !s'.actors[k].role.Loop?
  {}

  // ------------------------------------------------------------------ every reachable state

  lemma InitIsSafe(s: State, concurrency: nat, ioThreads: nat)
    requires Init(s, concurrency, ioThreads)
    ensures BatchInv(s) && LoopsInv(s)
  {
    forall l | 0 <= l < s.loops ensures LoopInv(s, l) {
      assert s.actors[l] ==
             Actor(Empty, Loop(LoopState(Taking, LoopLimit(concurrency, s.loops, l), [], [], [], [], [], false)));
    }
  }

  lemma StepKeepsLoops(s: State, s': State, step: Step)
    requires BatchInv(s) && LoopsInv(s) && StepOf(s, s', step)
    ensures LoopsInv(s')
  {
    hide ActStep, ClientStep, CancelStep, LoopsInv, BatchInv;
    if step.Act? {
      ActKeepsLoops(s, s', step.k, step.move);
    } else if ClientStep(s, s', step) {
      ClientKeepsLoops(s, s', step);
    } else {
      CancelKeepsLoops(s, s', step);
    }
  }

  lemma {:induction false} RunIsSafe(
      states: seq<State>, steps: seq<Step>, concurrency: nat, ioThreads: nat, n: nat)
    requires IsRun(states, steps, concurrency, ioThreads) && n < |states|
    ensures BatchInv(states[n]) && LoopsInv(states[n])
  {
    hide Init, StepOf, BatchInv, LoopsInv;
    if n == 0 {
      InitIsSafe(states[0], concurrency, ioThreads);
    } else {
      RunIsSafe(states, steps, concurrency, ioThreads, n - 1);
      var step := steps[n - 1];
      StepKeepsBatches(states[n - 1], states[n], step);
      StepKeepsLoops(states[n - 1], states[n], step);
    }
  }
}
