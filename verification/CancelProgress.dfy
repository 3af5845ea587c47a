/**
  Why the wait in `cancel` comes to an end (src/runtime/engine.cpp:961-1017), first half: once a batch
  is marked, every time a thread handles one of its transfers brings that transfer closer to its end,
  and nothing takes it further away. Module Draining shows that something can always happen.
*/
module CancelProgress {
  import opened Numbers
  import opened Batches
  import opened Engines
  import opened Conservation
  import opened Cancellation
  import opened Guarantees

  // ------------------------------------------------------------------ the measure

  function N(b: nat, js: seq<Job>): nat { Sum(OfBatch(b), js) }

  predicate IsOf(hand: Hand, b: nat)
  {
    match hand
    case Empty => false
    case Closing(batch) => batch == b
    case _ => hand.job.batch == b
  }

  /** How many times a transfer in a hand will still be handled, its parts apart, if its batch is
      cancelled: from a start over the running request to the delivery of a result. */
  function HandSteps(hand: Hand, b: nat): nat
  {
    if !IsOf(hand, b) then 0
    else
      match hand
      case Starting(_) => 6
      case Ended(_) | Vetted(_) => 4
      case Checking(_) | Delivering(_) => 2
      case _ => 1
  }

  /** A transfer that no thread has in hand is discarded when it is next looked at, unless its request
      is running. */
  function LoopSteps(a: LoopState, b: nat): nat
  {
    2 * N(b, a.pending) + 3 * N(b, a.resolving) + 3 * N(b, a.retries) + 5 * N(b, a.active) + 2 * N(b, a.waiting)
  }

  function ActorSteps(a: Actor, b: nat): nat
  {
    HandSteps(a.hand, b) +
    match a.role
    case Loop(loop) => LoopSteps(loop, b)
    case Worker(_) => 0
    case Client(_, jobs) => 4 * N(b, jobs)
  }

  function ActorsSteps(actors: seq<Actor>, b: nat): nat
  {
    if actors == [] then 0 else ActorsSteps(actors[..|actors| - 1], b) + ActorSteps(actors[|actors| - 1], b)
  }

  /** What is left to do about a cancelled batch. */
  function Left(s: State, b: nat): nat
  {
    3 * QueuesWeight(OfBatch(b), s) + ActorsSteps(s.actors, b) + Total(OfParts(b), s)
  }

  lemma {:induction false} StepsUpdate(actors: seq<Actor>, k: nat, to: Actor, b: nat)
    requires k < |actors|
    ensures ActorsSteps(actors[k := to], b) + ActorSteps(actors[k], b) == ActorsSteps(actors, b) + ActorSteps(to, b)
    decreases |actors|
  {
    var init := actors[..|actors| - 1];
    if k == |actors| - 1 {
      assert actors[k := to][..|actors| - 1] == init;
    } else {
      StepsUpdate(init, k, to, b);
      assert actors[k := to][..|actors| - 1] == init[k := to];
    }
  }

  /** Nothing is left only when no transfer of the batch is. */
  lemma LeftCountsTransfers(s: State, b: nat)
    ensures Total(OfBatch(b), s) <= Left(s, b)
  {
    StepsCount(s.actors, b);
    hide Sum;
  }

  lemma {:induction false} StepsCount(actors: seq<Actor>, b: nat)
    ensures ActorsWeight(OfBatch(b), actors) <= ActorsSteps(actors, b)
    decreases |actors|
  {
    hide Sum;
    if actors != [] {
      StepsCount(actors[..|actors| - 1], b);
    }
  }

  // ------------------------------------------------------------------ one thread's step

  /** A step of a cancelled batch's thread takes nothing away from its end, and brings what it has in
      hand closer, unless it only delivers a part. */
  ghost predicate Falls(b: nat, before: Actor, o: Outcome)
  {
    o.Moved? ==>
      var after := ActorSteps(o.actor, b) + 3 * Queued(OfBatch(b), o.effect);
      var was := ActorSteps(before, b) + 3 * Received(OfBatch(b), o.effect);
      && after <= was
      && (IsOf(before.hand, b) || IsOf(o.actor.hand, b) ==> after < was || (o.effect.Pushes? && o.effect.batch == b))
  }

  lemma FinishingFalls(b: nat, a: Actor, move: Move)
    ensures Falls(b, a, Finishing(a, move))
  {
    hide Sum;
  }

  lemma DiscardFalls(b: nat, before: Actor, role: Role, job: Job)
    requires ActorSteps(before, b) >= ActorSteps(Actor(Empty, role), b) + if job.batch == b then 2 else 0
    requires IsOf(before.hand, b) ==> job.batch == b
    ensures Falls(b, before, Discard(role, job))
  {
    hide Sum;
  }

  lemma WorkerFalls(b: nat, hand: Hand, files: bool, move: Move, cancelled: set<nat>, queue: seq<Job>)
    requires b in cancelled
    ensures Falls(b, Actor(hand, Worker(files)), WorkerMove(hand, files, move, cancelled, queue))
  {
    hide Sum, Finishing, Discard, Falls;
    var before := Actor(hand, Worker(files));
    FinishingFalls(b, before, move);
    StuckFalls(b, before);
    match hand
    case Empty =>
      if move == Pop && queue != [] { PopFalls(b, files, queue[0]); }
    case Checking(job) =>
      DiscardFalls(b, before, before.role, job);
      MovesOn(b, before, Starting(job), Nothing);
    case Starting(job) =>
      DiscardFalls(b, before, before.role, job);
      MovesOn(b, before, Delivering(job), Nothing);
      MovesOn(b, before, Vetted(job), Nothing);
    case Vetted(job) =>
      MovesOn(b, before, Delivering(job), Nothing);
      SumOne(OfBatch(b), job);
      Forwards(b, before, job);
    case _ =>
  }

  lemma StuckFalls(b: nat, a: Actor)
    ensures Falls(b, a, Stuck)
  {}

  lemma PopFalls(b: nat, files: bool, job: Job)
    ensures Falls(b, Actor(Empty, Worker(files)), Moved(Actor(Checking(job), Worker(files)), PopsFile(job)))
    ensures Falls(b, Actor(Empty, Worker(files)), Moved(Actor(Checking(job), Worker(files)), PopsCredential(job)))
  {}

  /** The hand goes on to something closer to the end, or holds a transfer of another batch. */
  lemma MovesOn(b: nat, before: Actor, hand: Hand, e: Effect)
    requires e == Nothing && IsOf(before.hand, b) == IsOf(hand, b)
    ensures IsOf(hand, b) ==> HandSteps(hand, b) < HandSteps(before.hand, b) ==>
              Falls(b, before, Moved(before.(hand := hand), e))
    ensures !IsOf(hand, b) ==> Falls(b, before, Moved(before.(hand := hand), e))
  {
    hide Sum;
  }

  lemma Forwards(b: nat, before: Actor, job: Job)
    requires before.hand == Vetted(job) && Sum(OfBatch(b), [job]) == Weight(OfBatch(b), job)
    ensures Falls(b, before, Moved(before.(hand := Empty), Queues([job])))
  {
    hide Sum;
  }

  lemma LoopFalls(b: nat, hand: Hand, a: LoopState, move: Move, cancelled: set<nat>, http: seq<Job>)
    requires b in cancelled
    ensures Falls(b, Actor(hand, Loop(a)), LoopMove(hand, a, move, cancelled, http))
  {
    hide Sum, Falls, Finishing, FreeLoopMove, LaunchMove, SettleMove;
    StuckFalls(b, Actor(hand, Loop(a)));
    match hand
    case Empty => FreeLoopFalls(b, a, move, cancelled, http);
    case Starting(job) =>
      if move.Launch? { LaunchFalls(b, a, job, move.how); }
    case Ended(job) =>
      if move.Settle? { SettleFalls(b, a, job, move.verdict); }
    case _ => FinishingFalls(b, Actor(hand, Loop(a)), move);
  }

  lemma LaunchFalls(b: nat, a: LoopState, job: Job, how: Launching)
    ensures Falls(b, Actor(Starting(job), Loop(a)), LaunchMove(a, job, how))
  {
    hide Sum;
    SumPush(OfBatch(b), a.resolving, job);
    SumPush(OfBatch(b), a.active, job);
  }

  lemma SettleFalls(b: nat, a: LoopState, job: Job, verdict: Verdict)
    ensures Falls(b, Actor(Ended(job), Loop(a)), SettleMove(a, job, verdict))
  {
    hide Sum;
    SumPush(OfBatch(b), a.pending, job);
    SumPush(OfBatch(b), a.retries, job);
  }

  lemma FreeLoopFalls(b: nat, a: LoopState, move: Move, cancelled: set<nat>, http: seq<Job>)
    requires b in cancelled
    ensures Falls(b, Actor(Empty, Loop(a)), FreeLoopMove(a, move, cancelled, http))
  {
    hide Falls, SweepMove, RequeueMove, StartOrDiscard, RemoveAt, Sum;
    StuckFalls(b, Actor(Empty, Loop(a)));
    match a.phase
    case Taking =>
      if move.Take? { TakeFalls(b, a, http, if move.skip then 0 else TakeCount(a, |http|)); }
    case Flagging => SamePlacesFall(b, a, if a.flag then Sweeping(0, 0) else Requeueing(0), false);
    case Sweeping(which, at) => SweepFalls(b, a, which, at, cancelled);
    case Requeueing(at) =>
      if move.Requeue? { RequeueFalls(b, a, at, move.due); }
    case Restarting =>
      SamePlacesFall(b, a, Filling, a.flag);
      if a.waiting != [] { RestartFalls(b, a, cancelled); }
    case Filling =>
      SamePlacesFall(b, a, Performing, a.flag);
      if a.pending != [] { FillFalls(b, a, cancelled); }
    case Performing =>
      SamePlacesFall(b, a, Taking, a.flag);
      if move.Complete? && move.k < |a.active| { CompleteFalls(b, a, move.k); }
  }

  lemma SamePlacesFall(b: nat, a: LoopState, phase: Phase, flag: bool)
    ensures Falls(b, Actor(Empty, Loop(a)), InLoop(Empty, a.(phase := phase, flag := flag), Nothing))
  {
    hide Sum;
  }

  lemma TakeFalls(b: nat, a: LoopState, http: seq<Job>, n: nat)
    requires n <= |http|
    ensures Falls(b, Actor(Empty, Loop(a)),
                  InLoop(Empty, a.(phase := Flagging, pending := a.pending + http[..n]), TakesHttp(http[..n])))
  {
    hide Sum;
    SumAppend(OfBatch(b), a.pending, http[..n]);
  }

  /** A transfer that was set aside or is pending starts only if its batch is not cancelled. */
  lemma RestartFalls(b: nat, a: LoopState, cancelled: set<nat>)
    requires a.waiting != [] && b in cancelled
    ensures Falls(b, Actor(Empty, Loop(a)), StartOrDiscard(a.(waiting := a.waiting[1..]), a.waiting[0], cancelled))
  {
    SumFirst(OfBatch(b), a.waiting);
    hide Sum;
  }

  lemma FillFalls(b: nat, a: LoopState, cancelled: set<nat>)
    requires a.pending != [] && b in cancelled
    ensures Falls(b, Actor(Empty, Loop(a)), StartOrDiscard(a.(pending := a.pending[1..]), a.pending[0], cancelled))
  {
    SumFirst(OfBatch(b), a.pending);
    hide Sum;
  }

  lemma CompleteFalls(b: nat, a: LoopState, k: nat)
    requires k < |a.active|
    ensures Falls(b, Actor(Empty, Loop(a)), InLoop(Ended(a.active[k]), a.(active := RemoveAt(a.active, k)), Nothing))
  {
    hide Sum, RemoveAt;
    SumRemove(OfBatch(b), a.active, k);
  }

  lemma RequeueFalls(b: nat, a: LoopState, at: nat, due: bool)
    ensures Falls(b, Actor(Empty, Loop(a)), RequeueMove(a, at, due))
  {
    SumNone(OfBatch(b));
    hide Sum, RemoveAt;
    if at < |a.retries| {
      SumRemove(OfBatch(b), a.retries, at);
      SumPush(OfBatch(b), a.pending, a.retries[at]);
    }
  }

  lemma SweepFalls(b: nat, a: LoopState, which: nat, at: nat, cancelled: set<nat>)
    ensures Falls(b, Actor(Empty, Loop(a)), SweepMove(a, which, at, cancelled))
  {
    hide Sum, RemoveAt, Discard, Falls;
    var js := Container(a, which);
    if at >= |js| {
      SamePlacesFall(b, a, if which < 3 then Sweeping(which + 1, 0) else Requeueing(0), a.flag);
    } else if js[at].batch in cancelled {
      SumRemove(OfBatch(b), js, at);
      DiscardFalls(b, Actor(Empty, Loop(a)), Loop(WithContainer(a, which, RemoveAt(js, at))), js[at]);
    } else {
      SamePlacesFall(b, a, Sweeping(which, at + 1), a.flag);
    }
  }

  // ------------------------------------------------------------------ every step

  lemma ActorFalls(s: State, k: nat, move: Move, b: nat)
    requires k < |s.actors| && IsCancelled(s, b)
    ensures Falls(b, s.actors[k], ActorMove(s, k, move))
  {
    hide Falls, LoopMove, WorkerMove;
    assert b in Cancelled(s);
    match s.actors[k].role
    case Loop(loop) => LoopFalls(b, s.actors[k].hand, loop, move, Cancelled(s), s.http);
    case Worker(files) =>
      WorkerFalls(b, s.actors[k].hand, files, move, Cancelled(s), if files then s.files else s.credentials);
    case Client(_, _) => StuckFalls(b, s.actors[k]);
  }

  /** Does the step handle a transfer of the batch, that is, is it in the thread's hand before or after? */
  predicate Handles(s: State, step: Step, s': State, b: nat)
  {
    && step.Act? && step.k < |s.actors| == |s'.actors|
    && (IsOf(s.actors[step.k].hand, b) || IsOf(s'.actors[step.k].hand, b))
  }

  /** The parts still to be delivered become fewer by those that are pushed or dropped. */
  lemma PartsFall(s: State, k: nat, move: Move, b: nat)
    requires k < |s.actors| && ActorMove(s, k, move).Moved? && forall m :: Balance(s, m)
    ensures
      var o := ActorMove(s, k, move);
      var s' := Apply(s.(actors := s.actors[k := o.actor]), o.effect);
      && s'.actors == s.actors[k := o.actor]
      && Total(OfParts(b), s') + Given(OfParts(b), o.effect) == Total(OfParts(b), s) + Queued(OfParts(b), o.effect)
      && QueuesWeight(OfBatch(b), s') + Received(OfBatch(b), o.effect)
          == QueuesWeight(OfBatch(b), s) + Queued(OfBatch(b), o.effect)
  {
    hide Sum, Weight, ActorsWeight, ActorWeight, ActorMove, Given, Received, Apply, Fits, Balance;
    var o := ActorMove(s, k, move);
    var s1 := s.(actors := s.actors[k := o.actor]);
    EffectFits(s, k, move);
    SameAround(s, s1, OfParts(b), o.effect);
    SameAround(s, s1, OfBatch(b), o.effect);
    ActorGives(OfParts(b), s, k, move);
    ActorUpdate(OfParts(b), s.actors, k, o.actor);
    ApplyQueues(OfParts(b), s1, o.effect);
    ApplyQueues(OfBatch(b), s1, o.effect);
  }

  lemma PushGivesPart(b: nat, e: Effect)
    ensures Queued(OfParts(b), e) <= Given(OfParts(b), e)
    ensures e.Pushes? && e.batch == b ==> Queued(OfParts(b), e) < Given(OfParts(b), e)
  {
    hide Sum;
  }

  lemma ActLowers(s: State, s': State, step: Step, b: nat)
    requires step.Act? && ActStep(s, s', step.k, step.move) && IsCancelled(s, b) && forall m :: Balance(s, m)
    ensures Left(s', b) <= Left(s, b)
    ensures Handles(s, step, s', b) ==> Left(s', b) < Left(s, b)
  {
    hide ActorMove, Balance, Total, QueuesWeight, Given, Received, Queued, Apply, ActorSteps, ActorsSteps, IsOf,
      IsCancelled;
    var o := ActorMove(s, step.k, step.move);
    ActorFalls(s, step.k, step.move, b);
    PartsFall(s, step.k, step.move, b);
    PushGivesPart(b, o.effect);
    StepsUpdate(s.actors, step.k, o.actor, b);
  }

  // ------------------------------------------------------------------ submit, next and cancel

  lemma OthersWeighNothing(js: seq<Job>, b: nat)
    requires OfOneBatch(js, b)
    ensures forall c | c != b :: Sum(OfBatch(c), js) == 0 && Sum(OfParts(c), js) == 0
  {
    hide Sum;
    forall c | c != b ensures Sum(OfBatch(c), js) == 0 && Sum(OfParts(c), js) == 0 {
      OneBatchWeight(OfBatch(c), js, b);
      OneBatchWeight(OfParts(c), js, b);
    }
  }

  lemma SubmitLeaves(s: State, s': State, step: Step, b: nat)
    requires step.Submit? && ClientStep(s, s', step) && b < |s.batches|
    ensures Left(s', b) == Left(s, b)
  {
    var jobs, k := step.jobs, step.k;
    var to := s.actors[k].(role := Client(Some(|s.batches|), Routed(jobs, Http)));
    assert s'.actors == s.actors[k := to] && OfOneBatch(jobs, |s.batches|);
    OthersWeighNothing(jobs, |s.batches|);
    SubmitTotals(OfParts(b), s, s', k, jobs, step.immediate);
    hide Sum, Total, ActorSteps, ActorsSteps, Routed, IsPlanFor, OfOneBatch;
    assert Sum(OfBatch(b), jobs) == 0 && Sum(OfParts(b), jobs) == 0;
    SumRouted(OfBatch(b), jobs);
    SumAppend(OfBatch(b), s.files, Routed(jobs, File));
    SumAppend(OfBatch(b), s.credentials, Routed(jobs, Cloud));
    StepsUpdate(s.actors, k, to, b);
    ClientSteps(s.actors[k], to, b);
  }

  lemma ClientSteps(before: Actor, after: Actor, b: nat)
    requires before.role == Client(None, []) && after.role.Client? && after.hand == before.hand
    requires N(b, after.role.jobs) == 0
    ensures ActorSteps(after, b) == ActorSteps(before, b)
  {
    SumNone(OfBatch(b));
    hide Sum;
  }

  lemma EnqueueLowers(s: State, s': State, step: Step, b: nat)
    requires step.Enqueue? && ClientStep(s, s', step)
    ensures Left(s', b) <= Left(s, b)
  {
    var k := step.k;
    var to := s.actors[k].(role := Client(None, []));
    assert s'.actors == s.actors[k := to];
    EnqueueTotals(OfParts(b), s, s', k);
    SumAppend(OfBatch(b), s.http, s.actors[k].role.jobs);
    StepsUpdate(s.actors, k, to, b);
    SumNone(OfBatch(b));
    hide Sum, Total, ActorsSteps;
  }

  lemma ClientLowers(s: State, s': State, step: Step, b: nat)
    requires ClientStep(s, s', step) && b < |s.batches|
    ensures Left(s', b) <= Left(s, b)
  {
    hide Left;
    match step
    case Submit(_, _, _) => SubmitLeaves(s, s', step, b);
    case Enqueue(_) => EnqueueLowers(s, s', step, b);
    case _ => SameTransfers(s, s', b);
  }

  /** Batches and ledgers apart, nothing has changed. */
  lemma SameTransfers(s: State, s': State, b: nat)
    requires s'.files == s.files && s'.credentials == s.credentials && s'.http == s.http && s'.actors == s.actors
    ensures Left(s', b) == Left(s, b)
  {}

  lemma PurgeLowers(s: State, s': State, step: Step, b: nat)
    requires (step.CancelPurge? || step.CancelPurgeHttp?) && CancelStep(s, s', step)
    ensures Left(s', b) <= Left(s, b)
  {
    hide Sum, DiscardAll;
    PurgeTotals(OfParts(b), s, step.b);
    SumPurge(OfBatch(b), s.files, step.b);
    SumPurge(OfBatch(b), s.credentials, step.b);
    SumPurge(OfBatch(b), s.http, step.b);
  }

  lemma NotifyLeaves(s: State, s': State, step: Step, b: nat)
    requires step.CancelNotify? && CancelStep(s, s', step)
    ensures Left(s', b) == Left(s, b)
  {
    NotifyTotals(s, s', step.b, OfParts(b));
    hide Sum, Total;
    var k := s.batches[step.b].cancel.k;
    if k < s.loops && k < |s.actors| && s.actors[k].role.Loop? {
      StepsUpdate(s.actors, k, s'.actors[k], b);
    }
  }

  lemma CancelLowers(s: State, s': State, step: Step, b: nat)
    requires CancelStep(s, s', step)
    ensures Left(s', b) <= Left(s, b)
  {
    hide Left;
    match step
    case CancelPurge(_) | CancelPurgeHttp(_) => PurgeLowers(s, s', step, b);
    case CancelNotify(_) => NotifyLeaves(s, s', step, b);
    case _ => SameTransfers(s, s', b);
  }

  /** No step of any thread takes a transfer of a cancelled batch further from its end, and every step
      that handles one brings it closer. */
  lemma StepLowers(s: State, s': State, step: Step, b: nat)
    requires StepOf(s, s', step) && IsCancelled(s, b) && forall m :: Balance(s, m)
    ensures Left(s', b) <= Left(s, b)
    ensures Handles(s, step, s', b) ==> Left(s', b) < Left(s, b)
  {
    hide ActStep, ClientStep, CancelStep, Left, Balance;
    if step.Act? {
      ActLowers(s, s', step, b);
    } else if ClientStep(s, s', step) {
      ClientLowers(s, s', step, b);
    } else {
      CancelLowers(s, s', step, b);
    }
  }

  // ------------------------------------------------------------------ runs

  /** How often the steps of a run from `i` to `n` handle a transfer of the batch. */
  function Handlings(states: seq<State>, steps: seq<Step>, i: nat, n: nat, b: nat): nat
    requires i <= n <= |steps| < |states|
  {
    if i == n then 0
    else Handlings(states, steps, i, n - 1, b) + if Handles(states[n - 1], steps[n - 1], states[n], b) then 1 else 0
  }

  /** In every run, however it goes on, the transfers of a batch are handled at most as often after the
      batch is marked as was left to do then. */
  lemma {:induction false} HandlingsAreBounded(
      states: seq<State>, steps: seq<Step>, concurrency: nat, ioThreads: nat, i: nat, n: nat, b: nat)
    requires IsRun(states, steps, concurrency, ioThreads) && i <= n <= |steps| && IsCancelled(states[i], b)
    ensures IsCancelled(states[n], b)
    ensures Handlings(states, steps, i, n, b) + Left(states[n], b) <= Left(states[i], b)
    decreases n - i
  {
    hide Init, StepOf, IsCancelled, Left, Balance, Handles;
    if i < n {
      HandlingsAreBounded(states, steps, concurrency, ioThreads, i, n - 1, b);
      ConservationHolds(states, steps, concurrency, ioThreads, n - 1);
      var step := steps[n - 1];
      StepLowers(states[n - 1], states[n], step, b);
      StepKeepsCancelled(states[n - 1], states[n], step, b);
    }
  }
}
