/**
  Why the wait in `cancel` comes to an end (src/runtime/engine.cpp:961-1017), second half: whatever the
  engine is doing, as long as it has a transfer some thread has a step that brings the engine closer to
  having none. So from every reachable state it can run empty, and a waiting cancel can return.
*/
module Draining {
  import opened Numbers
  import opened Batches
  import opened Engines
  import opened Conservation
  import opened Cancellation
  import opened Guarantees

  // ------------------------------------------------------------------ how much there is to do

  /** Transfers that wait in a place from where at least `c` steps lead to their end, and their parts. */
  function JobsLoad(js: seq<Job>, c: nat): nat
  {
    if js == [] then 0 else c + |js[0].parts| + JobsLoad(js[1..], c)
  }

  function HandLoad(hand: Hand): nat
  {
    match hand
    case Empty => 0
    case Closing(_) => 1
    case Delivering(job) => 2 + |job.parts|
    case Checking(job) => 4 + |job.parts|
    case _ => 3 + |hand.job.parts|
  }

  function LoopLoad(a: LoopState): nat
  {
    JobsLoad(a.pending, 4) + JobsLoad(a.resolving, 5) + JobsLoad(a.retries, 5) + JobsLoad(a.active, 4)
    + JobsLoad(a.waiting, 4)
  }

  function ActorLoad(a: Actor): nat
  {
    HandLoad(a.hand) +
    match a.role
    case Loop(loop) => LoopLoad(loop)
    case Worker(_) => 0
    case Client(_, jobs) => JobsLoad(jobs, 6)
  }

  function ActorsLoad(actors: seq<Actor>): nat
  {
    if actors == [] then 0 else ActorsLoad(actors[..|actors| - 1]) + ActorLoad(actors[|actors| - 1])
  }

  function QueuesLoad(s: State): nat { JobsLoad(s.files, 5) + JobsLoad(s.credentials, 5) + JobsLoad(s.http, 5) }

  function Load(s: State): nat { QueuesLoad(s) + ActorsLoad(s.actors) }

  lemma {:induction false} LoadAppend(x: seq<Job>, y: seq<Job>, c: nat)
    ensures JobsLoad(x + y, c) == JobsLoad(x, c) + JobsLoad(y, c)
    decreases |x|
  {
    if x == [] {
      assert x + y == y;
    } else {
      LoadAppend(x[1..], y, c);
      assert (x + y)[1..] == x[1..] + y;
    }
  }

  lemma LoadFirst(js: seq<Job>, c: nat)
    requires js != []
    ensures JobsLoad(js, c) == c + |js[0].parts| + JobsLoad(js[1..], c)
    ensures JobsLoad([], c) == 0 && JobsLoad([js[0]], c) == c + |js[0].parts|
  {
    assert [js[0]][1..] == [];
  }

  lemma LoadSplit(js: seq<Job>, n: nat, c: nat)
    requires n <= |js|
    ensures JobsLoad(js, c) == JobsLoad(js[..n], c) + JobsLoad(js[n..], c)
  {
    LoadAppend(js[..n], js[n..], c);
    assert js[..n] + js[n..] == js;
  }

  lemma LoadRemove(js: seq<Job>, i: nat, c: nat)
    requires i < |js|
    ensures JobsLoad(js, c) == c + |js[i].parts| + JobsLoad(RemoveAt(js, i), c)
  {
    LoadSplit(js, i, c);
    LoadFirst(js[i..], c);
    assert js[i..][1..] == js[i + 1..];
    LoadAppend(js[..i], js[i + 1..], c);
  }

  lemma {:induction false} LoadCloser(js: seq<Job>, c: nat)
    ensures JobsLoad(js, c + 1) == JobsLoad(js, c) + |js|
    decreases |js|
  {
    if js != [] {
      LoadCloser(js[1..], c);
    }
  }

  lemma {:induction false} LoadUpdate(actors: seq<Actor>, k: nat, to: Actor)
    requires k < |actors|
    ensures ActorsLoad(actors[k := to]) + ActorLoad(actors[k]) == ActorsLoad(actors) + ActorLoad(to)
    decreases |actors|
  {
    var init := actors[..|actors| - 1];
    if k == |actors| - 1 {
      assert actors[k := to][..|actors| - 1] == init;
    } else {
      LoadUpdate(init, k, to);
      assert actors[k := to][..|actors| - 1] == init[k := to];
    }
  }

  lemma {:induction false} LoadedActor(actors: seq<Actor>) returns (k: nat)
    requires ActorsLoad(actors) > 0
    ensures k < |actors| && ActorLoad(actors[k]) > 0
    decreases |actors|
  {
    if ActorLoad(actors[|actors| - 1]) > 0 {
      k := |actors| - 1;
    } else {
      k := LoadedActor(actors[..|actors| - 1]);
    }
  }

  // ------------------------------------------------------------------ where a loop is in its turn

  function SweepRest(a: LoopState, which: nat): nat
    decreases 4 - which
  {
    if which > 3 then 0 else |Container(a, which)| + 1 + SweepRest(a, which + 1)
  }

  /** The steps to the end of the turn if nothing is taken, started or completed on the way. */
  function TurnLeft(a: LoopState): nat
  {
    match a.phase
    case Performing => 1
    case Filling => 2
    case Restarting => 3
    case Requeueing(at) => 4 + |a.retries| - Min(at, |a.retries|)
    case Sweeping(which, at) => 5 + |a.retries| + Max(0, |Container(a, which)| - at) + SweepRest(a, which + 1)
    case Flagging => 5 + |a.retries| + SweepRest(a, 0)
    case Taking => 6 + |a.retries| + SweepRest(a, 0)
  }

  function Turn(a: LoopState): nat { 6 + |a.retries| + SweepRest(a, 0) }

  /** Where in its turn the loop can do something about what it holds: when it sets the transfers that
      wait for a lookup aside, looks at the retries, completes a request, or starts what is pending; a
      loop that holds nothing can take from the queue. */
  function Chance(a: LoopState): nat
  {
    if a.resolving != [] then 4 else if a.retries != [] then 5 else if a.active != [] then 1
    else if a.pending != [] then 2 else Turn(a)
  }

  /** The steps to that point, in this turn or the next. */
  function Distance(a: LoopState): nat
    requires a.phase.Sweeping? ==> a.phase.which <= 3
  {
    if TurnLeft(a) >= Chance(a) then TurnLeft(a) - Chance(a) else TurnLeft(a) + Turn(a) - Chance(a)
  }

  // ------------------------------------------------------------------ one thread

  function Adds(e: Effect): nat
  {
    match e
    case Queues(jobs) => JobsLoad(jobs, 5)
    case Relooks(job) => 5 + |job.parts|
    case _ => 0
  }

  function Takes(e: Effect): nat
  {
    match e
    case TakesHttp(taken) => JobsLoad(taken, 5)
    case PopsFile(job) => 5 + |job.parts|
    case PopsCredential(job) => 5 + |job.parts|
    case _ => 0
  }

  /** The step lowers the load. */
  predicate Lightens(before: Actor, o: Outcome)
  {
    o.Moved? && ActorLoad(o.actor) + Adds(o.effect) < ActorLoad(before) + Takes(o.effect)
  }

  /** The loop goes on in its turn, without a change to the load, and comes nearer to its chance. */
  predicate Advances(a: LoopState, o: Outcome)
  {
    && (a.phase.Sweeping? ==> a.phase.which <= 3)
    && o.Moved? && o.actor.hand == Empty && o.actor.role.Loop? && (o.effect == Nothing || o.effect == TakesHttp([]))
    && (o.actor.role.loop.phase.Sweeping? ==> o.actor.role.loop.phase.which <= 3)
    && LoopLoad(o.actor.role.loop) == LoopLoad(a) && Distance(o.actor.role.loop) < Distance(a)
  }

  /** Whatever a thread has in hand it can bring closer to its end. */
  lemma HandCanMove(a: Actor, cancelled: set<nat>, http: seq<Job>, queue: seq<Job>) returns (move: Move)
    requires a.hand != Empty && !a.role.Client?
    requires a.role.Loop? ==> !a.hand.Checking? && !a.hand.Vetted?
    requires a.role.Worker? ==> !a.hand.Ended?
    ensures a.role.Loop? ==> Lightens(a, LoopMove(a.hand, a.role.loop, move, cancelled, http))
    ensures a.role.Worker? ==> Lightens(a, WorkerMove(a.hand, a.role.files, move, cancelled, queue))
  {
    hide LoopLoad, FreeLoopMove, JobsLoad;
    match a.hand
    case Starting(_) => move := if a.role.Loop? then Launch(Fails) else Conclude(true);
    case Ended(_) => move := Settle(Finish);
    case Checking(_) => move := Check;
    case Vetted(_) => move := Forward(true);
    case Delivering(job) => move := if job.parts != [] then Deliver else Reset;
    case Closing(_) => move := Close;
  }

  /** The next step of a free loop that leaves alone what it may leave alone. */
  function Onward(a: LoopState): Move
  {
    match a.phase
    case Taking => Take(Chance(a) < Turn(a))
    case Flagging => Exchange
    case Sweeping(_, _) => Sweep
    case Requeueing(at) => Requeue(true)
    case Restarting => Restart
    case Filling => Fill
    case Performing => if a.active != [] then Complete(0) else Poll
  }

  /** A free loop that has a transfer, or could take one, does something about it or comes nearer. */
  lemma LoopCanMove(a: LoopState, cancelled: set<nat>, http: seq<Job>)
    requires LoopOk(Empty, a) && a.limit >= 1
    requires a.pending != [] || a.resolving != [] || a.retries != [] || a.active != [] || a.waiting != [] || http != []
    ensures
      var o := LoopMove(Empty, a, Onward(a), cancelled, http);
      Lightens(Actor(Empty, Loop(a)), o) || Advances(a, o)
  {
    hide JobsLoad, SweepMove, RequeueMove, StartOrDiscard, Lightens, Advances, Turn, Chance, Distance, SweepRest;
    match a.phase
    case Taking => TakeHelps(a, cancelled, http);
    case Flagging => FlagHelps(a);
    case Sweeping(which, at) => SweepHelps(a, which, at, cancelled);
    case Requeueing(at) => RequeueHelps(a, at);
    case Restarting => RestartHelps(a, cancelled);
    case Filling => FillHelps(a, cancelled);
    case Performing => PerformHelps(a);
  }

  lemma TakeHelps(a: LoopState, cancelled: set<nat>, http: seq<Job>)
    requires LoopOk(Empty, a) && a.limit >= 1 && a.phase == Taking
    requires a.pending != [] || a.resolving != [] || a.retries != [] || a.active != [] || http != []
    ensures
      var o := LoopMove(Empty, a, Onward(a), cancelled, http);
      Lightens(Actor(Empty, Loop(a)), o) || Advances(a, o)
  {
    hide JobsLoad, SweepRest;
    if Chance(a) < Turn(a) {
      assert http[..0] == [] && a.pending + http[..0] == a.pending;
      SamePlacesTurn(a, a.(phase := Flagging));
      assert Distance(a.(phase := Flagging)) < Distance(a);
    } else {
      var n := TakeCount(a, |http|);
      assert a.pending == [];
      LoadAppend(a.pending, http[..n], 4);
      LoadCloser(http[..n], 4);
    }
  }

  /** Nothing but the phase has changed, and the turn is shorter without having passed the chance. */
  lemma TurnHelps(a: LoopState, phase: Phase, flag: bool)
    requires a.phase.Sweeping? ==> a.phase.which <= 3
    requires phase.Sweeping? ==> phase.which <= 3
    requires var a' := a.(phase := phase, flag := flag);
      TurnLeft(a') < TurnLeft(a) && (TurnLeft(a') >= Chance(a) || TurnLeft(a) < Chance(a))
    ensures Advances(a, InLoop(Empty, a.(phase := phase, flag := flag), Nothing))
  {
    hide JobsLoad;
    SamePlacesTurn(a, a.(phase := phase, flag := flag));
    hide SweepRest;
  }

  lemma SamePlacesTurn(a: LoopState, a': LoopState)
    requires a' == a.(phase := a'.phase, flag := a'.flag)
    ensures Turn(a') == Turn(a) && Chance(a') == Chance(a)
    ensures forall which: nat :: SweepRest(a', which) == SweepRest(a, which)
  {
    forall which: nat ensures SweepRest(a', which) == SweepRest(a, which) { SameSweepRest(a, a', which); }
  }

  lemma {:induction false} SameSweepRest(a: LoopState, a': LoopState, which: nat)
    requires a' == a.(phase := a'.phase, flag := a'.flag)
    ensures SweepRest(a', which) == SweepRest(a, which)
    decreases 4 - which
  {
    if which <= 3 { SameSweepRest(a, a', which + 1); }
  }

  lemma FlagHelps(a: LoopState)
    requires LoopOk(Empty, a) && a.phase == Flagging
    ensures Advances(a, LoopMove(Empty, a, Onward(a), {}, []))
  {
    var phase := if a.flag then Sweeping(0, 0) else Requeueing(0);
    SamePlacesTurn(a, a.(phase := phase, flag := false));
    hide JobsLoad, SweepRest;
    TurnHelps(a, phase, false);
  }

  lemma SweepHelps(a: LoopState, which: nat, at: nat, cancelled: set<nat>)
    requires LoopOk(Empty, a) && a.phase == Sweeping(which, at)
    ensures
      var o := SweepMove(a, which, at, cancelled);
      Lightens(Actor(Empty, Loop(a)), o) || Advances(a, o)
  {
    PassHelps(a, which, at);
    hide Lightens, Advances, RemoveAt;
    var js := Container(a, which);
    if at < |js| && js[at].batch in cancelled {
      DiscardLightens(a, which, at);
    }
  }

  /** The sweep goes on behind a transfer that stays, or with the next container. */
  lemma PassHelps(a: LoopState, which: nat, at: nat)
    requires LoopOk(Empty, a) && a.phase == Sweeping(which, at)
    ensures
      var phase := if at < |Container(a, which)| then Sweeping(which, at + 1)
                   else if which < 3 then Sweeping(which + 1, 0) else Requeueing(0);
      Advances(a, InLoop(Empty, a.(phase := phase), Nothing))
  {
    hide Advances;
    var phase := if at < |Container(a, which)| then Sweeping(which, at + 1)
                 else if which < 3 then Sweeping(which + 1, 0) else Requeueing(0);
    SamePlacesTurn(a, a.(phase := phase));
    TurnHelps(a, phase, a.flag);
    assert a.(phase := phase, flag := a.flag) == a.(phase := phase);
  }

  lemma DiscardLightens(a: LoopState, which: nat, at: nat)
    requires which <= 3 && at < |Container(a, which)|
    ensures
      var js := Container(a, which);
      Lightens(Actor(Empty, Loop(a)), Discard(Loop(WithContainer(a, which, RemoveAt(js, at))), js[at]))
  {
    hide JobsLoad, RemoveAt;
    LoadRemove(Container(a, which), at, 4);
    LoadRemove(Container(a, which), at, 5);
  }

  lemma RequeueHelps(a: LoopState, at: nat)
    requires LoopOk(Empty, a) && a.phase == Requeueing(at)
    ensures
      var o := RequeueMove(a, at, true);
      Lightens(Actor(Empty, Loop(a)), o) || Advances(a, o)
  {
    hide JobsLoad, RemoveAt;
    if at < |a.retries| {
      LoadRemove(a.retries, at, 5);
      LoadAppend(a.pending, [a.retries[at]], 4);
      LoadFirst([a.retries[at]], 4);
    } else if a.resolving != [] {
      LoadCloser(a.resolving, 4);
      LoadNone();
    } else {
      SamePlacesTurn(a, a.(phase := Restarting));
      TurnHelps(a, Restarting, a.flag);
      assert a.(phase := Restarting, waiting := a.resolving, resolving := []) == a.(phase := Restarting);
    }
  }

  lemma LoadNone()
    ensures forall c: nat :: JobsLoad([], c) == 0
  {}

  lemma StartLightens(a: LoopState, before: LoopState, job: Job, cancelled: set<nat>)
    requires LoopLoad(before) == LoopLoad(a) + 4 + |job.parts|
    ensures Lightens(Actor(Empty, Loop(before)), StartOrDiscard(a, job, cancelled))
  {
    hide LoopLoad;
  }

  lemma RestartHelps(a: LoopState, cancelled: set<nat>)
    requires LoopOk(Empty, a) && a.phase == Restarting
    ensures
      var o := LoopMove(Empty, a, Restart, cancelled, []);
      Lightens(Actor(Empty, Loop(a)), o) || Advances(a, o)
  {
    hide JobsLoad;
    if a.waiting != [] {
      LoadFirst(a.waiting, 4);
      StartLightens(a.(waiting := a.waiting[1..]), a, a.waiting[0], cancelled);
    } else {
      SamePlacesTurn(a, a.(phase := Filling));
      TurnHelps(a, Filling, a.flag);
    }
  }

  lemma FillHelps(a: LoopState, cancelled: set<nat>)
    requires LoopOk(Empty, a) && a.limit >= 1 && a.phase == Filling
    ensures
      var o := LoopMove(Empty, a, Fill, cancelled, []);
      Lightens(Actor(Empty, Loop(a)), o) || Advances(a, o)
  {
    hide JobsLoad;
    if |a.active| + |a.resolving| < a.limit && a.pending != [] {
      LoadFirst(a.pending, 4);
      StartLightens(a.(pending := a.pending[1..]), a, a.pending[0], cancelled);
    } else {
      SamePlacesTurn(a, a.(phase := Performing));
      TurnHelps(a, Performing, a.flag);
    }
  }

  lemma PerformHelps(a: LoopState)
    requires LoopOk(Empty, a) && a.phase == Performing
    ensures
      var o := LoopMove(Empty, a, Onward(a), {}, []);
      Lightens(Actor(Empty, Loop(a)), o) || Advances(a, o)
  {
    hide JobsLoad, RemoveAt;
    if a.active != [] {
      LoadRemove(a.active, 0, 4);
    } else {
      SamePlacesTurn(a, a.(phase := Taking));
      hide SweepRest;
    }
  }

  // ------------------------------------------------------------------ the threads of the engine

  /** What a thread of each kind can have in hand. */
  predicate ActorOk(a: Actor, batches: nat)
  {
    match a.role
    case Loop(_) => true
    case Worker(_) => !a.hand.Ended?
    case Client(submitting, jobs) =>
      a.hand == Empty && if submitting.Some? then submitting.value < batches else jobs == []
  }

  ghost predicate CrewInv(s: State) { forall k | 0 <= k < |s.actors| :: ActorOk(s.actors[k], |s.batches|) }

  /** There are threads for file reads and for credential lookups. */
  ghost predicate Staffed(s: State)
  {
    && (exists k | 0 <= k < |s.actors| :: s.actors[k].role == Worker(true))
    && (exists k | 0 <= k < |s.actors| :: s.actors[k].role == Worker(false))
  }

  lemma MoveKeepsCrew(s: State, k: nat, move: Move)
    requires k < |s.actors| && ActorOk(s.actors[k], |s.batches|) && ActorMove(s, k, move).Moved?
    ensures ActorOk(ActorMove(s, k, move).actor, |s.batches|)
    ensures s.actors[k].role.Worker? ==> ActorMove(s, k, move).actor.role == s.actors[k].role
  {
    hide LoopMove, Cancelled;
    if s.actors[k].role.Loop? {
      LoopStaysLoop(s, k, move);
    }
  }

  lemma LoopStaysLoop(s: State, k: nat, move: Move)
    requires k < |s.actors| && s.actors[k].role.Loop? && ActorMove(s, k, move).Moved?
    ensures ActorMove(s, k, move).actor.role.Loop?
  {
    hide TakeCount, Container, WithContainer, RemoveAt, Cancelled;
  }

  lemma EffectKeepsCrew(s: State, e: Effect)
    ensures Apply(s, e).actors == s.actors && |Apply(s, e).batches| == |s.batches|
  {}

  lemma ActKeepsCrew(s: State, s': State, k: nat, move: Move)
    requires CrewInv(s) && ActStep(s, s', k, move)
    ensures CrewInv(s') && (Staffed(s) ==> Staffed(s'))
  {
    hide ActorMove, Apply, ActorOk;
    var o := ActorMove(s, k, move);
    EffectKeepsCrew(s.(actors := s.actors[k := o.actor]), o.effect);
    MoveKeepsCrew(s, k, move);
    KindsStay(s, s');
  }

  /** Workers stay workers. */
  lemma KindsStay(s: State, s': State)
    requires |s'.actors| == |s.actors|
    requires forall k | 0 <= k < |s.actors| && s.actors[k].role.Worker? :: s'.actors[k].role == s.actors[k].role
    ensures Staffed(s) ==> Staffed(s')
  {
    if Staffed(s) {
      var i :| 0 <= i < |s.actors| && s.actors[i].role == Worker(true);
      var j :| 0 <= j < |s.actors| && s.actors[j].role == Worker(false);
      assert s'.actors[i].role == Worker(true) && s'.actors[j].role == Worker(false);
    }
  }

  lemma OthersKeepCrew(s: State, s': State, step: Step)
    requires CrewInv(s) && (ClientStep(s, s', step) || CancelStep(s, s', step))
    ensures CrewInv(s') && (Staffed(s) ==> Staffed(s'))
  {
    hide DiscardAll, Staffed;
    KindsStay(s, s');
  }

  lemma StepKeepsCrew(s: State, s': State, step: Step)
    requires CrewInv(s) && StepOf(s, s', step)
    ensures CrewInv(s') && (Staffed(s) ==> Staffed(s'))
  {
    hide ActStep, ClientStep, CancelStep, CrewInv, Staffed;
    if step.Act? {
      ActKeepsCrew(s, s', step.k, step.move);
    } else {
      OthersKeepCrew(s, s', step);
    }
  }

  lemma {:induction false} RunKeepsCrew(states: seq<State>, steps: seq<Step>, concurrency: nat, ioThreads: nat, n: nat)
    requires IsRun(states, steps, concurrency, ioThreads) && n < |states|
    ensures CrewInv(states[n]) && (Staffed(states[0]) ==> Staffed(states[n]))
  {
    hide StepOf, CrewInv, Staffed;
    if n == 0 {
      InitIsCrew(states[0], concurrency, ioThreads);
    } else {
      RunKeepsCrew(states, steps, concurrency, ioThreads, n - 1);
      var step := steps[n - 1];
      StepKeepsCrew(states[n - 1], states[n], step);
    }
  }

  lemma InitIsCrew(s: State, concurrency: nat, ioThreads: nat)
    requires Init(s, concurrency, ioThreads)
    ensures CrewInv(s)
  {
    forall k | 0 <= k < |s.actors| ensures ActorOk(s.actors[k], |s.batches|) {
      if k < s.loops { assert s.actors[k].role.Loop?; }
    }
  }

  // ------------------------------------------------------------------ the whole engine

  /** The distances of all loops from their chances. */
  function Far(actors: seq<Actor>): nat
  {
    if actors == [] then 0 else Far(actors[..|actors| - 1]) + FarOf(actors[|actors| - 1])
  }

  function FarOf(a: Actor): nat
  {
    if a.role.Loop? && (a.role.loop.phase.Sweeping? ==> a.role.loop.phase.which <= 3) then Distance(a.role.loop) else 0
  }

  lemma {:induction false} FarUpdate(actors: seq<Actor>, k: nat, to: Actor)
    requires k < |actors|
    ensures Far(actors[k := to]) + FarOf(actors[k]) == Far(actors) + FarOf(to)
    decreases |actors|
  {
    var init := actors[..|actors| - 1];
    if k == |actors| - 1 {
      assert actors[k := to][..|actors| - 1] == init;
    } else {
      FarUpdate(init, k, to);
      assert actors[k := to][..|actors| - 1] == init[k := to];
    }
  }

  /** Less to do, or the same and nearer to doing it. */
  predicate Closer(s': State, s: State)
  {
    Load(s') < Load(s) || (Load(s') == Load(s) && Far(s'.actors) < Far(s.actors))
  }

  /** The queues after a thread's step. */
  lemma QueuesAfter(s: State, k: nat, move: Move)
    requires k < |s.actors| && ActorMove(s, k, move).Moved?
    ensures
      var o := ActorMove(s, k, move);
      var s' := Apply(s.(actors := s.actors[k := o.actor]), o.effect);
      QueuesLoad(s') + Takes(o.effect) == QueuesLoad(s) + Adds(o.effect) && s'.actors == s.actors[k := o.actor]
  {
    hide ActorMove, JobsLoad;
    ActorShaped(s, k, move);
    if s.files != [] { LoadFirst(s.files, 5); }
    if s.credentials != [] { LoadFirst(s.credentials, 5); }
    match ActorMove(s, k, move).effect
    case TakesHttp(taken) =>
      assert taken == s.http[..|taken|];
      LoadSplit(s.http, |taken|, 5);
    case Queues(jobs) => LoadAppend(s.http, jobs, 5);
    case Relooks(job) =>
      LoadAppend([job], s.credentials, 5);
      LoadFirst([job], 5);
    case _ =>
  }

  /** A thread that can do something brings the engine closer to running empty. */
  lemma ActBringsCloser(s: State, k: nat, move: Move) returns (s': State)
    requires k < |s.actors|
    requires Lightens(s.actors[k], ActorMove(s, k, move)) ||
             (s.actors[k].role.Loop? && s.actors[k].hand == Empty
              && Advances(s.actors[k].role.loop, ActorMove(s, k, move)))
    ensures StepOf(s, s', Act(k, move)) && Closer(s', s)
  {
    hide ActorMove, JobsLoad, Distance, QueuesLoad, ActorsLoad, LoopLoad, Apply;
    var o := ActorMove(s, k, move);
    s' := Apply(s.(actors := s.actors[k := o.actor]), o.effect);
    QueuesAfter(s, k, move);
    LoadUpdate(s.actors, k, o.actor);
    FarUpdate(s.actors, k, o.actor);
    LoadNone();
  }

  lemma EnqueueBringsCloser(s: State, k: nat) returns (s': State)
    requires k < |s.actors| && s.actors[k].role.Client? && ActorOk(s.actors[k], |s.batches|)
    requires ActorLoad(s.actors[k]) > 0
    ensures StepOf(s, s', Enqueue(k)) && Closer(s', s)
  {
    var Client(submitting, jobs) := s.actors[k].role;
    var to := s.actors[k].(role := Client(None, []));
    s' := SetBatch(s.(http := s.http + jobs, actors := SetRole(s, k, Client(None, []))),
                   submitting.value, Opened(s.batches[submitting.value]));
    assert s'.actors == s.actors[k := to];
    LoadUpdate(s.actors, k, to);
    LoadAppend(s.http, jobs, 5);
    LoadCloser(jobs, 5);
    hide ActorsLoad;
  }

  /** A thread with a transfer can do something about it. */
  lemma LoadedCanMove(s: State, k: nat) returns (step: Step, s': State)
    requires CrewInv(s) && LoopsInv(s) && k < |s.actors| && ActorLoad(s.actors[k]) > 0
    requires s.actors[k].role.Loop? ==> s.actors[k].role.loop.limit >= 1
    ensures StepOf(s, s', step) && Closer(s', s) && (step.Act? || step.Enqueue?)
  {
    var Actor(hand, role) := s.actors[k];
    if role.Loop? { LoopIsOk(s, k); }
    assert ActorOk(s.actors[k], |s.batches|);
    hide CrewInv, LoopsInv, StepOf, Closer, Lightens, Advances, LoopOk, LoopMove, WorkerMove;
    if role.Client? {
      step := Enqueue(k);
      s' := EnqueueBringsCloser(s, k);
    } else if hand != Empty {
      var move := HandCanMove(s.actors[k], Cancelled(s), s.http,
                              if role == Worker(true) then s.files else s.credentials);
      step := Act(k, move);
      s' := ActBringsCloser(s, k, move);
    } else {
      HoldsSomething(role.loop);
      LoopCanMove(role.loop, Cancelled(s), s.http);
      step := Act(k, Onward(role.loop));
      s' := ActBringsCloser(s, k, Onward(role.loop));
    }
  }

  lemma LoopIsOk(s: State, k: nat)
    requires LoopsInv(s) && k < |s.actors| && s.actors[k].role.Loop?
    ensures LoopOk(s.actors[k].hand, s.actors[k].role.loop)
    ensures !s.actors[k].hand.Checking? && !s.actors[k].hand.Vetted?
  {
    assert k < s.loops && LoopInv(s, k);
  }

  lemma HoldsSomething(a: LoopState)
    ensures LoopLoad(a) > 0 ==>
              a.pending != [] || a.resolving != [] || a.retries != [] || a.active != [] || a.waiting != []
  {}

  lemma PopBringsCloser(s: State, k: nat, files: bool) returns (s': State)
    requires k < |s.actors| && s.actors[k] == Actor(Empty, Worker(files))
    requires (if files then s.files else s.credentials) != []
    ensures StepOf(s, s', Act(k, Pop)) && Closer(s', s)
  {
    s' := ActBringsCloser(s, k, Pop);
  }

  /** As long as there is a transfer anywhere, some thread can bring the engine closer to running empty. */
  lemma SomeThreadCanMove(s: State) returns (step: Step, s': State)
    requires CrewInv(s) && LoopsInv(s) && Staffed(s) && s.loops >= 1 && Load(s) > 0
    requires forall l | 0 <= l < s.loops :: s.actors[l].role.Loop? && s.actors[l].role.loop.limit >= 1
    ensures StepOf(s, s', step) && Closer(s', s) && (step.Act? || step.Enqueue?)
  {
    hide CrewInv, LoopsInv, StepOf, Closer, ActorLoad, LoopMove, WorkerMove;
    if ActorsLoad(s.actors) > 0 {
      var k := LoadedActor(s.actors);
      LoopIsCounted(s, k);
      step, s' := LoadedCanMove(s, k);
    } else if s.files != [] {
      var k :| 0 <= k < |s.actors| && s.actors[k].role == Worker(true);
      IdleHand(s, k);
      step := Act(k, Pop);
      s' := PopBringsCloser(s, k, true);
    } else if s.credentials != [] {
      var k :| 0 <= k < |s.actors| && s.actors[k].role == Worker(false);
      IdleHand(s, k);
      step := Act(k, Pop);
      s' := PopBringsCloser(s, k, false);
    } else {
      IdleHand(s, 0);
      LoopIsCounted(s, 0);
      LoopIsOk(s, 0);
      var loop := s.actors[0].role.loop;
      LoopCanMove(loop, Cancelled(s), s.http);
      step := Act(0, Onward(loop));
      s' := ActBringsCloser(s, 0, Onward(loop));
    }
  }

  lemma LoopIsCounted(s: State, k: nat)
    requires LoopsInv(s) && k < |s.actors|
    ensures s.loops <= |s.actors| && (s.actors[k].role.Loop? ==> k < s.loops)
  {}

  lemma {:induction false} IdleHand(s: State, k: nat)
    requires ActorsLoad(s.actors) == 0 && k < |s.actors|
    ensures s.actors[k].hand == Empty
  {
    LoadUpdate(s.actors, k, s.actors[k].(hand := Empty));
  }

  // ------------------------------------------------------------------ runs

  /** The run can be continued until the engine holds no transfer, and no cancel has to act. */
  lemma {:induction false} EngineCanRunEmpty(states: seq<State>, steps: seq<Step>, concurrency: nat, ioThreads: nat)
    returns (longer: seq<State>, moreSteps: seq<Step>)
    requires IsRun(states, steps, concurrency, ioThreads) && Staffed(states[0])
    ensures IsRun(longer, moreSteps, concurrency, ioThreads) && states <= longer && steps <= moreSteps
    ensures Load(longer[|longer| - 1]) == 0
    ensures
      var s, s' := states[|states| - 1], longer[|longer| - 1];
      |s'.batches| == |s.batches| && forall b | 0 <= b < |s.batches| :: s.batches[b].cancel == Waiting ==>
          s'.batches[b].cancel == Waiting
    decreases Load(states[|states| - 1]), Far(states[|states| - 1].actors)
  {
    hide Load, Far, StepOf, Staffed, CrewInv, LoopsInv, BatchInv, Init;
    var s := states[|states| - 1];
    if Load(s) == 0 {
      longer, moreSteps := states, steps;
    } else {
      var n := |states| - 1;
      RunKeepsCrew(states, steps, concurrency, ioThreads, n);
      RunIsSafe(states, steps, concurrency, ioThreads, n);
      RunKeepsLimits(states, steps, concurrency, ioThreads, n);
      InitHasLimit(states[0], concurrency, ioThreads);
      LimitsArePositive(s, concurrency, ioThreads);
      var step, s' := SomeThreadCanMove(s);
      RunGrows(states, steps, concurrency, ioThreads, step, s');
      WaitGoesOn(s, s', step);
      longer, moreSteps := EngineCanRunEmpty(states + [s'], steps + [step], concurrency, ioThreads);
    }
  }

  lemma RunGrows(states: seq<State>, steps: seq<Step>, concurrency: nat, ioThreads: nat, step: Step, s': State)
    requires IsRun(states, steps, concurrency, ioThreads) && StepOf(states[|states| - 1], s', step)
    ensures IsRun(states + [s'], steps + [step], concurrency, ioThreads)
  {
    hide StepOf, Init;
    var longer, more := states + [s'], steps + [step];
    forall i {:trigger more[i]} | 0 <= i < |more| ensures StepOf(longer[i], longer[i + 1], more[i]) {
      if i < |steps| { assert more[i] == steps[i]; }
    }
  }

  lemma InitHasLimit(s: State, concurrency: nat, ioThreads: nat)
    requires Init(s, concurrency, ioThreads)
    ensures concurrency >= 1
  {}

  lemma LimitsArePositive(s: State, concurrency: nat, ioThreads: nat)
    requires LimitsInv(s, concurrency) && concurrency >= 1 && s.loops == LoopCount(concurrency, ioThreads)
    ensures forall l | 0 <= l < s.loops :: s.actors[l].role.Loop? && s.actors[l].role.loop.limit >= 1
  {
    forall l | 0 <= l < s.loops ensures s.actors[l].role.Loop? && s.actors[l].role.loop.limit >= 1 {
      LimitsShareConcurrency(concurrency, ioThreads, l);
    }
  }

  /** Threads and clients do not end the wait of a cancel; they only make it possible. */
  lemma WaitGoesOn(s: State, s': State, step: Step)
    requires BatchInv(s) && StepOf(s, s', step) && (step.Act? || step.Enqueue?)
    ensures |s'.batches| == |s.batches|
    ensures forall b | 0 <= b < |s.batches| && s.batches[b].cancel == Waiting :: s'.batches[b].cancel == Waiting
  {
    if step.Act? {
      ActKeepsBatches(s, s', step.k, step.move);
    }
    hide ActStep;
  }

  /** An empty engine has no transfer of any batch. */
  lemma EmptyHasNone(s: State, b: nat)
    requires Load(s) == 0
    ensures Total(OfBatch(b), s) == 0
  {
    NoJobs(s.files, 5);
    NoJobs(s.credentials, 5);
    NoJobs(s.http, 5);
    NoActors(s.actors, b);
  }

  lemma NoJobs(js: seq<Job>, c: nat)
    requires JobsLoad(js, c) == 0 && c > 0
    ensures js == []
  {}

  lemma {:induction false} NoActors(actors: seq<Actor>, b: nat)
    requires ActorsLoad(actors) == 0
    ensures ActorsWeight(OfBatch(b), actors) == 0
    decreases |actors|
  {
    if actors != [] {
      NoActors(actors[..|actors| - 1], b);
      var a := actors[|actors| - 1];
      match a.role
      case Loop(loop) => HoldsNothing(loop, b);
      case Client(_, jobs) => NoJobs(jobs, 6);
      case _ =>
    }
  }

  lemma HoldsNothing(a: LoopState, b: nat)
    requires LoopLoad(a) == 0
    ensures LoopWeight(OfBatch(b), a) == 0
  {
    NoJobs(a.pending, 4);
    NoJobs(a.resolving, 5);
    NoJobs(a.retries, 5);
    NoJobs(a.active, 4);
    NoJobs(a.waiting, 4);
  }

  /** Whenever a cancel waits for the transfers of its batch, the run can be continued to its return. */
  lemma CancelCanReturn(states: seq<State>, steps: seq<Step>, concurrency: nat, ioThreads: nat, b: nat)
    returns (longer: seq<State>, moreSteps: seq<Step>)
    requires IsRun(states, steps, concurrency, ioThreads) && Staffed(states[0])
    requires b < |states[|states| - 1].batches| && states[|states| - 1].batches[b].cancel == Waiting
    ensures IsRun(longer, moreSteps, concurrency, ioThreads) && states <= longer && steps < moreSteps
    ensures moreSteps[|moreSteps| - 1] == CancelReturn(b)
    ensures b < |longer[|longer| - 1].batches| && longer[|longer| - 1].batches[b].cancel == Done
  {
    hide Load, StepOf, Staffed, Init, Total;
    longer, moreSteps := EngineCanRunEmpty(states, steps, concurrency, ioThreads);
    var n := |longer| - 1;
    var s := longer[n];
    LedgersAreExact(longer, moreSteps, concurrency, ioThreads, n, b);
    EmptyHasNone(s, b);
    var s' := SetBatch(s, b, s.batches[b].(cancel := Done));
    ReturnIsEnabled(s, b);
    RunGrows(longer, moreSteps, concurrency, ioThreads, CancelReturn(b), s');
    longer, moreSteps := longer + [s'], moreSteps + [CancelReturn(b)];
  }

  lemma ReturnIsEnabled(s: State, b: nat)
    requires b < |s.batches| && s.batches[b].cancel == Waiting && s.batches[b].ledger.liveTransfers == 0
    ensures StepOf(s, SetBatch(s, b, s.batches[b].(cancel := Done)), CancelReturn(b))
  {}
}
