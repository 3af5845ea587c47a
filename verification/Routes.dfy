/**
  Which way a transfer goes through the engine (src/runtime/engine.cpp:448-959): files are read by
  the file workers alone; everything else is looked up if its backend needs credentials, runs on an I/O
  loop, and is delivered when its request is settled, unless one of these steps has reported a failure.
*/
module Routes {
  import opened Numbers
  import opened Batches
  import opened Engines
  import Guarantees

  /** A transfer, whatever parts it has still to deliver. */
  datatype Identity = Identity(id: nat, batch: nat, route: Route)

  function Who(job: Job): Identity { Identity(job.id, job.batch, job.route) }

  // ------------------------------------------------------------------ what the steps of a run have done

  /** A credential worker has queued the transfer for HTTP. */
  predicate LooksUp(s: State, step: Step, who: Identity)
  {
    && step.Act? && step.k < |s.actors| && s.actors[step.k].role == Worker(false)
    && s.actors[step.k].hand.Vetted? && Who(s.actors[step.k].hand.job) == who && step.move == Forward(false)
  }

  /** Its request, which was active on an I/O loop, has come to an end. */
  predicate EndsRequest(s: State, step: Step, who: Identity)
  {
    && step.Act? && step.k < |s.actors| && s.actors[step.k].role.Loop? && step.move.Complete?
    && var active := s.actors[step.k].role.loop.active;
       step.move.k < |active| && Who(active[step.move.k]) == who
  }

  /** And the loop has decided that nothing is left to be done. */
  predicate Settles(s: State, step: Step, who: Identity)
  {
    && step.Act? && step.k < |s.actors| && s.actors[step.k].role.Loop?
    && s.actors[step.k].hand.Ended? && Who(s.actors[step.k].hand.job) == who && step.move == Settle(Finish)
  }

  /** A file worker has read the file. */
  predicate ReadsFile(s: State, step: Step, who: Identity)
  {
    && step.Act? && step.k < |s.actors| && s.actors[step.k].role == Worker(true)
    && s.actors[step.k].hand.Starting? && Who(s.actors[step.k].hand.job) == who && step.move == Conclude(false)
  }

  /** A file read, a credential lookup or the start of a request has failed, or came too late. */
  predicate ReportsFailure(s: State, step: Step, who: Identity)
  {
    && step.Act? && step.k < |s.actors|
    && var Actor(hand, role) := s.actors[step.k];
       || (role.Worker? && hand.Starting? && Who(hand.job) == who && step.move == Conclude(true))
       || (role.Worker? && hand.Vetted? && Who(hand.job) == who && step.move == Forward(true))
       || (role.Loop? && hand.Starting? && Who(hand.job) == who && step.move == Launch(Launching.Fails))
  }

  /** The transfers of which the steps so far have done each of these. */
  datatype History = History(looked: set<Identity>, ran: set<Identity>, settled: set<Identity>, read: set<Identity>,
                             failed: set<Identity>)

  /** What one thread's move adds. */
  function Noted(h: History, a: Actor, move: Move): History
  {
    match move
    case Forward(false) =>
      if a.hand.Vetted? && a.role == Worker(false) then h.(looked := h.looked + {Who(a.hand.job)}) else h
    case Complete(k) =>
      if a.role.Loop? && k < |a.role.loop.active| then h.(ran := h.ran + {Who(a.role.loop.active[k])}) else h
    case Settle(Finish) =>
      if a.hand.Ended? && a.role.Loop? then h.(settled := h.settled + {Who(a.hand.job)}) else h
    case Conclude(fails) =>
      if !a.hand.Starting? || !a.role.Worker? then h
      else if fails then h.(failed := h.failed + {Who(a.hand.job)})
      else if a.role.files then h.(read := h.read + {Who(a.hand.job)})
      else h
    case Forward(true) =>
      if a.hand.Vetted? && a.role.Worker? then h.(failed := h.failed + {Who(a.hand.job)}) else h
    case Launch(Fails) =>
      if a.hand.Starting? && a.role.Loop? then h.(failed := h.failed + {Who(a.hand.job)}) else h
    case _ => h
  }

  function NotedIn(h: History, s: State, step: Step): History
  {
    if step.Act? && step.k < |s.actors| then Noted(h, s.actors[step.k], step.move) else h
  }

  function HistoryOf(states: seq<State>, steps: seq<Step>, n: nat): History
    requires n <= |states| && n <= |steps|
  {
    if n == 0 then History({}, {}, {}, {}, {})
    else NotedIn(HistoryOf(states, steps, n - 1), states[n - 1], steps[n - 1])
  }

  predicate Within(h: History, g: History)
  {
    h.looked <= g.looked && h.ran <= g.ran && h.settled <= g.settled && h.read <= g.read && h.failed <= g.failed
  }

  // ------------------------------------------------------------------ the invariant

  /** May go to an I/O loop. */
  predicate Ready(h: History, job: Job)
  {
    job.route != File && (job.route == Cloud ==> Who(job) in h.looked)
  }

  ghost predicate AllReady(h: History, js: seq<Job>) { forall job | job in js :: Ready(h, job) }

  ghost predicate AllFor(files: bool, js: seq<Job>) { forall job | job in js :: (job.route == File) == files }

  ghost predicate LoopRoutes(h: History, a: LoopState)
  {
    && AllReady(h, a.pending) && AllReady(h, a.resolving) && AllReady(h, a.retries) && AllReady(h, a.active)
    && AllReady(h, a.waiting)
  }

  predicate LoopHand(h: History, hand: Hand)
  {
    match hand
    case Starting(job) => Ready(h, job)
    case Ended(job) => Ready(h, job) && Who(job) in h.ran
    case Delivering(job) => job.route != File && (Who(job) in h.settled || Who(job) in h.failed)
    case _ => true
  }

  predicate WorkerHand(h: History, hand: Hand, files: bool)
  {
    match hand
    case Checking(job) => (job.route == File) == files
    case Starting(job) => (job.route == File) == files
    case Vetted(job) => job.route != File && !files
    case Delivering(job) => (job.route == File) == files && (Who(job) in h.failed || (files && Who(job) in h.read))
    case _ => true
  }

  ghost predicate ActorRoutes(h: History, a: Actor)
  {
    match a.role
    case Loop(loop) => LoopRoutes(h, loop) && LoopHand(h, a.hand)
    case Worker(files) => WorkerHand(h, a.hand, files)
    case Client(_, jobs) => AllReady(h, jobs)
  }

  /** Every transfer is where its route leads, after what its way there asks for. */
  ghost predicate RoutesInv(s: State, h: History)
  {
    && AllFor(true, s.files) && AllFor(false, s.credentials) && AllReady(h, s.http)
    && forall k | 0 <= k < |s.actors| :: ActorRoutes(h, s.actors[k])
  }

  ghost predicate EffectRoutes(h: History, e: Effect)
  {
    && (e.Queues? ==> AllReady(h, e.jobs))
    && (e.Relooks? ==> e.job.route != File)
  }

  ghost predicate OutcomeRoutes(h: History, o: Outcome)
  {
    o.Moved? ==> ActorRoutes(h, o.actor) && EffectRoutes(h, o.effect)
  }

  // ------------------------------------------------------------------ one thread

  lemma NotedGrows(h: History, a: Actor, move: Move)
    ensures Within(h, Noted(h, a, move))
  {}

  lemma ActorStays(h: History, g: History, a: Actor)
    requires Within(h, g) && ActorRoutes(h, a)
    ensures ActorRoutes(g, a)
  {}

  lemma FinishingKeepsRoutes(h: History, a: Actor, move: Move)
    requires ActorRoutes(h, a)
    ensures OutcomeRoutes(h, Finishing(a, move))
  {}

  lemma LaunchKeepsRoutes(h: History, a: LoopState, job: Job, how: Launching)
    requires LoopRoutes(h, a) && Ready(h, job)
    ensures OutcomeRoutes(Noted(h, Actor(Starting(job), Loop(a)), Launch(how)), LaunchMove(a, job, how))
  {}

  lemma SettleKeepsRoutes(h: History, a: LoopState, job: Job, verdict: Verdict)
    requires LoopRoutes(h, a) && Ready(h, job) && Who(job) in h.ran
    ensures OutcomeRoutes(Noted(h, Actor(Ended(job), Loop(a)), Settle(verdict)), SettleMove(a, job, verdict))
  {}

  lemma SweepKeepsRoutes(h: History, a: LoopState, which: nat, at: nat, cancelled: set<nat>)
    requires LoopRoutes(h, a)
    ensures OutcomeRoutes(h, SweepMove(a, which, at, cancelled))
  {
    if at < |Container(a, which)| { FewerAreReady(h, Container(a, which), at); }
    hide RemoveAt, AllReady;
  }

  lemma FewerAreReady(h: History, js: seq<Job>, i: nat)
    requires i < |js|
    ensures AllReady(h, js) ==> AllReady(h, RemoveAt(js, i))
  {
    assert forall job | job in RemoveAt(js, i) :: job in js;
  }

  lemma RequeueKeepsRoutes(h: History, a: LoopState, at: nat, due: bool)
    requires LoopRoutes(h, a)
    ensures OutcomeRoutes(h, RequeueMove(a, at, due))
  {}

  lemma StartKeepsRoutes(h: History, a: LoopState, job: Job, cancelled: set<nat>)
    requires LoopRoutes(h, a) && Ready(h, job)
    ensures OutcomeRoutes(h, StartOrDiscard(a, job, cancelled))
  {}

  lemma CompleteKeepsRoutes(h: History, a: LoopState, k: nat)
    requires LoopRoutes(h, a) && k < |a.active|
    ensures OutcomeRoutes(Noted(h, Actor(Empty, Loop(a)), Complete(k)),
                          InLoop(Ended(a.active[k]), a.(active := RemoveAt(a.active, k)), Nothing))
  {
    assert a.active[k] in a.active && forall job | job in RemoveAt(a.active, k) :: job in a.active;
  }

  lemma FreeKeepsRoutes(h: History, a: LoopState, move: Move, cancelled: set<nat>, http: seq<Job>)
    requires LoopRoutes(h, a) && AllReady(h, http)
    ensures OutcomeRoutes(Noted(h, Actor(Empty, Loop(a)), move), FreeLoopMove(a, move, cancelled, http))
  {
    hide SweepMove, RequeueMove, StartOrDiscard, TakeCount;
    match a.phase
    case Sweeping(which, at) => SweepKeepsRoutes(h, a, which, at, cancelled);
    case Requeueing(at) => if move.Requeue? { RequeueKeepsRoutes(h, a, at, move.due); }
    case Restarting =>
      if a.waiting != [] { StartKeepsRoutes(h, a.(waiting := a.waiting[1..]), a.waiting[0], cancelled); }
    case Filling =>
      if a.pending != [] { StartKeepsRoutes(h, a.(pending := a.pending[1..]), a.pending[0], cancelled); }
    case Performing =>
      if move.Complete? && move.k < |a.active| { CompleteKeepsRoutes(h, a, move.k); }
    case _ =>
  }

  lemma LoopKeepsRoutes(h: History, hand: Hand, a: LoopState, move: Move, cancelled: set<nat>, http: seq<Job>)
    requires ActorRoutes(h, Actor(hand, Loop(a))) && AllReady(h, http)
    ensures OutcomeRoutes(Noted(h, Actor(hand, Loop(a)), move), LoopMove(hand, a, move, cancelled, http))
  {
    hide FreeLoopMove, LaunchMove, SettleMove, Finishing, LoopRoutes, AllReady;
    match hand
    case Empty => FreeKeepsRoutes(h, a, move, cancelled, http);
    case Starting(job) => if move.Launch? { LaunchKeepsRoutes(h, a, job, move.how); }
    case Ended(job) => if move.Settle? { SettleKeepsRoutes(h, a, job, move.verdict); }
    case _ => EndKeepsRoutes(h, Actor(hand, Loop(a)), move);
  }

  /** The steps that end a transfer note nothing. */
  lemma EndKeepsRoutes(h: History, a: Actor, move: Move)
    requires ActorRoutes(h, a) && !a.hand.Starting? && !a.hand.Ended? && !a.hand.Empty?
    ensures OutcomeRoutes(Noted(h, a, move), Finishing(a, move))
  {
    if Finishing(a, move).Moved? {
      FinishingKeepsRoutes(h, a, move);
    }
  }

  lemma WorkerKeepsRoutes(h: History, hand: Hand, files: bool, move: Move, cancelled: set<nat>, queue: seq<Job>)
    requires WorkerHand(h, hand, files) && AllFor(files, queue)
    ensures OutcomeRoutes(Noted(h, Actor(hand, Worker(files)), move), WorkerMove(hand, files, move, cancelled, queue))
  {
    hide Finishing;
    match hand
    case Delivering(_) => EndKeepsRoutes(h, Actor(hand, Worker(files)), move);
    case Closing(_) => EndKeepsRoutes(h, Actor(hand, Worker(files)), move);
    case Ended(_) => FinishingKeepsRoutes(h, Actor(hand, Worker(files)), move); NothingEnds(hand, files, move);
    case _ =>
  }

  lemma NothingEnds(hand: Hand, files: bool, move: Move)
    requires hand.Ended?
    ensures Finishing(Actor(hand, Worker(files)), move).Stuck?
  {}

  // ------------------------------------------------------------------ the whole engine

  lemma ActKeepsRoutes(s: State, s': State, k: nat, move: Move, h: History)
    requires RoutesInv(s, h) && ActStep(s, s', k, move)
    ensures RoutesInv(s', Noted(h, s.actors[k], move))
  {
    hide LoopMove, WorkerMove, ActorRoutes, Noted;
    var g, o := Noted(h, s.actors[k], move), ActorMove(s, k, move);
    NotedGrows(h, s.actors[k], move);
    assert ActorRoutes(h, s.actors[k]);
    MoverKeepsRoutes(s, k, move, h);
    EffectKeepsQueues(s.(actors := s.actors[k := o.actor]), o.effect, g);
    forall i | 0 <= i < |s'.actors| ensures ActorRoutes(g, s'.actors[i]) {
      if i != k { ActorStays(h, g, s.actors[i]); }
    }
  }

  lemma MoverKeepsRoutes(s: State, k: nat, move: Move, h: History)
    requires RoutesInv(s, h) && k < |s.actors|
    ensures OutcomeRoutes(Noted(h, s.actors[k], move), ActorMove(s, k, move))
  {
    hide LoopMove, WorkerMove, AllReady, LoopRoutes, LoopHand;
    assert ActorRoutes(h, s.actors[k]);
    var Actor(hand, role) := s.actors[k];
    match role
    case Loop(loop) => LoopKeepsRoutes(h, hand, loop, move, Cancelled(s), s.http);
    case Worker(files) =>
      WorkerKeepsRoutes(h, hand, files, move, Cancelled(s), if files then s.files else s.credentials);
    case Client(_, _) =>
  }

  ghost predicate QueuesRoutes(s: State, h: History)
  {
    AllFor(true, s.files) && AllFor(false, s.credentials) && AllReady(h, s.http)
  }

  lemma EffectKeepsQueues(s: State, e: Effect, h: History)
    requires QueuesRoutes(s, h) && EffectRoutes(h, e)
    ensures QueuesRoutes(Apply(s, e), h) && Apply(s, e).actors == s.actors
  {}

  lemma {:induction false} RoutedAre(js: seq<Job>, route: Route)
    ensures forall job | job in Routed(js, route) :: job.route == route
  {
    if js != [] { RoutedAre(js[1..], route); }
  }

  lemma {:induction false} WithoutAre(js: seq<Job>, b: nat)
    ensures forall job | job in Without(js, b) :: job in js
  {
    if js != [] { WithoutAre(js[1..], b); }
  }

  lemma ClientKeepsRoutes(s: State, s': State, step: Step, h: History)
    requires RoutesInv(s, h) && ClientStep(s, s', step)
    ensures RoutesInv(s', h)
  {
    hide LoopRoutes, LoopHand, WorkerHand;
    match step
    case Submit(k, jobs, immediate) =>
      RoutedAre(jobs, File);
      RoutedAre(jobs, Cloud);
      RoutedAre(jobs, Http);
    case Enqueue(k) => assert ActorRoutes(h, s.actors[k]);
    case _ =>
  }

  lemma CancelKeepsRoutes(s: State, s': State, step: Step, h: History)
    requires RoutesInv(s, h) && CancelStep(s, s', step)
    ensures RoutesInv(s', h)
  {
    hide LoopHand, WorkerHand, DiscardAll;
    match step
    case CancelPurge(b) =>
      WithoutAre(s.files, b);
      WithoutAre(s.credentials, b);
    case CancelPurgeHttp(b) => WithoutAre(s.http, b);
    case CancelNotify(b) =>
      var k := s.batches[b].cancel.k;
      if k < |s.actors| { assert ActorRoutes(h, s.actors[k]); }
    case _ =>
  }

  lemma StepKeepsRoutes(s: State, s': State, step: Step, h: History)
    requires RoutesInv(s, h) && StepOf(s, s', step)
    ensures RoutesInv(s', NotedIn(h, s, step))
  {
    hide RoutesInv, ActStep, ClientStep, CancelStep, Noted;
    if step.Act? {
      ActIsPossible(s, s', step.k, step.move);
      ActKeepsRoutes(s, s', step.k, step.move, h);
    } else if ClientStep(s, s', step) {
      ClientKeepsRoutes(s, s', step, h);
    } else {
      CancelKeepsRoutes(s, s', step, h);
    }
  }

  lemma {:induction false} RunKeepsRoutes(
      states: seq<State>, steps: seq<Step>, concurrency: nat, ioThreads: nat, n: nat)
    requires IsRun(states, steps, concurrency, ioThreads) && n < |states|
    ensures RoutesInv(states[n], HistoryOf(states, steps, n))
  {
    hide RoutesInv, StepOf, NotedIn;
    if n == 0 {
      InitHasRoutes(states[0], concurrency, ioThreads);
    } else {
      hide Init;
      RunKeepsRoutes(states, steps, concurrency, ioThreads, n - 1);
      StepKeepsRoutes(states[n - 1], states[n], steps[n - 1], HistoryOf(states, steps, n - 1));
    }
  }

  lemma ActIsPossible(s: State, s': State, k: nat, move: Move)
    requires ActStep(s, s', k, move)
    ensures k < |s.actors|
  {}

  lemma InitHasRoutes(s: State, concurrency: nat, ioThreads: nat)
    requires Init(s, concurrency, ioThreads)
    ensures RoutesInv(s, History({}, {}, {}, {}, {}))
  {}

  // ------------------------------------------------------------------ from the history to the steps

  lemma {:induction false} SettledAt(states: seq<State>, steps: seq<Step>, n: nat, who: Identity) returns (m: nat)
    requires n <= |states| && n <= |steps| && who in HistoryOf(states, steps, n).settled
    ensures m < n && Settles(states[m], steps[m], who)
  {
    m := n - 1;
    if !Settles(states[m], steps[m], who) { m := SettledAt(states, steps, n - 1, who); }
  }

  lemma {:induction false} RanAt(states: seq<State>, steps: seq<Step>, n: nat, who: Identity) returns (m: nat)
    requires n <= |states| && n <= |steps| && who in HistoryOf(states, steps, n).ran
    ensures m < n && EndsRequest(states[m], steps[m], who)
  {
    m := n - 1;
    if !EndsRequest(states[m], steps[m], who) { m := RanAt(states, steps, n - 1, who); }
  }

  lemma {:induction false} LookedUpAt(states: seq<State>, steps: seq<Step>, n: nat, who: Identity) returns (m: nat)
    requires n <= |states| && n <= |steps| && who in HistoryOf(states, steps, n).looked
    ensures m < n && LooksUp(states[m], steps[m], who)
  {
    m := n - 1;
    if !LooksUp(states[m], steps[m], who) { m := LookedUpAt(states, steps, n - 1, who); }
  }

  lemma {:induction false} FailedHasFailed(states: seq<State>, steps: seq<Step>, n: nat, who: Identity)
    requires n <= |states| && n <= |steps| && who in HistoryOf(states, steps, n).failed
    ensures HasFailed(states, steps, n, who)
  {
    if !ReportsFailure(states[n - 1], steps[n - 1], who) { FailedHasFailed(states, steps, n - 1, who); }
  }

  lemma {:induction false} ReadWasRead(states: seq<State>, steps: seq<Step>, n: nat, who: Identity)
    requires n <= |states| && n <= |steps| && who in HistoryOf(states, steps, n).read
    ensures WasRead(states, steps, n, who)
  {
    if !ReadsFile(states[n - 1], steps[n - 1], who) { ReadWasRead(states, steps, n - 1, who); }
  }

  // ------------------------------------------------------------------ the results

  /** A transfer of a file is never queued for HTTP, and no I/O loop ever has it. */
  lemma FilesStayOffTheLoops(
      states: seq<State>, steps: seq<Step>, concurrency: nat, ioThreads: nat, n: nat, k: nat, job: Job)
    requires IsRun(states, steps, concurrency, ioThreads) && n < |states| && k < |states[n].actors|
    requires job.route == File && states[n].actors[k].role.Loop?
    ensures
      var s, a := states[n], states[n].actors[k].role.loop;
      && job !in s.http && job !in s.credentials
      && job !in a.pending && job !in a.resolving && job !in a.retries && job !in a.active && job !in a.waiting
  {
    RunHasStates(states, steps, concurrency, ioThreads);
    hide IsRun;
    RunKeepsRoutes(states, steps, concurrency, ioThreads, n);
    assert ActorRoutes(HistoryOf(states, steps, n), states[n].actors[k]);
  }

  /** Its part of the run up to step n: the transfer's lookup, if it needs one, then the end of its request on
      a loop, then the decision that it is finished. */
  ghost predicate WentThroughLoop(states: seq<State>, steps: seq<Step>, n: nat, who: Identity)
    requires n <= |states| && n <= |steps|
  {
    exists m, r | 0 <= r < m < n ::
      && Settles(states[m], steps[m], who) && EndsRequest(states[r], steps[r], who)
      && (who.route == Cloud ==> exists l | 0 <= l < r :: LooksUp(states[l], steps[l], who))
  }

  ghost predicate HasFailed(states: seq<State>, steps: seq<Step>, n: nat, who: Identity)
    requires n <= |states| && n <= |steps|
  {
    exists m | 0 <= m < n :: ReportsFailure(states[m], steps[m], who)
  }

  ghost predicate WasRead(states: seq<State>, steps: seq<Step>, n: nat, who: Identity)
    requires n <= |states| && n <= |steps|
  {
    exists m | 0 <= m < n :: ReadsFile(states[m], steps[m], who)
  }

  lemma SettledWentThroughLoop(
      states: seq<State>, steps: seq<Step>, concurrency: nat, ioThreads: nat, n: nat, who: Identity)
    requires IsRun(states, steps, concurrency, ioThreads) && n < |states|
    requires who in HistoryOf(states, steps, n).settled
    ensures WentThroughLoop(states, steps, n, who)
  {
    hide IsRun, HistoryOf, RoutesInv;
    assert |states| == |steps| + 1 by { RunHasStates(states, steps, concurrency, ioThreads); }
    var m := SettledAt(states, steps, n, who);
    EndedHasRun(states, steps, concurrency, ioThreads, m, who);
    var r := RanAt(states, steps, m, who);
    if who.route == Cloud {
      ActiveIsLookedUp(states, steps, concurrency, ioThreads, r, who);
      var l := LookedUpAt(states, steps, r, who);
    }
  }

  lemma RunHasStates(states: seq<State>, steps: seq<Step>, concurrency: nat, ioThreads: nat)
    requires IsRun(states, steps, concurrency, ioThreads)
    ensures |states| == |steps| + 1
  {}

  lemma EndedHasRun(states: seq<State>, steps: seq<Step>, concurrency: nat, ioThreads: nat, m: nat, who: Identity)
    requires IsRun(states, steps, concurrency, ioThreads) && m < |steps| && Settles(states[m], steps[m], who)
    ensures who in HistoryOf(states, steps, m).ran
  {
    RunKeepsRoutes(states, steps, concurrency, ioThreads, m);
    hide IsRun, HistoryOf, LoopRoutes;
    assert ActorRoutes(HistoryOf(states, steps, m), states[m].actors[steps[m].k]);
  }

  lemma ActiveIsLookedUp(states: seq<State>, steps: seq<Step>, concurrency: nat, ioThreads: nat, r: nat, who: Identity)
    requires IsRun(states, steps, concurrency, ioThreads) && r < |steps| && EndsRequest(states[r], steps[r], who)
    requires who.route == Cloud
    ensures who in HistoryOf(states, steps, r).looked
  {
    RunKeepsRoutes(states, steps, concurrency, ioThreads, r);
    hide IsRun, HistoryOf, LoopHand;
    assert ActorRoutes(HistoryOf(states, steps, r), states[r].actors[steps[r].k]);
    var active := states[r].actors[steps[r].k].role.loop.active;
    assert active[steps[r].move.k] in active;
  }

  lemma DeliveryIsNoted(s: State, h: History, k: nat, job: Job)
    requires RoutesInv(s, h) && k < |s.actors| && s.actors[k].hand == Delivering(job) && !s.actors[k].role.Client?
    ensures Who(job) in h.failed || Who(job) in if job.route == File then h.read else h.settled
  {
    assert ActorRoutes(h, s.actors[k]);
  }

  /** Whoever delivers a transfer does so for a reason: a file has been read, anything else has gone through
      a loop, or a step has failed. */
  lemma DeliveryHasReason(
      states: seq<State>, steps: seq<Step>, concurrency: nat, ioThreads: nat, n: nat, k: nat, job: Job)
    requires IsRun(states, steps, concurrency, ioThreads) && n < |states| && k < |states[n].actors|
    requires states[n].actors[k].hand == Delivering(job) && !states[n].actors[k].role.Client?
    ensures n <= |steps|
    ensures
      || HasFailed(states, steps, n, Who(job))
      || (if job.route == File then WasRead(states, steps, n, Who(job))
          else WentThroughLoop(states, steps, n, Who(job)))
  {
    hide IsRun, HistoryOf, RoutesInv, WentThroughLoop, HasFailed, WasRead;
    RunHasStates(states, steps, concurrency, ioThreads);
    RunKeepsRoutes(states, steps, concurrency, ioThreads, n);
    var h, who := HistoryOf(states, steps, n), Who(job);
    DeliveryIsNoted(states[n], h, k, job);
    if who in h.failed {
      FailedHasFailed(states, steps, n, who);
    } else if job.route == File {
      ReadWasRead(states, steps, n, who);
    } else {
      SettledWentThroughLoop(states, steps, concurrency, ioThreads, n, who);
    }
  }

  lemma FinishingPushes(a: Actor, move: Move, b: nat, tag: Tag)
    requires Finishing(a, move).Moved? && Finishing(a, move).effect == Pushes(b, tag)
    ensures a.hand.Delivering? && a.hand.job.batch == b && a.hand.job.parts != [] && a.hand.job.parts[0] == tag
  {}

  lemma FreePushesNothing(a: LoopState, move: Move, cancelled: set<nat>, http: seq<Job>)
    ensures var o := FreeLoopMove(a, move, cancelled, http); o.Moved? ==> !o.effect.Pushes?
  {
    hide TakeCount, Container, WithContainer, RemoveAt;
  }

  lemma MoverPushes(s: State, k: nat, move: Move, b: nat, tag: Tag)
    requires k < |s.actors| && ActorMove(s, k, move).Moved? && ActorMove(s, k, move).effect == Pushes(b, tag)
    ensures
      var a := s.actors[k];
      && !a.role.Client? && a.hand.Delivering? && a.hand.job.batch == b
      && a.hand.job.parts != [] && a.hand.job.parts[0] == tag
  {
    hide Finishing, FreeLoopMove;
    var a := s.actors[k];
    if a.role.Loop? { FreePushesNothing(a.role.loop, move, Cancelled(s), s.http); }
    if a.hand.Delivering? || a.hand.Closing? || a.hand.Checking? || a.hand.Vetted? || a.hand.Ended? {
      assert a == Actor(a.hand, a.role);
      if Finishing(a, move).Moved? && Finishing(a, move).effect == Pushes(b, tag) { FinishingPushes(a, move, b, tag); }
    }
  }

  lemma EffectPushes(s: State, e: Effect, b: nat)
    requires b < |s.batches|
    ensures b < |Apply(s, e).batches|
    ensures Apply(s, e).batches[b].ledger.ready ==
            s.batches[b].ledger.ready + if e.Pushes? && e.batch == b then [e.tag] else []
  {}

  lemma {:induction false} DiscardPushesNothing(b: BatchRecord, js: seq<Job>)
    ensures DiscardAll(b, js).ledger.ready == b.ledger.ready
    decreases |js|
  {
    if js != [] {
      DiscardPushesNothing(b.(ledger := TransferFinished(b.ledger), dropped := b.dropped + multiset(js[0].parts)),
                           js[1..]);
    }
  }

  lemma OthersPushNothing(s: State, s': State, step: Step, b: nat)
    requires (ClientStep(s, s', step) || CancelStep(s, s', step)) && b < |s.batches|
    ensures b < |s'.batches| && |s'.batches[b].ledger.ready| <= |s.batches[b].ledger.ready|
  {
    if step.CancelPurge? {
      DiscardPushesNothing(s.batches[step.b], Only(s.files, step.b) + Only(s.credentials, step.b));
    } else if step.CancelPurgeHttp? {
      DiscardPushesNothing(s.batches[step.b], Only(s.http, step.b));
    }
    hide DiscardAll;
  }

  /** A completion that appears in a batch is the next part of a transfer that a thread delivers. */
  lemma CompletionIsDelivery(s: State, s': State, step: Step, b: nat)
    requires StepOf(s, s', step) && b < |s.batches|
    ensures b < |s'.batches|
    ensures |s'.batches[b].ledger.ready| > |s.batches[b].ledger.ready| ==>
      && step.Act? && step.k < |s.actors| && !s.actors[step.k].role.Client?
      && s.actors[step.k].hand.Delivering? && s.actors[step.k].hand.job.batch == b
      && s.actors[step.k].hand.job.parts != []
      && s'.batches[b].ledger.ready == s.batches[b].ledger.ready + [s.actors[step.k].hand.job.parts[0]]
  {
    hide ActorMove, Apply, ClientStep, CancelStep;
    if step.Act? {
      var o := ActorMove(s, step.k, step.move);
      EffectPushes(s.(actors := s.actors[step.k := o.actor]), o.effect, b);
      if o.effect.Pushes? { MoverPushes(s, step.k, step.move, o.effect.batch, o.effect.tag); }
    } else {
      OthersPushNothing(s, s', step, b);
    }
  }

  /** In every run: a part is completed only when its file has been read, when its request has run on an I/O
      loop and was settled there, or when one of the transfer's steps has failed. */
  lemma CompletionHasReason(
      states: seq<State>, steps: seq<Step>, concurrency: nat, ioThreads: nat, n: nat, b: nat)
    requires IsRun(states, steps, concurrency, ioThreads) && n < |steps| && n + 1 < |states|
    requires b < |states[n].batches| && b < |states[n + 1].batches|
    requires |states[n + 1].batches[b].ledger.ready| > |states[n].batches[b].ledger.ready|
    ensures steps[n].Act? && steps[n].k < |states[n].actors| && states[n].actors[steps[n].k].hand.Delivering?
    ensures
      var job := states[n].actors[steps[n].k].hand.job;
      && job.batch == b && job.parts != []
      && states[n + 1].batches[b].ledger.ready == states[n].batches[b].ledger.ready + [job.parts[0]]
      && (|| HasFailed(states, steps, n, Who(job))
          || (if job.route == File then WasRead(states, steps, n, Who(job))
              else WentThroughLoop(states, steps, n, Who(job))))
  {
    hide StepOf, Init, HasFailed, WasRead, WentThroughLoop;
    CompletionIsDelivery(states[n], states[n + 1], steps[n], b);
    var job := states[n].actors[steps[n].k].hand.job;
    DeliveryHasReason(states, steps, concurrency, ioThreads, n, steps[n].k, job);
  }

  // ------------------------------------------------------------------ what a cancel and a retry change

  /** A file read or a lookup that succeeds after its batch was marked is discarded, not delivered. */
  lemma CancelledWorkIsDiscarded(s: State, s': State, k: nat, job: Job)
    requires ActStep(s, s', k, Conclude(false)) && s.actors[k].hand == Starting(job) && s.actors[k].role.Worker?
    requires job.batch < |s.batches| && s.batches[job.batch].ledger.cancelled
    ensures s'.actors[k].hand == Closing(job.batch)
    ensures s'.batches[job.batch].ledger == s.batches[job.batch].ledger
    ensures s'.batches[job.batch].dropped == s.batches[job.batch].dropped + multiset(job.parts)
  {
    assert job.batch in Cancelled(s);
  }

  /** How often a transfer waits for its retry. */
  function Delayed(a: Actor, job: Job): nat { if a.role.Loop? then multiset(a.role.loop.retries)[job] else 0 }

  /** A retry is put off until its time has come: the transfer waits among the retries and leaves them only when
      it is due, or because its batch was cancelled. */
  lemma RetryWaitsUntilDue(s: State, s': State, k: nat, move: Move, job: Job)
    requires ActStep(s, s', k, move) && k < |s'.actors|
    ensures move == Settle(Retry) && s.actors[k].hand == Ended(job) ==>
              Delayed(s'.actors[k], job) == Delayed(s.actors[k], job) + 1 && s'.actors[k].hand == Empty
    ensures Delayed(s'.actors[k], job) < Delayed(s.actors[k], job) ==>
              move == Requeue(true) || (move == Sweep && job.batch in Cancelled(s))
  {
    hide LoopMove, WorkerMove, Apply, Delayed;
    var o := ActorMove(s, k, move);
    Guarantees.EffectKeepsActors(s.(actors := s.actors[k := o.actor]), o.effect);
    match s.actors[k].role
    case Loop(loop) => DelayOfLoop(s.actors[k].hand, loop, move, Cancelled(s), s.http, job);
    case Worker(files) =>
      DelayOfWorker(s.actors[k].hand, files, move, Cancelled(s), if files then s.files else s.credentials, job);
    case Client(_, _) =>
  }

  lemma DelayOfWorker(hand: Hand, files: bool, move: Move, cancelled: set<nat>, queue: seq<Job>, job: Job)
    requires WorkerMove(hand, files, move, cancelled, queue).Moved?
    ensures Delayed(WorkerMove(hand, files, move, cancelled, queue).actor, job)
         == Delayed(Actor(hand, Worker(files)), job)
    ensures move != Settle(Retry)
  {}

  ghost predicate DelayKept(a: LoopState, o: Outcome, job: Job)
  {
    o.Moved? ==> o.actor.role.Loop? && multiset(o.actor.role.loop.retries)[job] >= multiset(a.retries)[job]
  }

  lemma DelayOfFree(a: LoopState, move: Move, cancelled: set<nat>, http: seq<Job>, job: Job)
    ensures
      var o := FreeLoopMove(a, move, cancelled, http);
      DelayKept(a, o, job) || (o.Moved? && o.actor.role.Loop?
                               && (move == Requeue(true) || (move == Sweep && job.batch in cancelled)))
  {
    hide TakeCount, SweepMove, RequeueMove, StartOrDiscard, RemoveAt;
    match a.phase
    case Sweeping(which, at) => DelayOfSweep(a, which, at, cancelled, job);
    case Requeueing(at) => if move.Requeue? { DelayOfRequeue(a, at, move.due, job); }
    case Restarting => if a.waiting != [] { DelayOfStart(a.(waiting := a.waiting[1..]), a.waiting[0], cancelled, job); }
    case Filling => if a.pending != [] { DelayOfStart(a.(pending := a.pending[1..]), a.pending[0], cancelled, job); }
    case _ =>
  }

  lemma DelayOfSweep(a: LoopState, which: nat, at: nat, cancelled: set<nat>, job: Job)
    ensures var o := SweepMove(a, which, at, cancelled); o.Moved? && o.actor.role.Loop?
    ensures DelayKept(a, SweepMove(a, which, at, cancelled), job) || job.batch in cancelled
  {
    if which == 2 && at < |a.retries| { TakenOut(a.retries, at); }
    hide RemoveAt;
  }

  lemma DelayOfRequeue(a: LoopState, at: nat, due: bool, job: Job)
    ensures var o := RequeueMove(a, at, due); o.Moved? ==> o.actor.role.Loop?
    ensures DelayKept(a, RequeueMove(a, at, due), job) || due
  {
    hide RemoveAt;
  }

  lemma DelayOfStart(a: LoopState, started: Job, cancelled: set<nat>, job: Job)
    ensures DelayKept(a, StartOrDiscard(a, started, cancelled), job)
  {}

  lemma FinishingDelaysNothing(a: Actor, move: Move)
    ensures var o := Finishing(a, move); o.Moved? ==> o.actor.role == a.role && !move.Settle?
  {}

  lemma DelayOfLoop(hand: Hand, a: LoopState, move: Move, cancelled: set<nat>, http: seq<Job>, job: Job)
    requires LoopMove(hand, a, move, cancelled, http).Moved?
    ensures
      var next := LoopMove(hand, a, move, cancelled, http).actor;
      && (move == Settle(Retry) && hand == Ended(job) ==>
            Delayed(next, job) == Delayed(Actor(hand, Loop(a)), job) + 1 && next.hand == Empty)
      && (Delayed(next, job) < Delayed(Actor(hand, Loop(a)), job) ==>
            move == Requeue(true) || (move == Sweep && job.batch in cancelled))
  {
    hide FreeLoopMove, Finishing;
    DelayOfFree(a, move, cancelled, http, job);
    FinishingDelaysNothing(Actor(hand, Loop(a)), move);
  }

  lemma TakenOut(js: seq<Job>, i: nat)
    requires i < |js|
    ensures multiset(RemoveAt(js, i)) == multiset(js) - multiset{js[i]}
  {
    assert js == js[..i] + [js[i]] + js[i + 1..];
  }

  /** Where a transfer goes when its request has come to its end: to its delivery, to the front of what the loop
      starts next, to the front of the credential queue, or among the retries. */
  lemma SettledGoesOn(s: State, s': State, k: nat, verdict: Verdict, job: Job)
    requires ActStep(s, s', k, Settle(verdict)) && s.actors[k].hand == Ended(job)
    ensures k < |s'.actors| && s.actors[k].role.Loop?
    ensures
      var a, next := s.actors[k].role.loop, s'.actors[k];
      match verdict
      case Finish => next == Actor(Delivering(job), Loop(a)) && s'.credentials == s.credentials
      case OtherRegion => next == Actor(Empty, Loop(a.(pending := [job] + a.pending)))
      case NewCredentials => next == Actor(Empty, Loop(a)) && s'.credentials == [job] + s.credentials
      case Retry => next == Actor(Empty, Loop(a.(retries := a.retries + [job])))
  {}
}
