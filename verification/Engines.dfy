/**
  The engine as interleaved atomic steps (src/runtime/engine.cpp): where each transfer of each
  batch is, who works on it, and what that worker does next. A step is at most one access to
  something shared: a queue under its mutex, a batch under its mutex, or an atomic flag. Two kinds of
  steps join several. `Submit` counts a batch's transfers, pushes its immediate completions and fills
  the file and credential queues: until one of its transfers is in a queue, no other thread knows the
  batch. `CancelPurge` and `CancelPurgeHttp` discard what they find under a queue's mutex and count each
  discarded transfer off under the batch's: only the cancelling thread reads that count, and counting
  off commutes with whatever other threads do to the ledger in between.
  Wakeups, timeouts and the bytes themselves are elsewhere (modules Wakeup, HttpRun); what a clock
  or a server decides is a parameter of the step.
*/
module Engines {
  import opened Numbers
  import opened Batches

  type Tag = nat

  datatype Route = File | Cloud | Http

  /** A live transfer. `id` stands for its address; `parts` are the tags it has yet to complete. */
  datatype Job = Job(id: nat, batch: nat, route: Route, parts: seq<Tag>)

  /** What a thread has taken out of every container. */
  datatype Hand =
    | Empty
    | Checking(job: Job)      // popped by a worker, is_cancelled not yet asked
    | Starting(job: Job)      // was not cancelled: in start_transfer, a file read or a credential lookup
    | Vetted(job: Job)        // looked up, was not cancelled: about to be queued for HTTP
    | Ended(job: Job)         // extracted from `active` with curl's result
    | Delivering(job: Job)    // in finish_transfer, `parts` still to be pushed
    | Closing(batch: nat)     // the transfer is destroyed, transfer_finished not yet called

  /** Where an I/O loop is in its turn. `Sweeping` is discard_cancelled_http at element `at` of
      container `which`. */
  datatype Phase =
    | Taking | Flagging | Sweeping(which: nat, at: nat) | Requeueing(at: nat) | Restarting | Filling | Performing

  datatype LoopState = LoopState(phase: Phase, limit: nat, pending: seq<Job>, resolving: seq<Job>, retries: seq<Job>,
                                 active: seq<Job>, waiting: seq<Job>, flag: bool)

  /** A client is a thread in submit: its new batch, and that batch's transfers not yet queued. */
  datatype Role = Loop(loop: LoopState) | Worker(files: bool) | Client(submitting: Option<nat>, jobs: seq<Job>)

  datatype Actor = Actor(hand: Hand, role: Role)

  /** Progress of `cancel` on one batch; `Flagging(k)` has stored the flag of loops 0..k-1. */
  datatype Canceller = Submitting | Open | Marking | Purging | PurgingHttp | Notifying(k: nat) | Waiting | Done

  /** The last three fields record history: what was asked for, handed to consumers, and discarded. */
  datatype BatchRecord = BatchRecord(ledger: Ledger<Tag>, cancel: Canceller,
                                     submitted: multiset<Tag>, returned: multiset<Tag>, dropped: multiset<Tag>)

  /** The first `loops` actors are the I/O loops. */
  datatype State = State(files: seq<Job>, credentials: seq<Job>, http: seq<Job>,
                         actors: seq<Actor>, loops: nat, batches: seq<BatchRecord>, nextId: nat)

  // ------------------------------------------------------------------ sequences of transfers

  function RemoveAt(js: seq<Job>, i: nat): seq<Job>
    requires i < |js|
  {
    js[..i] + js[i + 1..]
  }

  function Without(js: seq<Job>, batch: nat): seq<Job>
  {
    if js == [] then [] else (if js[0].batch == batch then [] else [js[0]]) + Without(js[1..], batch)
  }

  function Only(js: seq<Job>, batch: nat): seq<Job>
  {
    if js == [] then [] else (if js[0].batch == batch then [js[0]] else []) + Only(js[1..], batch)
  }

  function Routed(js: seq<Job>, route: Route): seq<Job>
  {
    if js == [] then [] else (if js[0].route == route then [js[0]] else []) + Routed(js[1..], route)
  }

  function AllParts(js: seq<Job>): seq<Tag>
  {
    if js == [] then [] else js[0].parts + AllParts(js[1..])
  }

  /** How the client-wide limit is split over the loops. */
  function LoopCount(concurrency: nat, ioThreads: nat): nat { Max(1, Min(ioThreads, Min(concurrency, 64))) }

  function LoopLimit(concurrency: nat, count: nat, index: nat): nat
    requires count > 0
  {
    concurrency / count + if index < concurrency % count then 1 else 0
  }

  // ------------------------------------------------------------------ steps of one thread

  /** What a thread's step does outside its own containers. */
  datatype Effect =
    | Nothing
    | TakesHttp(taken: seq<Job>)
    | PopsFile(job: Job)
    | PopsCredential(job: Job)
    | Queues(jobs: seq<Job>)
    | Relooks(job: Job)               // to the front of the credential queue
    | Drops(job: Job)                 // destroys it undelivered
    | Retires(job: Job)               // destroys it after its last part
    | Pushes(batch: nat, tag: Tag)
    | Finishes(batch: nat)

  datatype Move =
    | Take(skip: bool) | Exchange | Sweep | Requeue(due: bool) | Restart | Fill | Launch(how: Launching)
    | Complete(k: nat) | Settle(verdict: Verdict) | Poll
    | Pop | Check | Conclude(fails: bool) | Forward(expired: bool)
    | Deliver | Reset | Close

  datatype Launching = Fails | Resolves | Runs

  /** What the completion of a request decides; module HttpRun says when. */
  datatype Verdict = Finish | OtherRegion | NewCredentials | Retry

  datatype Outcome = Stuck | Moved(actor: Actor, effect: Effect)

  function Discard(role: Role, job: Job): Outcome { Moved(Actor(Closing(job.batch), role), Drops(job)) }

  /** finish_transfer and discard_transfer, after the decision to end the transfer. */
  function Finishing(a: Actor, move: Move): Outcome
  {
    match a.hand
    case Delivering(job) =>
      if move == Deliver && job.parts != [] then
        Moved(a.(hand := Delivering(job.(parts := job.parts[1..]))), Pushes(job.batch, job.parts[0]))
      else if move == Reset && job.parts == [] then Moved(a.(hand := Closing(job.batch)), Retires(job))
      else Stuck
    case Closing(batch) => if move == Close then Moved(a.(hand := Empty), Finishes(batch)) else Stuck
    case _ => Stuck
  }

  /** The containers in the order in which discard_cancelled_http sweeps them. */
  function Container(a: LoopState, which: nat): seq<Job>
  {
    if which == 0 then a.pending else if which == 1 then a.resolving else if which == 2 then a.retries else a.active
  }

  function WithContainer(a: LoopState, which: nat, js: seq<Job>): LoopState
  {
    if which == 0 then a.(pending := js) else if which == 1 then a.(resolving := js)
    else if which == 2 then a.(retries := js) else a.(active := js)
  }

  function TakeCount(a: LoopState, queued: nat): nat
  {
    Min(queued, Max(0, a.limit - |a.active| - |a.pending| - |a.resolving|))
  }

  function InLoop(hand: Hand, a: LoopState, effect: Effect): Outcome { Moved(Actor(hand, Loop(a)), effect) }

  /** One step of io_loop. `cancelled` is what is_cancelled answers now. */
  function LoopMove(hand: Hand, a: LoopState, move: Move, cancelled: set<nat>, http: seq<Job>): Outcome
  {
    match hand
    case Empty => FreeLoopMove(a, move, cancelled, http)
    case Starting(job) => if move.Launch? then LaunchMove(a, job, move.how) else Stuck
    case Ended(job) => if move.Settle? then SettleMove(a, job, move.verdict) else Stuck
    case _ => Finishing(Actor(hand, Loop(a)), move)
  }

  function LaunchMove(a: LoopState, job: Job, how: Launching): Outcome
  {
    match how
    case Fails => InLoop(Delivering(job), a, Nothing)
    case Resolves => InLoop(Empty, a.(resolving := a.resolving + [job]), Nothing)
    case Runs => InLoop(Empty, a.(active := a.active + [job]), Nothing)
  }

  function SettleMove(a: LoopState, job: Job, verdict: Verdict): Outcome
  {
    match verdict
    case Finish => InLoop(Delivering(job), a, Nothing)
    case OtherRegion => InLoop(Empty, a.(pending := [job] + a.pending), Nothing)
    case NewCredentials => InLoop(Empty, a, Relooks(job))
    case Retry => InLoop(Empty, a.(retries := a.retries + [job]), Nothing)
  }

  function FreeLoopMove(a: LoopState, move: Move, cancelled: set<nat>, http: seq<Job>): Outcome
  {
    match a.phase
    case Taking =>
      if !move.Take? then Stuck
      else var n := if move.skip then 0 else TakeCount(a, |http|);
           InLoop(Empty, a.(phase := Flagging, pending := a.pending + http[..n]), TakesHttp(http[..n]))
    case Flagging =>
      if move == Exchange then
        InLoop(Empty, a.(flag := false, phase := if a.flag then Sweeping(0, 0) else Requeueing(0)), Nothing)
      else Stuck
    case Sweeping(which, at) => if move == Sweep then SweepMove(a, which, at, cancelled) else Stuck
    case Requeueing(at) => if move.Requeue? then RequeueMove(a, at, move.due) else Stuck
    case Restarting =>
      if move != Restart then Stuck
      else if a.waiting == [] then InLoop(Empty, a.(phase := Filling), Nothing)
      else StartOrDiscard(a.(waiting := a.waiting[1..]), a.waiting[0], cancelled)
    case Filling =>
      if move != Fill then Stuck
      else if |a.active| + |a.resolving| < a.limit && a.pending != [] then
        StartOrDiscard(a.(pending := a.pending[1..]), a.pending[0], cancelled)
      else InLoop(Empty, a.(phase := Performing), Nothing)
    case Performing =>
      if move.Complete? && move.k < |a.active| then
        InLoop(Ended(a.active[move.k]), a.(active := RemoveAt(a.active, move.k)), Nothing)
      else if move == Poll then InLoop(Empty, a.(phase := Taking), Nothing)
      else Stuck
  }

  function SweepMove(a: LoopState, which: nat, at: nat, cancelled: set<nat>): Outcome
  {
    var js := Container(a, which);
    if at >= |js| then
      InLoop(Empty, a.(phase := if which < 3 then Sweeping(which + 1, 0) else Requeueing(0)), Nothing)
    else if js[at].batch in cancelled then Discard(Loop(WithContainer(a, which, RemoveAt(js, at))), js[at])
    else InLoop(Empty, a.(phase := Sweeping(which, at + 1)), Nothing)
  }

  /** Due retries become pending; then the transfers that wait for a lookup are set aside. */
  function RequeueMove(a: LoopState, at: nat, due: bool): Outcome
  {
    if at < |a.retries| then
      if due then
        InLoop(Empty, a.(pending := a.pending + [a.retries[at]], retries := RemoveAt(a.retries, at)), Nothing)
      else InLoop(Empty, a.(phase := Requeueing(at + 1)), Nothing)
    else if a.waiting == [] then
      InLoop(Empty, a.(phase := Restarting, waiting := a.resolving, resolving := []), Nothing)
    else Stuck
  }

  function StartOrDiscard(a: LoopState, job: Job, cancelled: set<nat>): Outcome
  {
    if job.batch in cancelled then Discard(Loop(a), job) else InLoop(Starting(job), a, Nothing)
  }

  /** One step of file_loop or credential_loop on its queue. */
  function WorkerMove(hand: Hand, files: bool, move: Move, cancelled: set<nat>, queue: seq<Job>): Outcome
  {
    var role := Worker(files);
    match hand
    case Empty =>
      if move == Pop && queue != [] then
        Moved(Actor(Checking(queue[0]), role), if files then PopsFile(queue[0]) else PopsCredential(queue[0]))
      else Stuck
    case Checking(job) =>
      if move != Check then Stuck
      else if job.batch in cancelled then Discard(role, job)
      else Moved(Actor(Starting(job), role), Nothing)
    case Starting(job) =>
      if !move.Conclude? then Stuck
      else if move.fails then Moved(Actor(Delivering(job), role), Nothing)
      else if job.batch in cancelled then Discard(role, job)
      else Moved(Actor(if files then Delivering(job) else Vetted(job), role), Nothing)
    case Vetted(job) =>
      if !move.Forward? then Stuck
      else if move.expired then Moved(Actor(Delivering(job), role), Nothing)
      else Moved(Actor(Empty, role), Queues([job]))
    case _ => Finishing(Actor(hand, role), move)
  }

  // ------------------------------------------------------------------ steps of the whole engine

  function Cancelled(s: State): set<nat> { set b: nat | b < |s.batches| && s.batches[b].ledger.cancelled :: b }

  function SetBatch(s: State, b: nat, to: BatchRecord): State
    requires b < |s.batches|
  {
    s.(batches := s.batches[b := to])
  }

  function SetLedger(s: State, b: nat, to: Ledger<Tag>): State
    requires b < |s.batches|
  {
    SetBatch(s, b, s.batches[b].(ledger := to))
  }

  /** A batch the engine has never seen has no ledger to change; ConservationHolds shows that no
      transfer belongs to one. */
  function Apply(s: State, e: Effect): State
  {
    match e
    case Nothing | Retires(_) => s
    case TakesHttp(taken) => if |taken| <= |s.http| then s.(http := s.http[|taken|..]) else s
    case PopsFile(_) => if s.files != [] then s.(files := s.files[1..]) else s
    case PopsCredential(_) => if s.credentials != [] then s.(credentials := s.credentials[1..]) else s
    case Queues(jobs) => s.(http := s.http + jobs)
    case Relooks(job) => s.(credentials := [job] + s.credentials)
    case Drops(job) =>
      if job.batch < |s.batches| then
        SetBatch(s, job.batch, s.batches[job.batch].(dropped := s.batches[job.batch].dropped + multiset(job.parts)))
      else s
    case Pushes(b, tag) => if b < |s.batches| then SetLedger(s, b, Push(s.batches[b].ledger, tag)) else s
    case Finishes(b) => if b < |s.batches| then SetLedger(s, b, TransferFinished(s.batches[b].ledger)) else s
  }

  function ActorMove(s: State, k: nat, move: Move): Outcome
    requires k < |s.actors|
  {
    var Actor(hand, role) := s.actors[k];
    match role
    case Loop(loop) => LoopMove(hand, loop, move, Cancelled(s), s.http)
    case Worker(files) => WorkerMove(hand, files, move, Cancelled(s), if files then s.files else s.credentials)
    case Client(_, _) => Stuck
  }

  /** discard_transfer of every listed transfer of a batch. */
  function DiscardAll(b: BatchRecord, js: seq<Job>): BatchRecord
    decreases |js|
  {
    if js == [] then b
    else DiscardAll(b.(ledger := TransferFinished(b.ledger), dropped := b.dropped + multiset(js[0].parts)), js[1..])
  }

  function SetRole(s: State, k: nat, role: Role): seq<Actor>
    requires k < |s.actors|
  {
    s.actors[k := s.actors[k].(role := role)]
  }

  datatype Step =
    | Act(k: nat, move: Move)
    | Submit(k: nat, jobs: seq<Job>, immediate: seq<Tag>) | Enqueue(k: nat)
    | Next(b: nat)
    | CancelBegin(b: nat) | CancelMark(b: nat) | CancelPurge(b: nat) | CancelPurgeHttp(b: nat)
    | CancelNotify(b: nat) | CancelReturn(b: nat)

  /** The plan of a new batch: fresh transfers, numbered in order. */
  ghost predicate IsPlanFor(s: State, jobs: seq<Job>)
  {
    forall i | 0 <= i < |jobs| :: jobs[i].batch == |s.batches| && jobs[i].id == s.nextId + i
  }

  function NewBatch(jobs: seq<Job>, immediate: seq<Tag>): BatchRecord
  {
    BatchRecord(Ledger(immediate, |AllParts(jobs)|, |jobs|, false), Submitting,
          multiset(AllParts(jobs)) + multiset(immediate), multiset{}, multiset{})
  }

  /** submit has returned: the caller can cancel from now on. */
  function Opened(b: BatchRecord): BatchRecord { if b.cancel == Submitting then b.(cancel := Open) else b }

  ghost predicate ClientStep(s: State, s': State, step: Step)
  {
    match step
    case Submit(k, jobs, immediate) =>
      && k < |s.actors| && s.actors[k].role == Client(None, []) && IsPlanFor(s, jobs)
      && s' == s.(files := s.files + Routed(jobs, File), credentials := s.credentials + Routed(jobs, Cloud),
                  actors := SetRole(s, k, Client(Some(|s.batches|), Routed(jobs, Http))),
                  batches := s.batches + [NewBatch(jobs, immediate)], nextId := s.nextId + |jobs|)
    case Enqueue(k) =>
      && k < |s.actors| && s.actors[k].role.Client? && s.actors[k].role.submitting.Some?
      && var Client(submitting, jobs) := s.actors[k].role;
      && submitting.value < |s.batches|
      && s' == SetBatch(s.(http := s.http + jobs, actors := SetRole(s, k, Client(None, []))),
                        submitting.value, Opened(s.batches[submitting.value]))
    case Next(b) =>
      && b < |s.batches|
      && var batch := s.batches[b];
      && batch.ledger.ready != []
      && s' == SetBatch(s, b, batch.(ledger := Batches.Take(batch.ledger),
                                     returned := batch.returned + multiset{batch.ledger.ready[0]}))
    case _ => false
  }

  ghost predicate CancelStep(s: State, s': State, step: Step)
  {
    match step
    case CancelBegin(b) =>
      && b < |s.batches| && s.batches[b].cancel == Open
      && s' == if s.batches[b].ledger.liveTransfers == 0
               then SetBatch(s, b, s.batches[b].(cancel := Done, ledger := s.batches[b].ledger.(cancelled := true)))
               else SetBatch(s, b, s.batches[b].(cancel := Marking))
    case CancelMark(b) =>
      && b < |s.batches| && s.batches[b].cancel == Marking
      && s' == SetBatch(s, b, s.batches[b].(cancel := Purging, ledger := s.batches[b].ledger.(cancelled := true)))
    case CancelPurge(b) =>
      && b < |s.batches| && s.batches[b].cancel == Purging
      && s' == SetBatch(s.(files := Without(s.files, b), credentials := Without(s.credentials, b)), b,
                        DiscardAll(s.batches[b], Only(s.files, b) + Only(s.credentials, b)).(cancel := PurgingHttp))
    case CancelPurgeHttp(b) =>
      && b < |s.batches| && s.batches[b].cancel == PurgingHttp
      && s' == SetBatch(s.(http := Without(s.http, b)), b,
                        DiscardAll(s.batches[b], Only(s.http, b)).(cancel := Notifying(0)))
    case CancelNotify(b) =>
      && b < |s.batches| && s.batches[b].cancel.Notifying?
      && var k := s.batches[b].cancel.k;
      && if k < s.loops && k < |s.actors| && s.actors[k].role.Loop?
         then s' == SetBatch(s.(actors := SetRole(s, k, Loop(s.actors[k].role.loop.(flag := true)))),
                             b, s.batches[b].(cancel := Notifying(k + 1)))
         else s' == SetBatch(s, b, s.batches[b].(cancel := Waiting))
    case CancelReturn(b) =>
      && b < |s.batches| && s.batches[b].cancel == Waiting && s.batches[b].ledger.liveTransfers == 0
      && s' == SetBatch(s, b, s.batches[b].(cancel := Done))
    case _ => false
  }

  ghost predicate ActStep(s: State, s': State, k: nat, move: Move)
  {
    && k < |s.actors| && ActorMove(s, k, move).Moved?
    && s' == Apply(s.(actors := s.actors[k := ActorMove(s, k, move).actor]), ActorMove(s, k, move).effect)
  }

  ghost predicate StepOf(s: State, s': State, step: Step)
  {
    if step.Act? then ActStep(s, s', step.k, step.move) else ClientStep(s, s', step) || CancelStep(s, s', step)
  }

  ghost predicate Init(s: State, concurrency: nat, ioThreads: nat)
  {
    && concurrency >= 1 && ioThreads >= 1
    && s.files == [] && s.credentials == [] && s.http == [] && s.batches == [] && s.nextId == 0
    && s.loops == LoopCount(concurrency, ioThreads) <= |s.actors|
    && (forall l | 0 <= l < s.loops ::
          s.actors[l] ==
          Actor(Empty, Loop(LoopState(Taking, LoopLimit(concurrency, s.loops, l), [], [], [], [], [], false))))
    && (forall k | s.loops <= k < |s.actors| ::
          s.actors[k].hand == Empty && (s.actors[k].role.Worker? || s.actors[k].role == Client(None, [])))
  }

  /** The states and steps of one run. */
  ghost predicate IsRun(states: seq<State>, steps: seq<Step>, concurrency: nat, ioThreads: nat)
  {
    && |states| == |steps| + 1 && Init(states[0], concurrency, ioThreads)
    && forall i {:trigger steps[i]} | 0 <= i < |steps| :: StepOf(states[i], states[i + 1], steps[i])
  }
}
