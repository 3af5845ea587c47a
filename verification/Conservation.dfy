/**
  Nothing is lost and nothing is duplicated (src/runtime/engine.cpp:276-446, batch.cpp:10-44): in
  every reachable state each live transfer is in exactly one place, the ledger of its batch counts
  it, and every submitted part is undelivered, ready, returned or discarded, exactly once.
*/
module Conservation {
  import opened Numbers
  import opened Batches
  import opened Engines

  /** What is being counted: one transfer, the transfers of a batch, its undelivered parts, or
      those with one tag. */
  datatype Measure = OfId(id: nat) | OfBatch(b: nat) | OfParts(b: nat) | OfTag(b: nat, tag: Tag)

  // ------------------------------------------------------------------ weights

  function PartsWeight(m: Measure, batch: nat, parts: seq<Tag>): nat
  {
    match m
    case OfParts(b) => if b == batch then |parts| else 0
    case OfTag(b, tag) => if b == batch then multiset(parts)[tag] else 0
    case _ => 0
  }

  function IdWeight(m: Measure, id: nat): nat { if m == OfId(id) then 1 else 0 }

  function BatchWeight(m: Measure, batch: nat): nat { if m == OfBatch(batch) then 1 else 0 }

  function Weight(m: Measure, job: Job): nat
  {
    IdWeight(m, job.id) + BatchWeight(m, job.batch) + PartsWeight(m, job.batch, job.parts)
  }

  function Sum(m: Measure, js: seq<Job>): nat
  {
    if js == [] then 0 else Weight(m, js[0]) + Sum(m, js[1..])
  }

  function HandWeight(m: Measure, hand: Hand): nat
  {
    match hand
    case Empty => 0
    case Closing(batch) => BatchWeight(m, batch)
    case _ => Weight(m, hand.job)
  }

  function LoopWeight(m: Measure, a: LoopState): nat
  {
    Sum(m, a.pending) + Sum(m, a.resolving) + Sum(m, a.retries) + Sum(m, a.active) + Sum(m, a.waiting)
  }

  function ActorWeight(m: Measure, a: Actor): nat
  {
    HandWeight(m, a.hand) +
    match a.role
    case Loop(loop) => LoopWeight(m, loop)
    case Worker(_) => 0
    case Client(_, jobs) => Sum(m, jobs)
  }

  function ActorsWeight(m: Measure, actors: seq<Actor>): nat
  {
    if actors == [] then 0
    else ActorsWeight(m, actors[..|actors| - 1]) + ActorWeight(m, actors[|actors| - 1])
  }

  /** Over every place a transfer can be in. */
  function Total(m: Measure, s: State): nat
  {
    Sum(m, s.files) + Sum(m, s.credentials) + Sum(m, s.http) + ActorsWeight(m, s.actors)
  }

  // ------------------------------------------------------------------ sums

  lemma {:induction false} SumAppend(m: Measure, x: seq<Job>, y: seq<Job>)
    ensures Sum(m, x + y) == Sum(m, x) + Sum(m, y)
    decreases |x|
  {
    if x == [] {
      assert x + y == y;
    } else {
      SumAppend(m, x[1..], y);
      assert (x + y)[1..] == x[1..] + y;
    }
  }

  lemma SumOne(m: Measure, job: Job)
    ensures Sum(m, [job]) == Weight(m, job)
  {
    assert [job][1..] == [];
  }

  lemma SumSplit(m: Measure, js: seq<Job>, n: nat)
    requires n <= |js|
    ensures Sum(m, js) == Sum(m, js[..n]) + Sum(m, js[n..])
  {
    SumAppend(m, js[..n], js[n..]);
    assert js[..n] + js[n..] == js;
  }

  lemma SumRemove(m: Measure, js: seq<Job>, i: nat)
    requires i < |js|
    ensures Sum(m, js) == Weight(m, js[i]) + Sum(m, RemoveAt(js, i))
  {
    SumSplit(m, js, i);
    assert js[i..][1..] == js[i + 1..];
    SumAppend(m, js[..i], js[i + 1..]);
  }

  lemma SumPush(m: Measure, js: seq<Job>, job: Job)
    ensures Sum(m, js + [job]) == Sum(m, js) + Weight(m, job)
    ensures Sum(m, [job] + js) == Sum(m, js) + Weight(m, job)
  {
    SumAppend(m, js, [job]);
    SumAppend(m, [job], js);
    SumOne(m, job);
  }

  /** One more transfer in front, kept or not. */
  lemma SumCons(m: Measure, js: seq<Job>, job: Job, keep: bool)
    ensures Sum(m, (if keep then [job] else []) + js) == Sum(m, js) + if keep then Weight(m, job) else 0
  {
    if keep {
      SumPush(m, js, job);
    } else {
      assert [] + js == js;
    }
  }

  lemma {:induction false} SumPurge(m: Measure, js: seq<Job>, b: nat)
    ensures Sum(m, js) == Sum(m, Without(js, b)) + Sum(m, Only(js, b))
    decreases |js|
  {
    if js != [] {
      SumPurge(m, js[1..], b);
      SumCons(m, Without(js[1..], b), js[0], js[0].batch != b);
      SumCons(m, Only(js[1..], b), js[0], js[0].batch == b);
    }
  }

  lemma {:induction false} SumRouted(m: Measure, js: seq<Job>)
    ensures Sum(m, js) == Sum(m, Routed(js, File)) + Sum(m, Routed(js, Cloud)) + Sum(m, Routed(js, Http))
    decreases |js|
  {
    if js != [] {
      SumRouted(m, js[1..]);
      SumCons(m, Routed(js[1..], File), js[0], js[0].route == File);
      SumCons(m, Routed(js[1..], Cloud), js[0], js[0].route == Cloud);
      SumCons(m, Routed(js[1..], Http), js[0], js[0].route == Http);
    }
  }

  lemma {:induction false} ActorUpdate(m: Measure, actors: seq<Actor>, k: nat, to: Actor)
    requires k < |actors|
    ensures ActorsWeight(m, actors[k := to]) + ActorWeight(m, actors[k]) == ActorsWeight(m, actors) + ActorWeight(m, to)
    decreases |actors|
  {
    var init := actors[..|actors| - 1];
    if k == |actors| - 1 {
      assert actors[k := to][..|actors| - 1] == init;
    } else {
      ActorUpdate(m, init, k, to);
      assert actors[k := to][..|actors| - 1] == init[k := to];
    }
  }

  lemma {:induction false} ActorAtMost(m: Measure, actors: seq<Actor>, k: nat)
    requires k < |actors|
    ensures ActorWeight(m, actors[k]) <= ActorsWeight(m, actors)
    decreases |actors|
  {
    if k < |actors| - 1 {
      ActorAtMost(m, actors[..|actors| - 1], k);
    }
  }

  // ------------------------------------------------------------------ the balance

  /** What the ledger of a batch still promises. */
  function Promised(s: State, m: Measure): nat
    requires !m.OfId?
  {
    if m.b >= |s.batches| then 0
    else
      match m
      case OfBatch(b) => s.batches[b].ledger.liveTransfers
      case OfParts(b) => s.batches[b].ledger.pendingParts
      case OfTag(b, tag) => s.batches[b].submitted[tag]
  }

  /** What needs no transfer any more. */
  function Accounted(s: State, m: Measure): nat
    requires !m.OfId?
  {
    if m.b >= |s.batches| then 0
    else
      match m
      case OfBatch(_) => 0
      case OfParts(b) => |s.batches[b].dropped|
      case OfTag(b, tag) =>
        s.batches[b].returned[tag] + multiset(s.batches[b].ledger.ready)[tag] + s.batches[b].dropped[tag]
  }

  ghost predicate Balance(s: State, m: Measure)
  {
    if m.OfId? then Total(m, s) <= 1 && (m.id >= s.nextId ==> Total(m, s) == 0)
    else Total(m, s) + Accounted(s, m) == Promised(s, m)
  }

  // ------------------------------------------------------------------ one thread's step

  /** What the thread gives away, of what is being counted, and what it receives. */
  function Given(m: Measure, e: Effect): nat
  {
    match e
    case Queues(jobs) => Sum(m, jobs)
    case Relooks(job) => Weight(m, job)
    case Drops(job) => IdWeight(m, job.id) + PartsWeight(m, job.batch, job.parts)
    case Retires(job) => IdWeight(m, job.id)
    case Pushes(b, tag) => PartsWeight(m, b, [tag])
    case Finishes(b) => BatchWeight(m, b)
    case _ => 0
  }

  function Received(m: Measure, e: Effect): nat
  {
    match e
    case TakesHttp(taken) => Sum(m, taken)
    case PopsFile(job) => Weight(m, job)
    case PopsCredential(job) => Weight(m, job)
    case _ => 0
  }

  ghost predicate Gives(m: Measure, before: Actor, o: Outcome)
  {
    o.Moved? ==> ActorWeight(m, before) + Received(m, o.effect) == ActorWeight(m, o.actor) + Given(m, o.effect)
  }

  lemma PartsSplit(m: Measure, batch: nat, parts: seq<Tag>)
    requires parts != []
    ensures PartsWeight(m, batch, parts) == PartsWeight(m, batch, [parts[0]]) + PartsWeight(m, batch, parts[1..])
  {
    assert parts == [parts[0]] + parts[1..];
  }

  lemma FinishingGives(m: Measure, a: Actor, move: Move)
    ensures Gives(m, a, Finishing(a, move))
  {
    if a.hand.Delivering? && a.hand.job.parts != [] {
      PartsSplit(m, a.hand.job.batch, a.hand.job.parts);
    }
  }

  lemma DiscardGives(m: Measure, before: Actor, role: Role, job: Job)
    requires ActorWeight(m, before) == Weight(m, job) + ActorWeight(m, Actor(Empty, role))
    ensures Gives(m, before, Discard(role, job))
  {}

  lemma WorkerGives(m: Measure, hand: Hand, files: bool, move: Move, cancelled: set<nat>, queue: seq<Job>)
    ensures Gives(m, Actor(hand, Worker(files)), WorkerMove(hand, files, move, cancelled, queue))
  {
    hide Sum, Finishing, Weight, Discard;
    var before := Actor(hand, Worker(files));
    FinishingGives(m, before, move);
    match hand
    case Checking(job) => DiscardGives(m, before, before.role, job);
    case Starting(job) => DiscardGives(m, before, before.role, job);
    case Vetted(job) => SumOne(m, job);
    case _ =>
  }

  lemma LoopGives(m: Measure, hand: Hand, a: LoopState, move: Move, cancelled: set<nat>, http: seq<Job>)
    ensures Gives(m, Actor(hand, Loop(a)), LoopMove(hand, a, move, cancelled, http))
  {
    match hand
    case Empty => FreeLoopGives(m, a, move, cancelled, http);
    case Starting(job) =>
      if move.Launch? { LaunchGives(m, a, job, move.how); }
    case Ended(job) =>
      if move.Settle? { SettleGives(m, a, job, move.verdict); }
    case _ => FinishingGives(m, Actor(hand, Loop(a)), move);
  }

  lemma LaunchGives(m: Measure, a: LoopState, job: Job, how: Launching)
    ensures Gives(m, Actor(Starting(job), Loop(a)), LaunchMove(a, job, how))
  {
    hide Sum, Weight;
    SumPush(m, a.resolving, job);
    SumPush(m, a.active, job);
  }

  lemma SettleGives(m: Measure, a: LoopState, job: Job, verdict: Verdict)
    ensures Gives(m, Actor(Ended(job), Loop(a)), SettleMove(a, job, verdict))
  {
    hide Sum, Weight;
    SumPush(m, a.pending, job);
    SumPush(m, a.retries, job);
  }

  lemma FreeLoopGives(m: Measure, a: LoopState, move: Move, cancelled: set<nat>, http: seq<Job>)
    ensures Gives(m, Actor(Empty, Loop(a)), FreeLoopMove(a, move, cancelled, http))
  {
    hide Gives, SweepMove, RequeueMove, StartOrDiscard, RemoveAt;
    StuckGives(m, Actor(Empty, Loop(a)));
    match a.phase
    case Taking =>
      if move.Take? { TakeGives(m, a, http, if move.skip then 0 else TakeCount(a, |http|)); }
    case Flagging => SamePlacesGives(m, a, if a.flag then Sweeping(0, 0) else Requeueing(0), false);
    case Sweeping(which, at) => SweepGives(m, a, which, at, cancelled);
    case Requeueing(at) =>
      if move.Requeue? { RequeueGives(m, a, at, move.due); }
    case Restarting =>
      SamePlacesGives(m, a, Filling, a.flag);
      if a.waiting != [] { RestartGives(m, a, cancelled); }
    case Filling =>
      SamePlacesGives(m, a, Performing, a.flag);
      if a.pending != [] { FillGives(m, a, cancelled); }
    case Performing =>
      SamePlacesGives(m, a, Taking, a.flag);
      if move.Complete? && move.k < |a.active| { CompleteGives(m, a, move.k); }
  }

  lemma SamePlacesGives(m: Measure, a: LoopState, phase: Phase, flag: bool)
    ensures Gives(m, Actor(Empty, Loop(a)), InLoop(Empty, a.(phase := phase, flag := flag), Nothing))
  {}

  lemma TakeGives(m: Measure, a: LoopState, http: seq<Job>, n: nat)
    requires n <= |http|
    ensures Gives(m, Actor(Empty, Loop(a)),
                  InLoop(Empty, a.(phase := Flagging, pending := a.pending + http[..n]), TakesHttp(http[..n])))
  {
    hide Sum;
    SumAppend(m, a.pending, http[..n]);
  }

  lemma RestartGives(m: Measure, a: LoopState, cancelled: set<nat>)
    requires a.waiting != []
    ensures Gives(m, Actor(Empty, Loop(a)), StartOrDiscard(a.(waiting := a.waiting[1..]), a.waiting[0], cancelled))
  {
    SumFirst(m, a.waiting);
    hide Sum;
  }

  lemma FillGives(m: Measure, a: LoopState, cancelled: set<nat>)
    requires a.pending != []
    ensures Gives(m, Actor(Empty, Loop(a)), StartOrDiscard(a.(pending := a.pending[1..]), a.pending[0], cancelled))
  {
    SumFirst(m, a.pending);
    hide Sum;
  }

  lemma CompleteGives(m: Measure, a: LoopState, k: nat)
    requires k < |a.active|
    ensures Gives(m, Actor(Empty, Loop(a)), InLoop(Ended(a.active[k]), a.(active := RemoveAt(a.active, k)), Nothing))
  {
    hide Sum, Weight, RemoveAt;
    SumRemove(m, a.active, k);
  }

  lemma RequeueGives(m: Measure, a: LoopState, at: nat, due: bool)
    ensures Gives(m, Actor(Empty, Loop(a)), RequeueMove(a, at, due))
  {
    SumNone(m);
    hide Sum, Weight, RemoveAt;
    if at < |a.retries| {
      SumRemove(m, a.retries, at);
      SumPush(m, a.pending, a.retries[at]);
    }
  }

  lemma SumFirst(m: Measure, js: seq<Job>)
    requires js != []
    ensures Sum(m, js) == Weight(m, js[0]) + Sum(m, js[1..])
  {}

  lemma SumNone(m: Measure)
    ensures Sum(m, []) == 0
  {}

  lemma ContainerWeight(m: Measure, a: LoopState, which: nat, js: seq<Job>)
    ensures LoopWeight(m, WithContainer(a, which, js)) + Sum(m, Container(a, which)) == LoopWeight(m, a) + Sum(m, js)
  {
    hide Sum;
  }

  lemma SweepGives(m: Measure, a: LoopState, which: nat, at: nat, cancelled: set<nat>)
    ensures Gives(m, Actor(Empty, Loop(a)), SweepMove(a, which, at, cancelled))
  {
    hide Sum, RemoveAt, Container, WithContainer;
    var js := Container(a, which);
    if at < |js| {
      SumRemove(m, js, at);
      ContainerWeight(m, a, which, RemoveAt(js, at));
    } else {
      SamePlaces(m, a, if which < 3 then Sweeping(which + 1, 0) else Requeueing(0));
    }
    SamePlaces(m, a, Sweeping(which, at + 1));
  }

  lemma SamePlaces(m: Measure, a: LoopState, phase: Phase)
    ensures LoopWeight(m, a.(phase := phase)) == LoopWeight(m, a)
  {}

  lemma ActorGives(m: Measure, s: State, k: nat, move: Move)
    requires k < |s.actors|
    ensures Gives(m, s.actors[k], ActorMove(s, k, move))
  {
    hide Gives;
    match s.actors[k].role
    case Loop(loop) => LoopGives(m, s.actors[k].hand, loop, move, Cancelled(s), s.http);
    case Worker(files) =>
      WorkerGives(m, s.actors[k].hand, files, move, Cancelled(s), if files then s.files else s.credentials);
    case Client(_, _) => StuckGives(m, s.actors[k]);
  }

  lemma StuckGives(m: Measure, a: Actor)
    ensures Gives(m, a, Stuck)
  {}

  // ------------------------------------------------------------------ the engine around one step

  /** The queue an effect takes from really starts with what it takes. */
  ghost predicate Fits(s: State, e: Effect)
  {
    match e
    case TakesHttp(taken) => taken <= s.http
    case PopsFile(job) => s.files != [] && s.files[0] == job
    case PopsCredential(job) => s.credentials != [] && s.credentials[0] == job
    case Drops(job) => job.batch < |s.batches|
    case Pushes(b, _) => b < |s.batches| && s.batches[b].ledger.pendingParts > 0
    case Finishes(b) => b < |s.batches| && s.batches[b].ledger.liveTransfers > 0
    case _ => true
  }

  /** Given to the shared queues rather than to a ledger. */
  function Queued(m: Measure, e: Effect): nat { if e.Queues? || e.Relooks? then Given(m, e) else 0 }

  function QueuesWeight(m: Measure, s: State): nat { Sum(m, s.files) + Sum(m, s.credentials) + Sum(m, s.http) }

  lemma ApplyQueues(m: Measure, s: State, e: Effect)
    requires Fits(s, e)
    ensures QueuesWeight(m, Apply(s, e)) + Received(m, e) == QueuesWeight(m, s) + Queued(m, e)
    ensures Apply(s, e).actors == s.actors && Apply(s, e).nextId == s.nextId
  {
    hide Sum, Weight;
    if s.files != [] { SumFirst(m, s.files); }
    if s.credentials != [] { SumFirst(m, s.credentials); }
    match e
    case TakesHttp(taken) =>
      assert taken == s.http[..|taken|];
      SumSplit(m, s.http, |taken|);
    case Queues(jobs) => SumAppend(m, s.http, jobs);
    case Relooks(job) => SumPush(m, s.credentials, job);
    case _ =>
  }

  lemma ApplyLedgers(m: Measure, s: State, e: Effect)
    requires Fits(s, e) && !m.OfId?
    ensures Promised(s, m) + Accounted(Apply(s, e), m) + Queued(m, e)
         == Promised(Apply(s, e), m) + Accounted(s, m) + Given(m, e)
  {
    hide Sum, Weight;
  }

  /** Effects on queues take what is there; a discarded transfer is of a cancelled batch, which stays
      in the hand. */
  ghost predicate Shaped(o: Outcome, cancelled: set<nat>, http: seq<Job>, queue: seq<Job>, files: bool)
  {
    o.Moved? ==>
      match o.effect
      case TakesHttp(taken) => taken <= http
      case PopsFile(job) => files && queue != [] && queue[0] == job
      case PopsCredential(job) => !files && queue != [] && queue[0] == job
      case Drops(job) => o.actor.hand == Closing(job.batch) && job.batch in cancelled
      case _ => true
  }

  lemma LoopShaped(hand: Hand, a: LoopState, move: Move, cancelled: set<nat>, http: seq<Job>)
    ensures Shaped(LoopMove(hand, a, move, cancelled, http), cancelled, http, [], false)
  {
    hide Container, WithContainer, RemoveAt;
  }

  lemma WorkerShaped(hand: Hand, files: bool, move: Move, cancelled: set<nat>, queue: seq<Job>)
    ensures Shaped(WorkerMove(hand, files, move, cancelled, queue), cancelled, [], queue, files)
  {}

  lemma ActorShaped(s: State, k: nat, move: Move)
    requires k < |s.actors| && ActorMove(s, k, move).Moved?
    ensures
      match ActorMove(s, k, move).effect
      case TakesHttp(_) | PopsFile(_) | PopsCredential(_) => Fits(s, ActorMove(s, k, move).effect)
      case Drops(job) => ActorMove(s, k, move).actor.hand == Closing(job.batch) && job.batch in Cancelled(s)
      case _ => true
  {
    var Actor(hand, role) := s.actors[k];
    hide LoopMove, WorkerMove;
    match role
    case Loop(loop) => LoopShaped(hand, loop, move, Cancelled(s), s.http);
    case Worker(files) => WorkerShaped(hand, files, move, Cancelled(s), if files then s.files else s.credentials);
    case _ =>
  }

  /** What a thread gives to a ledger or keeps of a batch was counted, so the ledger promised it. */
  lemma HeldIsPromised(s: State, k: nat, move: Move, m: Measure)
    requires k < |s.actors| && !m.OfId? && Balance(s, m) && ActorMove(s, k, move).Moved?
    requires ActorWeight(m, ActorMove(s, k, move).actor) + Given(m, ActorMove(s, k, move).effect)
           > Received(m, ActorMove(s, k, move).effect)
    ensures m.b < |s.batches| && Promised(s, m) > 0
  {
    hide ActorMove, Sum, ActorWeight, Given, Received;
    ActorGives(m, s, k, move);
    ActorAtMost(m, s.actors, k);
  }

  /** The effect of a thread's step fits: what it takes is there, and the guards of push and
      transfer_finished never have to act. */
  lemma EffectFits(s: State, k: nat, move: Move)
    requires k < |s.actors| && ActorMove(s, k, move).Moved? && forall m :: Balance(s, m)
    ensures Fits(s, ActorMove(s, k, move).effect)
  {
    hide ActorMove, Balance, Promised, LoopWeight;
    ActorShaped(s, k, move);
    match ActorMove(s, k, move).effect
    case Drops(job) => HeldIsPromised(s, k, move, OfBatch(job.batch));
    case Pushes(b, tag) => PromisedParts(s, k, move, b);
    case Finishes(b) => PromisedTransfers(s, k, move, b);
    case _ =>
  }

  lemma PromisedParts(s: State, k: nat, move: Move, b: nat)
    requires k < |s.actors| && ActorMove(s, k, move).Moved? && ActorMove(s, k, move).effect.Pushes?
    requires ActorMove(s, k, move).effect.batch == b && Balance(s, OfParts(b))
    ensures b < |s.batches| && s.batches[b].ledger.pendingParts > 0
  {
    hide ActorMove, Balance, ActorWeight;
    HeldIsPromised(s, k, move, OfParts(b));
  }

  lemma PromisedTransfers(s: State, k: nat, move: Move, b: nat)
    requires k < |s.actors| && ActorMove(s, k, move).Moved? && ActorMove(s, k, move).effect.Finishes?
    requires ActorMove(s, k, move).effect.batch == b && Balance(s, OfBatch(b))
    ensures b < |s.batches| && s.batches[b].ledger.liveTransfers > 0
  {
    hide ActorMove, Balance, ActorWeight;
    HeldIsPromised(s, k, move, OfBatch(b));
  }

  lemma ActKeepsBalance(s: State, s': State, k: nat, move: Move, m: Measure)
    requires ActStep(s, s', k, move) && forall m' :: Balance(s, m')
    ensures Balance(s', m)
  {
    hide Sum, Weight, ActorsWeight, ActorWeight, ActorMove, Given, Received, Apply, Fits, Promised, Accounted;
    assert Balance(s, m);
    var o := ActorMove(s, k, move);
    var s1 := s.(actors := s.actors[k := o.actor]);
    EffectFits(s, k, move);
    SameAround(s, s1, m, o.effect);
    ActorGives(m, s, k, move);
    ActorUpdate(m, s.actors, k, o.actor);
    ApplyQueues(m, s1, o.effect);
    if !m.OfId? {
      ApplyLedgers(m, s1, o.effect);
    }
  }

  /** Queues and ledgers do not depend on what the threads hold. */
  lemma SameAround(s: State, s1: State, m: Measure, e: Effect)
    requires s1 == s.(actors := s1.actors)
    ensures Fits(s, e) == Fits(s1, e) && QueuesWeight(m, s1) == QueuesWeight(m, s)
    ensures !m.OfId? ==> Promised(s1, m) == Promised(s, m) && Accounted(s1, m) == Accounted(s, m)
  {}

  // ------------------------------------------------------------------ submit, next and cancel

  ghost predicate OfOneBatch(js: seq<Job>, b: nat) { forall i | 0 <= i < |js| :: js[i].batch == b }

  /** Transfers of one batch weigh exactly their number, their parts and each of their tags. */
  lemma {:induction false} OneBatchWeight(m: Measure, js: seq<Job>, b: nat)
    requires OfOneBatch(js, b) && !m.OfId?
    ensures Sum(m, js) == if m.b != b then 0 else
                          match m
                          case OfBatch(_) => |js|
                          case OfParts(_) => |AllParts(js)|
                          case OfTag(_, tag) => multiset(AllParts(js))[tag]
    decreases |js|
  {
    if js != [] {
      OneBatchWeight(m, js[1..], b);
      assert AllParts(js) == js[0].parts + AllParts(js[1..]);
    }
  }

  /** Each of the consecutive ids occurs once. */
  lemma {:induction false} FreshIds(js: seq<Job>, first: nat, id: nat)
    requires forall i | 0 <= i < |js| :: js[i].id == first + i
    ensures Sum(OfId(id), js) == if first <= id < first + |js| then 1 else 0
    decreases |js|
  {
    if js != [] {
      FreshIds(js[1..], first + 1, id);
    }
  }

  lemma SubmitTotals(m: Measure, s: State, s': State, k: nat, jobs: seq<Job>, immediate: seq<Tag>)
    requires ClientStep(s, s', Submit(k, jobs, immediate))
    ensures Total(m, s') == Total(m, s) + Sum(m, jobs)
  {
    var to := s.actors[k].(role := Client(Some(|s.batches|), Routed(jobs, Http)));
    assert s'.actors == s.actors[k := to];
    assert ActorWeight(m, s.actors[k]) == HandWeight(m, s.actors[k].hand);
    assert ActorWeight(m, to) == HandWeight(m, s.actors[k].hand) + Sum(m, Routed(jobs, Http));
    hide Sum, ActorWeight, Weight, IsPlanFor;
    ActorUpdate(m, s.actors, k, to);
    SumAppend(m, s.files, Routed(jobs, File));
    SumAppend(m, s.credentials, Routed(jobs, Cloud));
    SumRouted(m, jobs);
  }

  /** The ledger of a new batch promises exactly what its plan weighs; immediate completions are
      ready at once. */
  lemma NewLedger(s: State, s': State, jobs: seq<Job>, immediate: seq<Tag>, m: Measure)
    requires s'.batches == s.batches + [NewBatch(jobs, immediate)] && OfOneBatch(jobs, |s.batches|) && !m.OfId?
    ensures Promised(s', m) + Accounted(s, m) == Promised(s, m) + Accounted(s', m) + Sum(m, jobs)
  {
    OneBatchWeight(m, jobs, |s.batches|);
    hide Sum, AllParts;
    if m.b < |s.batches| {
      assert s'.batches[m.b] == s.batches[m.b];
    }
  }

  function PushAll(b: Ledger<Tag>, tags: seq<Tag>): Ledger<Tag>
    decreases |tags|
  {
    if tags == [] then b else PushAll(Push(b, tags[0]), tags[1..])
  }

  lemma {:induction false} PushAllLedger(b: Ledger<Tag>, tags: seq<Tag>)
    requires |tags| <= b.pendingParts
    ensures PushAll(b, tags) == b.(ready := b.ready + tags, pendingParts := b.pendingParts - |tags|)
    decreases |tags|
  {
    if tags == [] {
      assert b.ready + tags == b.ready;
    } else {
      PushAllLedger(Push(b, tags[0]), tags[1..]);
      assert b.ready + [tags[0]] + tags[1..] == b.ready + tags;
    }
  }

  /** submit counts every part and every immediate completion, then pushes the latter. */
  lemma NewBatchIsPushed(jobs: seq<Job>, immediate: seq<Tag>)
    ensures PushAll(Ledger([], |AllParts(jobs)| + |immediate|, |jobs|, false), immediate)
            == NewBatch(jobs, immediate).ledger
  {
    PushAllLedger(Ledger([], |AllParts(jobs)| + |immediate|, |jobs|, false), immediate);
  }

  lemma SubmitKeepsBalance(s: State, s': State, k: nat, jobs: seq<Job>, immediate: seq<Tag>, m: Measure)
    requires ClientStep(s, s', Submit(k, jobs, immediate)) && Balance(s, m)
    ensures Balance(s', m)
  {
    SubmitTotals(m, s, s', k, jobs, immediate);
    if m.OfId? {
      FreshIds(jobs, s.nextId, m.id);
    } else {
      NewLedger(s, s', jobs, immediate, m);
    }
    hide Sum, Total, Promised, Accounted;
  }

  lemma EnqueueKeepsBalance(s: State, s': State, k: nat, m: Measure)
    requires ClientStep(s, s', Enqueue(k)) && Balance(s, m)
    ensures Balance(s', m)
  {
    EnqueueTotals(m, s, s', k);
    hide Total;
  }

  lemma EnqueueTotals(m: Measure, s: State, s': State, k: nat)
    requires ClientStep(s, s', Enqueue(k))
    ensures Total(m, s') == Total(m, s)
  {
    var to := s.actors[k].(role := Client(None, []));
    assert s'.actors == s.actors[k := to];
    assert ActorWeight(m, s.actors[k]) == HandWeight(m, s.actors[k].hand) + Sum(m, s.actors[k].role.jobs);
    assert ActorWeight(m, to) == HandWeight(m, s.actors[k].hand);
    hide Sum, ActorWeight, Weight;
    ActorUpdate(m, s.actors, k, to);
    SumAppend(m, s.http, s.actors[k].role.jobs);
  }

  lemma NextKeepsBalance(s: State, s': State, b: nat, m: Measure)
    requires ClientStep(s, s', Next(b)) && Balance(s, m)
    ensures Balance(s', m)
  {
    var ready := s.batches[b].ledger.ready;
    assert multiset(ready) == multiset{ready[0]} + multiset(ready[1..]) by { assert ready == [ready[0]] + ready[1..]; }
    assert Total(m, s') == Total(m, s);
    hide Total;
  }

  /** Discarding listed transfers takes each of them off the ledger: no decrement is lost. */
  lemma {:induction false} DiscardAllLedger(b: BatchRecord, js: seq<Job>)
    requires |js| <= b.ledger.liveTransfers
    ensures DiscardAll(b, js) == b.(ledger := b.ledger.(liveTransfers := b.ledger.liveTransfers - |js|),
                                    dropped := b.dropped + multiset(AllParts(js)))
    decreases |js|
  {
    if js == [] {
      assert b.dropped + multiset(AllParts(js)) == b.dropped;
    } else {
      var b' := b.(ledger := TransferFinished(b.ledger), dropped := b.dropped + multiset(js[0].parts));
      DiscardAllLedger(b', js[1..]);
      assert AllParts(js) == js[0].parts + AllParts(js[1..]);
      assert b'.dropped + multiset(AllParts(js[1..])) == b.dropped + multiset(AllParts(js));
    }
  }

  lemma {:induction false} OnlyIsOfBatch(js: seq<Job>, b: nat)
    ensures OfOneBatch(Only(js, b), b)
    decreases |js|
  {
    if js != [] {
      OnlyIsOfBatch(js[1..], b);
    }
  }

  /** Purged transfers leave the total and the ledger together. */
  lemma PurgeKeepsBalance(s: State, s': State, b: nat, js: seq<Job>, pc: Canceller, m: Measure)
    requires b < |s.batches| && OfOneBatch(js, b) && Balance(s, OfBatch(b)) && Balance(s, m)
    requires s'.batches == s.batches[b := DiscardAll(s.batches[b], js).(cancel := pc)] && s'.nextId == s.nextId
    requires forall m' :: Total(m', s') + Sum(m', js) == Total(m', s)
    ensures Balance(s', m)
  {
    hide Sum, Total;
    assert Total(OfBatch(b), s') + Sum(OfBatch(b), js) == Total(OfBatch(b), s);
    OneBatchWeight(OfBatch(b), js, b);
    DiscardAllLedger(s.batches[b], js);
    assert Total(m, s') + Sum(m, js) == Total(m, s);
    if !m.OfId? {
      OneBatchWeight(m, js, b);
    }
  }

  lemma PurgeTotals(m: Measure, s: State, b: nat)
    ensures Total(m, s.(files := Without(s.files, b), credentials := Without(s.credentials, b)))
          + Sum(m, Only(s.files, b) + Only(s.credentials, b)) == Total(m, s)
    ensures Total(m, s.(http := Without(s.http, b))) + Sum(m, Only(s.http, b)) == Total(m, s)
  {
    hide Sum;
    SumPurge(m, s.files, b);
    SumPurge(m, s.credentials, b);
    SumPurge(m, s.http, b);
    SumAppend(m, Only(s.files, b), Only(s.credentials, b));
  }

  lemma CancelPurgeKeepsBalance(s: State, s': State, step: Step, m: Measure)
    requires (step.CancelPurge? || step.CancelPurgeHttp?) && CancelStep(s, s', step) && forall m' :: Balance(s, m')
    ensures Balance(s', m)
  {
    var b := step.b;
    var js := if step.CancelPurge? then Only(s.files, b) + Only(s.credentials, b) else Only(s.http, b);
    var pc := if step.CancelPurge? then PurgingHttp else Notifying(0);
    OnlyIsOfBatch(s.files, b);
    OnlyIsOfBatch(s.credentials, b);
    OnlyIsOfBatch(s.http, b);
    assert s'.batches == s.batches[b := DiscardAll(s.batches[b], js).(cancel := pc)];
    hide Sum, Balance;
    forall m' ensures Total(m', s') + Sum(m', js) == Total(m', s) {
      PurgeTotals(m', s, b);
    }
    assert Balance(s, m) && Balance(s, OfBatch(b));
    PurgeKeepsBalance(s, s', b, js, pc, m);
  }

  /** Progress of a cancel alone changes no amount. */
  lemma SameAmounts(s: State, s': State, b: nat, pc: Canceller, cancelled: bool, m: Measure)
    requires b < |s.batches| && Balance(s, m) && Total(m, s') == Total(m, s) && s'.nextId == s.nextId
    requires
      var batch := s.batches[b];
      s'.batches == s.batches[b := batch.(cancel := pc, ledger := batch.ledger.(cancelled := cancelled))]
    ensures Balance(s', m)
  {
    hide Total;
  }

  lemma NotifyTotals(s: State, s': State, b: nat, m: Measure)
    requires CancelStep(s, s', CancelNotify(b))
    ensures Total(m, s') == Total(m, s)
  {
    hide Sum, Weight;
    var k := s.batches[b].cancel.k;
    if k < s.loops && k < |s.actors| && s.actors[k].role.Loop? {
      ActorUpdate(m, s.actors, k, s'.actors[k]);
    }
  }

  lemma CancelMarksKeepBalance(s: State, s': State, step: Step, m: Measure)
    requires step.CancelBegin? || step.CancelMark? || step.CancelNotify? || step.CancelReturn?
    requires CancelStep(s, s', step) && Balance(s, m)
    ensures Balance(s', m)
  {
    assert Total(m, s') == Total(m, s) by {
      if step.CancelNotify? { NotifyTotals(s, s', step.b, m); }
    }
    hide Total, Balance;
    SameAmounts(s, s', step.b, s'.batches[step.b].cancel, s'.batches[step.b].ledger.cancelled, m);
  }

  // ------------------------------------------------------------------ every reachable state

  lemma InitBalances(s: State, concurrency: nat, ioThreads: nat, m: Measure)
    requires Init(s, concurrency, ioThreads)
    ensures Balance(s, m)
  {
    forall k | 0 <= k < |s.actors| ensures ActorWeight(m, s.actors[k]) == 0 {
      if k < s.loops {
        assert s.actors[k] ==
               Actor(Empty, Loop(LoopState(Taking, LoopLimit(concurrency, s.loops, k), [], [], [], [], [], false)));
      }
    }
    hide ActorWeight;
    IdleActors(m, s.actors);
  }

  lemma {:induction false} IdleActors(m: Measure, actors: seq<Actor>)
    requires forall k | 0 <= k < |actors| :: ActorWeight(m, actors[k]) == 0
    ensures ActorsWeight(m, actors) == 0
    decreases |actors|
  {
    if actors != [] {
      IdleActors(m, actors[..|actors| - 1]);
    }
  }

  lemma StepKeepsBalance(s: State, s': State, step: Step, m: Measure)
    requires StepOf(s, s', step) && forall m' :: Balance(s, m')
    ensures Balance(s', m)
  {
    hide Balance, ActStep, ClientStep, CancelStep;
    assert Balance(s, m);
    match step
    case Act(k, move) => ActKeepsBalance(s, s', k, move, m);
    case Submit(k, jobs, immediate) => NotCancelStep(s, s', step); SubmitKeepsBalance(s, s', k, jobs, immediate, m);
    case Enqueue(k) => NotCancelStep(s, s', step); EnqueueKeepsBalance(s, s', k, m);
    case Next(b) => NotCancelStep(s, s', step); NextKeepsBalance(s, s', b, m);
    case CancelPurge(_) | CancelPurgeHttp(_) => NotClientStep(s, s', step); CancelPurgeKeepsBalance(s, s', step, m);
    case _ => NotClientStep(s, s', step); CancelMarksKeepBalance(s, s', step, m);
  }

  lemma NotCancelStep(s: State, s': State, step: Step)
    requires step.Submit? || step.Enqueue? || step.Next?
    ensures !CancelStep(s, s', step)
  {}

  lemma NotClientStep(s: State, s': State, step: Step)
    requires !step.Submit? && !step.Enqueue? && !step.Next?
    ensures !ClientStep(s, s', step)
  {}

  /** Every amount is balanced in every reachable state. */
  lemma {:induction false} ConservationHolds(
      states: seq<State>, steps: seq<Step>, concurrency: nat, ioThreads: nat, n: nat)
    requires IsRun(states, steps, concurrency, ioThreads) && n < |states|
    ensures forall m :: Balance(states[n], m)
  {
    hide Balance, Init, StepOf;
    forall m ensures Balance(states[n], m) {
      if n == 0 {
        InitBalances(states[0], concurrency, ioThreads, m);
      } else {
        ConservationHolds(states, steps, concurrency, ioThreads, n - 1);
        var step := steps[n - 1];
        StepKeepsBalance(states[n - 1], states[n], step, m);
      }
    }
  }
}
