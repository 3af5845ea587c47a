/**
  The sleep and wake handshake between the producers of HTTP work (`submit`, `queue_http`), the
  canceller and the I/O loops, as interleaved atomic steps (src/runtime/engine.cpp:353-391 and
  790-825), under sequential consistency. Items of the shared queue are only counted here;
  module Engines follows them individually.
*/
module Wakeup {
  import opened Numbers

  /** A producer that adds `count` transfers and then wakes up to `count` idle loops. */
  datatype Producer =
    | Resting
    | Locked(count: nat)                        // holds the queue mutex
    | Pushed(count: nat)                        // has queued, backlog not yet stored
    | Stored(count: nat)                        // backlog stored, mutex still held
    | Released(count: nat)                      // about to load idle_loops_
    | Scanning(count: nat, snapshot: set<nat>)  // bits of the loaded word not yet tried
    | Waking(count: nat, snapshot: set<nat>, target: nat)  // won target's bit, wakeup not yet called

  datatype Phase =
    | Top                       // about to load http_backlog_ in take_http
    | WantLock                  // saw work, about to lock the queue
    | Holding                   // holds the queue mutex
    | Took                      // has moved transfers to pending, backlog not yet stored
    | Flushed                   // backlog stored, mutex still held
    | Working                   // sweeps, starts, performs, completes
    | Deciding                  // chooses the poll timeout
    | Announced                 // idle bit set, backlog not yet rechecked
    | Polling(announced: bool, asleep: bool)    // in curl_multi_poll; asleep unless the timeout is 0
    | Returned(announced: bool)                 // poll returned, own bit not yet cleared

  /** `slots` counts active and resolving transfers, `pending` those taken but not started. */
  datatype Loop = Loop(phase: Phase, limit: nat, slots: nat, pending: nat)

  datatype Canceller = Idle | Purging | Purged | Republished

  datatype Holder = Nobody | ByProducer(p: nat) | ByLoop(l: nat) | ByCanceller

  /** `woken` remembers the loops whose bit a producer cleared and that have not since run
      take_http; `tokens` are the wakeups a poll has yet to consume. */
  datatype State = State(
    queue: nat, backlog: nat, idle: set<nat>, tokens: set<nat>, holder: Holder,
    producers: seq<Producer>, loops: seq<Loop>, canceller: Canceller, woken: set<nat>)

  ghost predicate Init(s: State)
  {
    && s.queue == 0 && s.backlog == 0 && s.idle == {} && s.tokens == {} && s.woken == {}
    && s.holder == Nobody && s.canceller == Idle
    && (forall p | 0 <= p < |s.producers| :: s.producers[p] == Resting)
    && (forall l | 0 <= l < |s.loops| :: s.loops[l].phase == Top && s.loops[l].limit >= 1
                                      && s.loops[l].slots == 0 && s.loops[l].pending == 0)
  }

  datatype Step =
    | Lock(p: nat, count: nat) | Push(p: nat) | Store(p: nat) | Unlock(p: nat)
    | Load(p: nat) | Scan(p: nat) | Wake(p: nat)
    | Look(l: nat) | Take(l: nat) | Move(l: nat) | Flush(l: nat) | Leave(l: nat)
    | Work(l: nat, slots: nat, pending: nat) | Decide(l: nat, zero: bool)
    | Recheck(l: nat) | Return(l: nat) | Clear(l: nat)
    | CancelLock | CancelPurge(left: nat) | CancelStore | CancelUnlock
    | WakeLoop(l: nat)                          // from wake_loops: end of a cancel, or a host lookup answered

  function SetProducer(s: State, p: nat, to: Producer): State
    requires p < |s.producers|
  { s.(producers := s.producers[p := to]) }

  function SetPhase(s: State, l: nat, to: Phase): State
    requires l < |s.loops|
  { s.(loops := s.loops[l := s.loops[l].(phase := to)]) }

  ghost predicate IsLowest(bits: set<nat>, i: nat) { i in bits && forall j | j in bits :: i <= j }

  ghost predicate ProducerStep(s: State, s': State, step: Step)
  {
    match step
    case Lock(p, count) => p < |s.producers| && count >= 1 && s.producers[p] == Resting && s.holder == Nobody
      && s' == SetProducer(s, p, Locked(count)).(holder := ByProducer(p))
    case Push(p) => p < |s.producers| && s.producers[p].Locked?
      && s' == SetProducer(s, p, Pushed(s.producers[p].count)).(queue := s.queue + s.producers[p].count)
    case Store(p) => p < |s.producers| && s.producers[p].Pushed?
      && s' == SetProducer(s, p, Stored(s.producers[p].count)).(backlog := s.queue)
    case Unlock(p) => p < |s.producers| && s.producers[p].Stored?
      && s' == SetProducer(s, p, Released(s.producers[p].count)).(holder := Nobody)
    case Load(p) => p < |s.producers| && s.producers[p].Released?
      && s' == SetProducer(s, p, Scanning(s.producers[p].count, s.idle))
    case Scan(p) => p < |s.producers| && s.producers[p].Scanning? && ScanStep(s, s', p)
    case Wake(p) => p < |s.producers| && s.producers[p].Waking? && s.producers[p].count >= 1
      && s' == SetProducer(s, p, Scanning(s.producers[p].count - 1, s.producers[p].snapshot))
                 .(tokens := s.tokens + {s.producers[p].target})
    case _ => false
  }

  /** One turn of the loop of wake_idle_loops: stop, or try to win the lowest bit still listed. */
  ghost predicate ScanStep(s: State, s': State, p: nat)
    requires p < |s.producers| && s.producers[p].Scanning?
  {
    var Scanning(count, snapshot) := s.producers[p];
    if count == 0 || snapshot == {} then s' == SetProducer(s, p, Resting)
    else exists i | IsLowest(snapshot, i) ::
      if i in s.idle then
        s' == SetProducer(s, p, Waking(count, snapshot - {i}, i)).(idle := s.idle - {i}, woken := s.woken + {i})
      else s' == SetProducer(s, p, Scanning(count, snapshot - {i}))
  }

  ghost predicate LoopStep(s: State, s': State, step: Step) { TakeStep(s, s', step) || PollStep(s, s', step) }

  /** take_http: an unlocked glance at the backlog, then the critical section. */
  ghost predicate TakeStep(s: State, s': State, step: Step)
  {
    match step
    case Look(l) => l < |s.loops| && s.loops[l].phase == Top
      && s' == if s.backlog == 0 then SetPhase(s, l, Working).(woken := s.woken - {l}) else SetPhase(s, l, WantLock)
    case Take(l) => l < |s.loops| && s.loops[l].phase == WantLock && s.holder == Nobody
      && s' == SetPhase(s, l, Holding).(holder := ByLoop(l))
    case Move(l) => l < |s.loops| && s.loops[l].phase == Holding && MoveStep(s, s', l)
    case Flush(l) => l < |s.loops| && s.loops[l].phase == Took
      && s' == SetPhase(s, l, Flushed).(backlog := s.queue)
    case Leave(l) => l < |s.loops| && s.loops[l].phase == Flushed
      && s' == SetPhase(s, l, Working).(holder := Nobody)
    case _ => false
  }

  /** The rest of one turn of the I/O loop, up to and including the poll. */
  ghost predicate PollStep(s: State, s': State, step: Step)
  {
    match step
    case Work(l, slots, pending) => l < |s.loops| && s.loops[l].phase == Working
      && s' == s.(loops := s.loops[l := s.loops[l].(phase := Deciding, slots := slots, pending := pending)])
    case Decide(l, zero) => l < |s.loops| && s.loops[l].phase == Deciding && DecideStep(s, s', l, zero)
    case Recheck(l) => l < |s.loops| && s.loops[l].phase == Announced
      && s' == SetPhase(s, l, Polling(true, s.backlog == 0))
    case Return(l) => l < |s.loops| && s.loops[l].phase.Polling?
      && s' == SetPhase(s, l, Returned(s.loops[l].phase.announced)).(tokens := s.tokens - {l})
    case Clear(l) => l < |s.loops| && s.loops[l].phase.Returned?
      && s' == (if s.loops[l].phase.announced then SetPhase(s, l, Top).(idle := s.idle - {l}) else SetPhase(s, l, Top))
    case _ => false
  }

  /** take_http moves as many transfers as the loop has room for. */
  ghost predicate MoveStep(s: State, s': State, l: nat)
    requires l < |s.loops|
  {
    var loop := s.loops[l];
    var moved := Min(s.queue, Max(0, loop.limit - loop.slots - loop.pending));
    s' == s.(queue := s.queue - moved, woken := s.woken - {l},
             loops := s.loops[l := loop.(phase := Took, pending := loop.pending + moved)])
  }

  /** `zero` stands for what the clock says: a retry may be due at once. */
  ghost predicate DecideStep(s: State, s': State, l: nat, zero: bool)
    requires l < |s.loops|
  {
    var loop := s.loops[l];
    var room := loop.slots < loop.limit;
    if room && (loop.pending > 0 || s.backlog != 0) then s' == SetPhase(s, l, Polling(false, false))
    else if room && !zero then s' == SetPhase(s, l, Announced).(idle := s.idle + {l})
    else s' == SetPhase(s, l, Polling(false, !zero))
  }

  ghost predicate CancelStep(s: State, s': State, step: Step)
  {
    match step
    case CancelLock =>
      s.canceller == Idle && s.holder == Nobody && s' == s.(canceller := Purging, holder := ByCanceller)
    case CancelPurge(left) => s.canceller == Purging && left <= s.queue && s' == s.(canceller := Purged, queue := left)
    case CancelStore => s.canceller == Purged && s' == s.(canceller := Republished, backlog := s.queue)
    case CancelUnlock => s.canceller == Republished && s' == s.(canceller := Idle, holder := Nobody)
    case WakeLoop(l) => l < |s.loops| && s' == s.(tokens := s.tokens + {l})
    case _ => false
  }

  ghost predicate Next(s: State, s': State, step: Step)
  {
    ProducerStep(s, s', step) || LoopStep(s, s', step) || CancelStep(s, s', step)
  }

  // ------------------------------------------------------------------ the invariant

  /** What the mutex protects: only its holder is inside, and the backlog follows the queue. */
  ghost predicate MutexInv(s: State)
  {
    && (forall p | 0 <= p < |s.producers| ::
          (s.producers[p].Locked? || s.producers[p].Pushed? || s.producers[p].Stored?) == (s.holder == ByProducer(p)))
    && (forall l | 0 <= l < |s.loops| :: (s.loops[l].phase in {Holding, Took, Flushed}) == (s.holder == ByLoop(l)))
    && ((s.canceller != Idle) == (s.holder == ByCanceller))
    && (match s.holder
        case Nobody => s.queue == s.backlog
        case ByProducer(p) => p < |s.producers| &&
          s.queue == s.backlog + (if s.producers[p].Pushed? then s.producers[p].count else 0)
        case ByLoop(l) =>
          l < |s.loops| && (if s.loops[l].phase == Took then s.queue <= s.backlog else s.queue == s.backlog)
        case ByCanceller => if s.canceller == Purged then s.queue <= s.backlog else s.queue == s.backlog)
  }

  predicate MayBeIdle(phase: Phase)
  {
    phase == Announced || (phase.Polling? && phase.announced) || (phase.Returned? && phase.announced)
  }

  /** Whoever announced itself has room, keeps it until take_http, and is woken at most once. */
  ghost predicate LoopInv(s: State)
  {
    && (forall l | l in s.idle :: l < |s.loops| && MayBeIdle(s.loops[l].phase))
    && (forall l | 0 <= l < |s.loops| && MayBeIdle(s.loops[l].phase) ::
          s.loops[l].slots < s.loops[l].limit && s.loops[l].pending == 0)
    && (forall l | l in s.woken ::
          && l < |s.loops| && l !in s.idle
          && (MayBeIdle(s.loops[l].phase) || s.loops[l].phase in {Top, WantLock, Holding})
          && s.loops[l].slots < s.loops[l].limit && s.loops[l].pending == 0)
  }

  /** A woken loop that still polls has its wakeup, or will get it. */
  ghost predicate TokenInv(s: State)
  {
    && (forall p | 0 <= p < |s.producers| && s.producers[p].Waking? :: s.producers[p].count >= 1)
    && forall l | l in s.woken && l < |s.loops| && (s.loops[l].phase == Announced || s.loops[l].phase.Polling?) ::
         l in s.tokens || BeingWoken(s.producers, l)
  }

  ghost predicate BeingWoken(producers: seq<Producer>, l: nat)
  {
    exists p | 0 <= p < |producers| :: producers[p].Waking? && producers[p].target == l
  }

  /** The wakeups a producer can still give that would reach `sleeper` before running out. */
  function Credit(p: Producer, sleeper: nat): nat
  {
    match p
    case Pushed(count) => count
    case Stored(count) => count
    case Released(count) => count
    case Scanning(count, snapshot) => if sleeper in snapshot then count else 0
    case Waking(count, snapshot, _) => if sleeper in snapshot && count >= 1 then count - 1 else 0
    case _ => 0
  }

  function TotalCredit(producers: seq<Producer>, sleeper: nat): nat
  {
    if producers == [] then 0
    else TotalCredit(producers[..|producers| - 1], sleeper) + Credit(producers[|producers| - 1], sleeper)
  }

  /** `l` found the backlog empty after setting its bit, and its bit is still set. */
  predicate SleepsIdle(s: State, l: nat)
  {
    l < |s.loops| && s.loops[l].phase == Polling(true, true) && l in s.idle
  }

  /** Every queued transfer is matched by a wakeup still to be given or by a woken loop. */
  ghost predicate CountInv(s: State)
  {
    forall l | 0 <= l < |s.loops| && SleepsIdle(s, l) :: s.queue <= TotalCredit(s.producers, l) + |s.woken|
  }

  ghost predicate Inv(s: State) { MutexInv(s) && LoopInv(s) && TokenInv(s) && CountInv(s) }

  // ------------------------------------------------------------------ arithmetic of credits

  lemma {:induction false} CreditUpdate(producers: seq<Producer>, p: nat, to: Producer, sleeper: nat)
    requires p < |producers|
    ensures TotalCredit(producers[p := to], sleeper) + Credit(producers[p], sleeper)
         == TotalCredit(producers, sleeper) + Credit(to, sleeper)
  {
    var init := producers[..|producers| - 1];
    if p == |producers| - 1 {
      assert producers[p := to][..|producers| - 1] == init;
    } else {
      CreditUpdate(init, p, to, sleeper);
      assert producers[p := to][..|producers| - 1] == init[p := to];
    }
  }

  lemma {:induction false} CreditAtLeast(producers: seq<Producer>, p: nat, sleeper: nat)
    requires p < |producers|
    ensures Credit(producers[p], sleeper) <= TotalCredit(producers, sleeper)
  {
    if p < |producers| - 1 {
      CreditAtLeast(producers[..|producers| - 1], p, sleeper);
    }
  }

  lemma {:induction false} CreditWitness(producers: seq<Producer>, sleeper: nat) returns (p: nat)
    requires TotalCredit(producers, sleeper) > 0
    ensures p < |producers| && Credit(producers[p], sleeper) > 0
  {
    if Credit(producers[|producers| - 1], sleeper) > 0 {
      p := |producers| - 1;
    } else {
      p := CreditWitness(producers[..|producers| - 1], sleeper);
    }
  }

  // ------------------------------------------------------------------ every step keeps it

  lemma InitIsInv(s: State)
    requires Init(s)
    ensures Inv(s)
  {}

  lemma ProducerKeepsMutex(s: State, s': State, step: Step)
    requires MutexInv(s) && ProducerStep(s, s', step)
    ensures MutexInv(s')
  {
    if step.Scan? {
      ScanKeepsMutex(s, s', step.p);
    } else {
      hide ScanStep;
    }
  }

  lemma ScanKeepsMutex(s: State, s': State, p: nat)
    requires MutexInv(s) && p < |s.producers| && s.producers[p].Scanning? && ScanStep(s, s', p)
    ensures MutexInv(s')
  {}

  lemma TakeKeepsMutex(s: State, s': State, step: Step)
    requires MutexInv(s) && TakeStep(s, s', step)
    ensures MutexInv(s')
  {}

  lemma PollKeepsMutex(s: State, s': State, step: Step)
    requires MutexInv(s) && PollStep(s, s', step)
    ensures MutexInv(s')
  {}

  lemma CancelKeepsMutex(s: State, s': State, step: Step)
    requires MutexInv(s) && CancelStep(s, s', step)
    ensures MutexInv(s')
  {}

  lemma ProducerKeepsLoop(s: State, s': State, step: Step)
    requires LoopInv(s) && ProducerStep(s, s', step)
    ensures LoopInv(s')
  {}

  lemma TakeKeepsLoop(s: State, s': State, step: Step)
    requires LoopInv(s) && TakeStep(s, s', step)
    ensures LoopInv(s')
  {}

  lemma DecideKeepsLoop(s: State, s': State, l: nat, zero: bool)
    requires LoopInv(s) && l < |s.loops| && s.loops[l].phase == Deciding && DecideStep(s, s', l, zero)
    ensures LoopInv(s')
  {}

  lemma PollKeepsLoop(s: State, s': State, step: Step)
    requires LoopInv(s) && PollStep(s, s', step)
    ensures LoopInv(s')
  {
    hide DecideStep;
    if step.Decide? {
      DecideKeepsLoop(s, s', step.l, step.zero);
    }
  }

  /** A producer stops waking a loop only by waking it. */
  lemma ProducerKeepsToken(s: State, s': State, step: Step)
    requires TokenInv(s) && ProducerStep(s, s', step)
    ensures TokenInv(s')
  {
    forall l | l in s'.woken && l < |s'.loops| && (s'.loops[l].phase == Announced || s'.loops[l].phase.Polling?)
      ensures l in s'.tokens || BeingWoken(s'.producers, l)
    {
      if l in s.woken {
        if l !in s.tokens {
          var p :| 0 <= p < |s.producers| && s.producers[p].Waking? && s.producers[p].target == l;
          assert s'.producers[p] == s.producers[p] || step == Wake(p);
        }
      } else {
        assert s'.producers[step.p].Waking?;
      }
    }
  }

  lemma TakeKeepsToken(s: State, s': State, step: Step)
    requires TokenInv(s) && TakeStep(s, s', step)
    ensures TokenInv(s')
  {}

  lemma PollKeepsToken(s: State, s': State, step: Step)
    requires TokenInv(s) && LoopInv(s) && PollStep(s, s', step)
    ensures TokenInv(s')
  {}

  // ------------------------------------------------------------------ counting

  /** What the backlog does not show is still owed by the producer that holds the queue. */
  lemma BacklogMisses(s: State, sleeper: nat)
    requires MutexInv(s)
    ensures s.queue <= s.backlog + TotalCredit(s.producers, sleeper)
  {
    if s.holder.ByProducer? {
      CreditAtLeast(s.producers, s.holder.p, sleeper);
    }
  }

  /** A producer adds to the queue only what it will wake loops for, and spends its wakeups on
      woken loops alone as long as `sleeper` keeps its bit. */
  lemma ProducerPays(s: State, s': State, step: Step, sleeper: nat)
    requires LoopInv(s) && TokenInv(s) && ProducerStep(s, s', step) && sleeper in s'.idle
    ensures step.p < |s.producers| && |s'.producers| == |s.producers|
    ensures s'.producers == s.producers[step.p := s'.producers[step.p]]
    ensures s'.queue + Credit(s.producers[step.p], sleeper) + |s.woken|
         <= s.queue + Credit(s'.producers[step.p], sleeper) + |s'.woken|
  {
    if step.Scan? {
      ScanPays(s, s', step.p, sleeper);
    }
  }

  lemma ScanPays(s: State, s': State, p: nat, sleeper: nat)
    requires LoopInv(s) && p < |s.producers| && s.producers[p].Scanning? && ScanStep(s, s', p) && sleeper in s'.idle
    ensures |s'.producers| == |s.producers| && s'.queue == s.queue
    ensures s'.producers == s.producers[p := s'.producers[p]]
    ensures Credit(s.producers[p], sleeper) + |s.woken| <= Credit(s'.producers[p], sleeper) + |s'.woken|
  {
    var Scanning(count, snapshot) := s.producers[p];
    if count > 0 && snapshot != {} {
      var i := ScannedBit(s, s', p);
      hide ScanStep, LoopInv, Credit;
      assert i != sleeper;
      OtherBitPays(count, snapshot, i, sleeper);
    } else {
      hide LoopInv;
    }
  }

  /** The bit that a turn of the scan looks at; if it is won, its loop is woken for the first time. */
  lemma ScannedBit(s: State, s': State, p: nat) returns (i: nat)
    requires LoopInv(s) && p < |s.producers| && s.producers[p].Scanning? && ScanStep(s, s', p)
    requires s.producers[p].count > 0 && s.producers[p].snapshot != {}
    ensures s'.queue == s.queue && i !in s'.idle
    ensures s'.producers ==
            var Scanning(count, snapshot) := s.producers[p];
            s.producers[p := if i in s.idle then Waking(count, snapshot - {i}, i) else Scanning(count, snapshot - {i})]
    ensures |s'.woken| == |s.woken| + if i in s.idle then 1 else 0
  {
    var Scanning(count, snapshot) := s.producers[p];
    i :| IsLowest(snapshot, i) &&
      if i in s.idle then
        s' == SetProducer(s, p, Waking(count, snapshot - {i}, i)).(idle := s.idle - {i}, woken := s.woken + {i})
      else s' == SetProducer(s, p, Scanning(count, snapshot - {i}));
    assert i in s.idle ==> i !in s.woken;
  }

  lemma OtherBitPays(count: nat, snapshot: set<nat>, i: nat, sleeper: nat)
    requires i != sleeper && count > 0
    ensures Credit(Scanning(count, snapshot), sleeper) == Credit(Scanning(count, snapshot - {i}), sleeper)
    ensures Credit(Scanning(count, snapshot), sleeper) <= Credit(Waking(count, snapshot - {i}, i), sleeper) + 1
  {}

  lemma ProducerKeepsCount(s: State, s': State, step: Step)
    requires LoopInv(s) && TokenInv(s) && CountInv(s) && ProducerStep(s, s', step)
    ensures CountInv(s')
  {
    ProducerLeavesLoops(s, s', step);
    hide ProducerStep, LoopInv, TokenInv, Credit;
    forall l | 0 <= l < |s'.loops| && SleepsIdle(s', l)
      ensures s'.queue <= TotalCredit(s'.producers, l) + |s'.woken|
    {
      assert SleepsIdle(s, l);
      ProducerPays(s, s', step, l);
      CreditUpdate(s.producers, step.p, s'.producers[step.p], l);
    }
  }

  lemma ProducerLeavesLoops(s: State, s': State, step: Step)
    requires ProducerStep(s, s', step)
    ensures s'.loops == s.loops && s'.idle <= s.idle
  {}

  /** take_http spends a woken loop only on work it moves, or when it saw no work. */
  lemma TakePays(s: State, s': State, step: Step)
    requires LoopInv(s) && TakeStep(s, s', step)
    ensures s'.producers == s.producers && s'.queue <= s.queue
    ensures s'.queue + |s.woken| <= s.queue + |s'.woken| || s'.queue == 0 || s.backlog == 0
    ensures forall l | SleepsIdle(s', l) :: SleepsIdle(s, l)
  {}

  lemma TakeKeepsCount(s: State, s': State, step: Step)
    requires MutexInv(s) && LoopInv(s) && CountInv(s) && TakeStep(s, s', step)
    ensures CountInv(s')
  {
    TakePays(s, s', step);
    hide TotalCredit, MutexInv, LoopInv, TakeStep, SleepsIdle;
    forall l | 0 <= l < |s'.loops| && SleepsIdle(s', l)
      ensures s'.queue <= TotalCredit(s'.producers, l) + |s'.woken|
    {
      BacklogMisses(s, l);
      SleeperIsLoop(s, l);
    }
  }

  lemma SleeperIsLoop(s: State, l: nat)
    requires SleepsIdle(s, l)
    ensures l < |s.loops|
  {}

  lemma PollKeepsCount(s: State, s': State, step: Step)
    requires MutexInv(s) && LoopInv(s) && CountInv(s) && PollStep(s, s', step)
    ensures CountInv(s')
  {
    hide TotalCredit, MutexInv;
    forall l | 0 <= l < |s'.loops| && SleepsIdle(s', l)
      ensures s'.queue <= TotalCredit(s'.producers, l) + |s'.woken|
    {
      if step == Recheck(l) {
        BacklogMisses(s, l);
      } else {
        assert SleepsIdle(s, l);
      }
    }
  }

  lemma InvIsKept(s: State, s': State, step: Step)
    requires Inv(s) && Next(s, s', step)
    ensures Inv(s')
  {
    hide MutexInv, LoopInv, TokenInv, CountInv, ProducerStep, TakeStep, PollStep;
    if ProducerStep(s, s', step) {
      ProducerKeepsMutex(s, s', step);
      ProducerKeepsLoop(s, s', step);
      ProducerKeepsToken(s, s', step);
      ProducerKeepsCount(s, s', step);
    } else if CancelStep(s, s', step) {
      CancelKeepsMutex(s, s', step);
      CancelKeepsRest(s, s', step);
    } else {
      if TakeStep(s, s', step) {
        TakeKeepsToken(s, s', step);
        TakeKeepsMutex(s, s', step);
        TakeKeepsLoop(s, s', step);
        TakeKeepsCount(s, s', step);
      } else {
        PollKeepsToken(s, s', step);
        PollKeepsMutex(s, s', step);
        PollKeepsLoop(s, s', step);
        PollKeepsCount(s, s', step);
      }
    }
  }

  lemma CancelKeepsRest(s: State, s': State, step: Step)
    requires LoopInv(s) && TokenInv(s) && CountInv(s) && CancelStep(s, s', step)
    ensures LoopInv(s') && TokenInv(s') && CountInv(s')
  {
    assert forall l | 0 <= l < |s'.loops| && SleepsIdle(s', l) :: SleepsIdle(s, l);
  }

  // ------------------------------------------------------------------ no lost wakeup

  /** The states and steps of one run. */
  ghost predicate IsRun(states: seq<State>, steps: seq<Step>)
  {
    && |states| == |steps| + 1 && Init(states[0])
    && forall i {:trigger steps[i]} | 0 <= i < |steps| :: Next(states[i], states[i + 1], steps[i])
  }

  lemma {:induction false} RunKeepsInv(states: seq<State>, steps: seq<Step>, n: nat)
    requires IsRun(states, steps) && n < |states|
    ensures Inv(states[n])
  {
    hide Inv, Init, Next;
    if n == 0 {
      InitIsInv(states[0]);
    } else {
      RunKeepsInv(states, steps, n - 1);
      var step := steps[n - 1];
      InvIsKept(states[n - 1], states[n], step);
    }
  }

  /** A producer between queueing its transfers and the end of wake_idle_loops, with wakeups left. */
  predicate StillWaking(p: Producer)
  {
    (p.Pushed? || p.Stored? || p.Released? || p.Scanning? || p.Waking?) && p.count > 0
  }

  /** In every reachable state: while a loop sleeps with its idle bit set and work is queued, some
      producer has not finished waking loops, or some loop that was woken has yet to take work. */
  lemma NoLostWakeup(states: seq<State>, steps: seq<Step>, n: nat, sleeper: nat)
    requires IsRun(states, steps) && n < |states|
    requires SleepsIdle(states[n], sleeper) && states[n].queue > 0
    ensures
      var s := states[n];
      || (exists p | 0 <= p < |s.producers| :: StillWaking(s.producers[p]))
      || (exists l | l in s.woken :: l < |s.loops| && l !in s.idle)
  {
    hide Next, Init;
    RunKeepsInv(states, steps, n);
    var s := states[n];
    if s.woken == {} {
      var p := CreditWitness(s.producers, sleeper);
      assert StillWaking(s.producers[p]);
    } else {
      var l :| l in s.woken;
    }
  }

  /** Does `step` bring queued work closer to a loop, without a new caller and without the clock?
      That is: a producer finishing its wakeups, whoever holds the mutex leaving it, or a woken
      loop on its way to take_http. A sleeping loop returns only when its wakeup has arrived. */
  predicate Towards(s: State, step: Step)
  {
    match step
    case Push(_) | Store(_) | Unlock(_) | Load(_) | Scan(_) | Wake(_) => true
    case Move(_) | Flush(_) | Leave(_) => s.holder == ByLoop(step.l)
    case Look(_) | Take(_) | Recheck(_) | Clear(_) => step.l in s.woken
    case Return(l) => l in s.woken && l in s.tokens
    case CancelPurge(_) | CancelStore | CancelUnlock => true
    case _ => false
  }

  ghost predicate Enabled(s: State, step: Step) { Towards(s, step) && exists s' :: Next(s, s', step) }

  lemma {:induction false} LowestExists(bits: set<nat>) returns (i: nat)
    requires bits != {}
    ensures IsLowest(bits, i)
    decreases bits
  {
    var x :| x in bits;
    if bits == {x} {
      i := x;
    } else {
      var rest := bits - {x};
      assert bits == rest + {x};
      var y := LowestExists(rest);
      i := Min(x, y);
      assert forall j | j in bits :: j == x || j in rest;
    }
  }

  lemma ProducerCanStep(s: State, p: nat)
    requires p < |s.producers| && s.producers[p].Scanning?
    ensures Enabled(s, Scan(p))
  {
    var Scanning(count, snapshot) := s.producers[p];
    var s';
    if count == 0 || snapshot == {} {
      s' := SetProducer(s, p, Resting);
    } else {
      var i := LowestExists(snapshot);
      s' := if i in s.idle then
              SetProducer(s, p, Waking(count, snapshot - {i}, i)).(idle := s.idle - {i}, woken := s.woken + {i})
            else SetProducer(s, p, Scanning(count, snapshot - {i}));
    }
    assert ScanStep(s, s', p);
    assert Next(s, s', Scan(p));
  }

  /** Whoever is inside the critical section can leave it. */
  lemma HolderCanStep(s: State) returns (step: Step)
    requires MutexInv(s) && s.holder != Nobody
    ensures Enabled(s, step)
  {
    match s.holder {
      case ByProducer(p) =>
        var k := s.producers[p].count;
        if s.producers[p].Locked? {
          step := Push(p);
          assert Next(s, SetProducer(s, p, Pushed(k)).(queue := s.queue + k), step);
        } else if s.producers[p].Pushed? {
          step := Store(p);
          assert Next(s, SetProducer(s, p, Stored(k)).(backlog := s.queue), step);
        } else {
          step := Unlock(p);
          assert Next(s, SetProducer(s, p, Released(k)).(holder := Nobody), step);
        }
      case ByLoop(l) =>
        if s.loops[l].phase == Holding {
          step := Move(l);
          var loop := s.loops[l];
          var moved := Min(s.queue, Max(0, loop.limit - loop.slots - loop.pending));
          var s' := s.(queue := s.queue - moved, woken := s.woken - {l},
                       loops := s.loops[l := loop.(phase := Took, pending := loop.pending + moved)]);
          assert Next(s, s', step);
        } else if s.loops[l].phase == Took {
          step := Flush(l);
          assert Next(s, SetPhase(s, l, Flushed).(backlog := s.queue), step);
        } else {
          step := Leave(l);
          assert Next(s, SetPhase(s, l, Working).(holder := Nobody), step);
        }
      case ByCanceller =>
        if s.canceller == Purging {
          step := CancelPurge(0);
          assert Next(s, s.(canceller := Purged, queue := 0), step);
        } else if s.canceller == Purged {
          step := CancelStore;
          assert Next(s, s.(canceller := Republished, backlog := s.queue), step);
        } else {
          step := CancelUnlock;
          assert Next(s, s.(canceller := Idle, holder := Nobody), step);
        }
    }
  }

  lemma PollerCanStep(s: State, l: nat) returns (step: Step)
    requires TokenInv(s) && l < |s.loops| && l in s.woken && s.loops[l].phase.Polling?
    ensures Enabled(s, step)
  {
    if l in s.tokens {
      step := Return(l);
      assert Next(s, SetPhase(s, l, Returned(s.loops[l].phase.announced)).(tokens := s.tokens - {l}), step);
    } else {
      var p :| 0 <= p < |s.producers| && s.producers[p].Waking? && s.producers[p].target == l;
      step := Wake(p);
      var to := Scanning(s.producers[p].count - 1, s.producers[p].snapshot);
      assert Next(s, SetProducer(s, p, to).(tokens := s.tokens + {l}), step);
    }
  }

  /** A woken loop can run on towards take_http, or its waker can finish waking it. */
  lemma WokenCanStep(s: State, l: nat) returns (step: Step)
    requires LoopInv(s) && TokenInv(s) && s.holder == Nobody && l in s.woken && s.loops[l].phase != Holding
    ensures Enabled(s, step)
  {
    match s.loops[l].phase {
      case Announced =>
        step := Recheck(l);
        assert Next(s, SetPhase(s, l, Polling(true, s.backlog == 0)), step);
      case Polling(_, _) =>
        step := PollerCanStep(s, l);
      case Returned(_) =>
        step := Clear(l);
        assert Next(s, SetPhase(s, l, Top).(idle := s.idle - {l}), step);
      case Top =>
        step := Look(l);
        var s' := if s.backlog == 0 then SetPhase(s, l, Working).(woken := s.woken - {l}) else SetPhase(s, l, WantLock);
        assert Next(s, s', step);
      case WantLock =>
        step := Take(l);
        assert Next(s, SetPhase(s, l, Holding).(holder := ByLoop(l)), step);
      case _ =>
        assert false;
    }
  }

  /** Queued work never waits for a timeout: while a loop sleeps idle beside a non-empty queue,
      some thread has a step of its own that brings the work closer to a loop. */
  lemma QueuedWorkIsNotStuck(states: seq<State>, steps: seq<Step>, n: nat, sleeper: nat)
    requires IsRun(states, steps) && n < |states|
    requires SleepsIdle(states[n], sleeper) && states[n].queue > 0
    ensures exists step :: Enabled(states[n], step)
  {
    hide Next, Init, LoopInv, TokenInv, Enabled;
    RunKeepsInv(states, steps, n);
    var s := states[n];
    var step;
    if s.holder != Nobody {
      step := HolderCanStep(s);
    } else if s.woken == {} {
      var p := CreditWitness(s.producers, sleeper);
      step := WakerCanStep(s, p, sleeper);
    } else {
      var l :| l in s.woken;
      WokenIsLoop(s, l);
      step := WokenCanStep(s, l);
    }
  }

  lemma WokenIsLoop(s: State, l: nat)
    requires LoopInv(s) && MutexInv(s) && l in s.woken && s.holder == Nobody
    ensures l < |s.loops| && s.loops[l].phase != Holding
  {}

  lemma WakerCanStep(s: State, p: nat, sleeper: nat) returns (step: Step)
    requires MutexInv(s) && TokenInv(s) && s.holder == Nobody && p < |s.producers|
    requires Credit(s.producers[p], sleeper) > 0
    ensures Enabled(s, step)
  {
    match s.producers[p] {
      case Released(count) =>
        step := Load(p);
        assert Next(s, SetProducer(s, p, Scanning(count, s.idle)), step);
      case Scanning(_, _) =>
        step := Scan(p);
        ProducerCanStep(s, p);
      case Waking(count, snapshot, target) =>
        step := Wake(p);
        assert Next(s, SetProducer(s, p, Scanning(count - 1, snapshot)).(tokens := s.tokens + {target}), step);
      case _ =>
        assert false;
    }
  }
}
