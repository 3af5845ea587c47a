/**
  Why the steps that bring queued work towards a loop come to an end: a measure that each of them
  lowers and that no step of another thread raises, except that entering the mutex costs the turn
  of the one who entered it and a new caller brings wakeups of its own.
*/
module WakeupProgress {
  import opened Numbers
  import opened Wakeup

  // ------------------------------------------------------------------ the measure

  /** How far a producer is from the end of `wake_idle_loops` when there are `n` loops. Every bit it
      still has to try may wake a loop, which then has up to six steps of its own to take. */
  function ProducerRank(p: Producer, n: nat): nat
  {
    match p
    case Resting => 0
    case Locked(_) => 8 * n + 5
    case Pushed(_) => 8 * n + 4
    case Stored(_) => 8 * n + 3
    case Released(_) => 8 * n + 2
    case Scanning(_, snapshot) => 8 * |snapshot| + 1
    case Waking(_, snapshot, _) => 8 * |snapshot| + 2
  }

  function ProducersRank(producers: seq<Producer>, n: nat): nat
  {
    if producers == [] then 0
    else ProducersRank(producers[..|producers| - 1], n) + ProducerRank(producers[|producers| - 1], n)
  }

  /** How far a woken loop is from having run `take_http`. */
  function PhaseRank(phase: Phase): nat
  {
    match phase
    case Announced => 6
    case Polling(_, _) => 5
    case Returned(_) => 4
    case Top => 3
    case WantLock => 2
    case _ => 1
  }

  function LoopRank(loop: Loop, isWoken: bool): nat { if isWoken then PhaseRank(loop.phase) else 0 }

  function LoopsRank(loops: seq<Loop>, woken: set<nat>): nat
  {
    if loops == [] then 0
    else
      var l := |loops| - 1;
      LoopsRank(loops[..l], woken) + LoopRank(loops[l], l in woken)
  }

  /** How far the holder of the mutex is from leaving it; a producer's way is in its rank. */
  function HolderRank(s: State): nat
  {
    match s.holder
    case ByLoop(l) =>
      if l >= |s.loops| then 0
      else if s.loops[l].phase == Holding then 3
      else if s.loops[l].phase == Took then 2
      else 1
    case ByCanceller => if s.canceller == Purging then 3 else if s.canceller == Purged then 2 else 1
    case _ => 0
  }

  /** The work ahead of those who are waking loops or were woken. */
  function Ahead(s: State): nat { ProducersRank(s.producers, |s.loops|) + LoopsRank(s.loops, s.woken) }

  function Measure(s: State): nat { 4 * Ahead(s) + HolderRank(s) }

  /** What a step may add: a producer that calls in with new transfers, or another thread that takes
      its turn in the mutex. */
  function Toll(s: State, step: Step): nat
  {
    match step
    case Lock(_, _) => 4 * (8 * |s.loops| + 5)
    case CancelLock => 3
    case Take(l) => if l in s.woken then 0 else 3
    case _ => 0
  }

  // ------------------------------------------------------------------ one thread changes

  lemma {:induction false} ProducersUpdate(producers: seq<Producer>, p: nat, to: Producer, n: nat)
    requires p < |producers|
    ensures ProducersRank(producers[p := to], n) + ProducerRank(producers[p], n)
         == ProducersRank(producers, n) + ProducerRank(to, n)
  {
    var init := producers[..|producers| - 1];
    if p == |producers| - 1 {
      assert producers[p := to][..|producers| - 1] == init;
    } else {
      ProducersUpdate(init, p, to, n);
      assert producers[p := to][..|producers| - 1] == init[p := to];
    }
  }

  /** Only loop `l` may have changed. */
  lemma {:induction false} LoopsUpdate(loops: seq<Loop>, woken: set<nat>, loops': seq<Loop>, woken': set<nat>, l: nat)
    requires l < |loops| == |loops'|
    requires forall j | 0 <= j < |loops| && j != l :: loops'[j].phase == loops[j].phase && (j in woken' <==> j in woken)
    ensures LoopsRank(loops', woken') + LoopRank(loops[l], l in woken)
            == LoopsRank(loops, woken) + LoopRank(loops'[l], l in woken')
  {
    var last := |loops| - 1;
    if l == last {
      LoopsSame(loops[..last], woken, loops'[..last], woken');
    } else {
      LoopsUpdate(loops[..last], woken, loops'[..last], woken', l);
    }
  }

  lemma {:induction false} LoopsSame(loops: seq<Loop>, woken: set<nat>, loops': seq<Loop>, woken': set<nat>)
    requires |loops| == |loops'|
    requires forall j | 0 <= j < |loops| :: loops'[j].phase == loops[j].phase && (j in woken' <==> j in woken)
    ensures LoopsRank(loops', woken') == LoopsRank(loops, woken)
  {
    if loops != [] {
      var last := |loops| - 1;
      LoopsSame(loops[..last], woken, loops'[..last], woken');
    }
  }

  /** There are no more idle bits than loops. */
  lemma {:induction false} BitsAreFew(bits: set<nat>, n: nat)
    requires forall i | i in bits :: i < n
    ensures |bits| <= n
  {
    if n > 0 {
      var rest := bits - {n - 1};
      BitsAreFew(rest, n - 1);
      assert bits <= rest + {n - 1};
    } else {
      assert bits == {};
    }
  }

  // ------------------------------------------------------------------ every step

  lemma ProducerAdvances(s: State, s': State, step: Step)
    requires LoopInv(s) && ProducerStep(s, s', step)
    ensures |s'.loops| == |s.loops|
    ensures step.Lock? ==> Ahead(s') == Ahead(s) + 8 * |s.loops| + 5
    ensures !step.Lock? ==> Ahead(s') < Ahead(s)
  {
    var n := |s.loops|;
    if step.Scan? {
      ScanAdvances(s, s', step.p);
    } else {
      ProducersUpdate(s.producers, step.p, s'.producers[step.p], n);
      BitsAreFew(s.idle, n);
    }
  }

  lemma ScanAdvances(s: State, s': State, p: nat)
    requires LoopInv(s) && p < |s.producers| && s.producers[p].Scanning? && ScanStep(s, s', p)
    ensures |s'.loops| == |s.loops| && Ahead(s') < Ahead(s)
  {
    hide LoopInv, Ahead, IsLowest;
    var Scanning(count, snapshot) := s.producers[p];
    if count == 0 || snapshot == {} {
      ProducerMoves(s, p, Resting);
    } else {
      var i :| IsLowest(snapshot, i) &&
        if i in s.idle then
          s' == SetProducer(s, p, Waking(count, snapshot - {i}, i)).(idle := s.idle - {i}, woken := s.woken + {i})
        else s' == SetProducer(s, p, Scanning(count, snapshot - {i}));
      LowestIsThere(snapshot, i);
      if i in s.idle {
        BitIsWon(s, p, i, Waking(count, snapshot - {i}, i));
      } else {
        ProducerMoves(s, p, Scanning(count, snapshot - {i}));
      }
    }
  }

  lemma LowestIsThere(bits: set<nat>, i: nat)
    requires IsLowest(bits, i)
    ensures |bits - {i}| == |bits| - 1
  {}

  lemma ProducerMoves(s: State, p: nat, to: Producer)
    requires p < |s.producers| && ProducerRank(to, |s.loops|) < ProducerRank(s.producers[p], |s.loops|)
    ensures Ahead(SetProducer(s, p, to)) < Ahead(s)
  {
    ProducersUpdate(s.producers, p, to, |s.loops|);
  }

  /** Winning a bit adds a woken loop, which costs less than the bit was counted for. */
  lemma BitIsWon(s: State, p: nat, i: nat, to: Producer)
    requires LoopInv(s) && p < |s.producers| && i in s.idle
    requires ProducerRank(to, |s.loops|) + 6 < ProducerRank(s.producers[p], |s.loops|)
    ensures Ahead(SetProducer(s, p, to).(idle := s.idle - {i}, woken := s.woken + {i})) < Ahead(s)
  {
    hide ProducerRank, LoopRank, ProducersRank, LoopsRank;
    ProducersUpdate(s.producers, p, to, |s.loops|);
    WonBit(s, i);
    LoopsUpdate(s.loops, s.woken, s.loops, s.woken + {i}, i);
  }

  lemma WonBit(s: State, i: nat)
    requires LoopInv(s) && i in s.idle
    ensures i < |s.loops| && LoopRank(s.loops[i], i in s.woken) == 0 && LoopRank(s.loops[i], true) <= 6
  {}

  lemma ProducerLeavesHolder(s: State, s': State, step: Step)
    requires MutexInv(s) && ProducerStep(s, s', step)
    ensures HolderRank(s') == HolderRank(s)
  {}

  /** A loop's step changes only that loop, and makes it no more woken than it was. */
  lemma LoopAdvances(s: State, s': State, step: Step, l: nat)
    requires LoopInv(s) && LoopStep(s, s', step) && l == LoopOf(step) && l < |s.loops|
    ensures |s'.loops| == |s.loops| && Ahead(s') <= Ahead(s)
    ensures l in s.woken ==> Ahead(s') < Ahead(s)
  {
    OnlyLoopMoves(s, s', step, l);
    LoopsUpdate(s.loops, s.woken, s'.loops, s'.woken, l);
  }

  function LoopOf(step: Step): nat
  {
    match step
    case Look(l) => l
    case Take(l) => l
    case Move(l) => l
    case Flush(l) => l
    case Leave(l) => l
    case Work(l, _, _) => l
    case Decide(l, _) => l
    case Recheck(l) => l
    case Return(l) => l
    case Clear(l) => l
    case _ => 0
  }

  lemma OnlyLoopMoves(s: State, s': State, step: Step, l: nat)
    requires LoopInv(s) && LoopStep(s, s', step) && l == LoopOf(step)
    ensures l < |s.loops| == |s'.loops| && s'.producers == s.producers
    ensures forall j | 0 <= j < |s.loops| && j != l ::
              s'.loops[j].phase == s.loops[j].phase && (j in s'.woken <==> j in s.woken)
    ensures LoopRank(s'.loops[l], l in s'.woken) <= LoopRank(s.loops[l], l in s.woken)
    ensures l in s.woken ==> LoopRank(s'.loops[l], l in s'.woken) < LoopRank(s.loops[l], l in s.woken)
  {
    hide TakeStep, PollStep, LoopInv, LoopRank;
    if TakeStep(s, s', step) {
      OnlyTakerMoves(s, s', step, l);
    } else {
      OnlyPollerMoves(s, s', step, l);
    }
  }

  lemma OnlyTakerMoves(s: State, s': State, step: Step, l: nat)
    requires LoopInv(s) && TakeStep(s, s', step) && l == LoopOf(step)
    ensures l < |s.loops| == |s'.loops| && s'.producers == s.producers
    ensures forall j | 0 <= j < |s.loops| && j != l ::
              s'.loops[j].phase == s.loops[j].phase && (j in s'.woken <==> j in s.woken)
    ensures LoopRank(s'.loops[l], l in s'.woken) <= LoopRank(s.loops[l], l in s.woken)
    ensures l in s.woken ==> LoopRank(s'.loops[l], l in s'.woken) < LoopRank(s.loops[l], l in s.woken)
  {}

  lemma OnlyPollerMoves(s: State, s': State, step: Step, l: nat)
    requires LoopInv(s) && PollStep(s, s', step) && l == LoopOf(step)
    ensures l < |s.loops| == |s'.loops| && s'.producers == s.producers
    ensures forall j | 0 <= j < |s.loops| && j != l ::
              s'.loops[j].phase == s.loops[j].phase && (j in s'.woken <==> j in s.woken)
    ensures LoopRank(s'.loops[l], l in s'.woken) <= LoopRank(s.loops[l], l in s.woken)
    ensures l in s.woken ==> LoopRank(s'.loops[l], l in s'.woken) < LoopRank(s.loops[l], l in s.woken)
  {}

  lemma LoopHolds(s: State, s': State, step: Step)
    requires MutexInv(s) && LoopStep(s, s', step)
    ensures step.Take? ==> HolderRank(s') <= HolderRank(s) + 3
    ensures !step.Take? ==> HolderRank(s') <= HolderRank(s)
    ensures step.Move? || step.Flush? || step.Leave? ==> HolderRank(s') < HolderRank(s)
  {}

  lemma CancelAdvances(s: State, s': State, step: Step)
    requires MutexInv(s) && CancelStep(s, s', step)
    ensures Ahead(s') == Ahead(s) && |s'.loops| == |s.loops|
    ensures step.CancelLock? ==> HolderRank(s') <= HolderRank(s) + 3
    ensures step.WakeLoop? ==> HolderRank(s') == HolderRank(s)
    ensures step.CancelPurge? || step.CancelStore? || step.CancelUnlock? ==> HolderRank(s') < HolderRank(s)
  {}

  /** Every step that brings work closer lowers the measure, and no step raises it by more than its
      toll: nothing at all, unless it is a new caller's or another thread's entry into the mutex. */
  lemma MeasureFalls(s: State, s': State, step: Step)
    requires Inv(s) && Next(s, s', step)
    ensures Measure(s') <= Measure(s) + Toll(s, step)
    ensures Towards(s, step) ==> Measure(s') < Measure(s)
    ensures |s'.loops| == |s.loops|
  {
    hide Ahead, HolderRank, MutexInv, LoopInv, TokenInv, CountInv, ProducerStep, LoopStep, CancelStep;
    if ProducerStep(s, s', step) {
      ProducerSteps(s, s', step);
      ProducerAdvances(s, s', step);
      ProducerLeavesHolder(s, s', step);
    } else if LoopStep(s, s', step) {
      LoopSteps(s, s', step);
      OnlyLoopMoves(s, s', step, LoopOf(step));
      LoopAdvances(s, s', step, LoopOf(step));
      LoopHolds(s, s', step);
    } else {
      CancelSteps(s, s', step);
      CancelAdvances(s, s', step);
    }
  }

  lemma ProducerSteps(s: State, s': State, step: Step)
    requires ProducerStep(s, s', step)
    ensures step.Lock? || step.Push? || step.Store? || step.Unlock? || step.Load? || step.Scan? || step.Wake?
  {}

  lemma LoopSteps(s: State, s': State, step: Step)
    requires LoopStep(s, s', step)
    ensures step.Look? || step.Take? || step.Move? || step.Flush? || step.Leave? || step.Work? || step.Decide?
         || step.Recheck? || step.Return? || step.Clear?
  {}

  lemma CancelSteps(s: State, s': State, step: Step)
    requires CancelStep(s, s', step)
    ensures step.CancelLock? || step.CancelPurge? || step.CancelStore? || step.CancelUnlock? || step.WakeLoop?
  {}

  // ------------------------------------------------------------------ runs

  /** The steps of a run from `i` to `n` that bring work closer, and what the others may add. */
  function Closer(states: seq<State>, steps: seq<Step>, i: nat, n: nat): nat
    requires i <= n <= |steps| <= |states|
  {
    if i == n then 0 else Closer(states, steps, i, n - 1) + if Towards(states[n - 1], steps[n - 1]) then 1 else 0
  }

  function Tolls(states: seq<State>, steps: seq<Step>, i: nat, n: nat): nat
    requires i <= n <= |steps| <= |states|
  {
    if i == n then 0 else Tolls(states, steps, i, n - 1) + Toll(states[n - 1], steps[n - 1])
  }

  /** In any stretch of any run, the steps that bring work closer are at most the measure of its
      first state and what new callers and other visitors of the mutex add. */
  lemma {:induction false} CloserIsBounded(states: seq<State>, steps: seq<Step>, i: nat, n: nat)
    requires IsRun(states, steps) && i <= n <= |steps|
    ensures Closer(states, steps, i, n) + Measure(states[n]) <= Measure(states[i]) + Tolls(states, steps, i, n)
    decreases n - i
  {
    hide Next, Init, Inv, Measure, Towards, Toll;
    if i < n {
      CloserIsBounded(states, steps, i, n - 1);
      RunKeepsInv(states, steps, n - 1);
      var step := steps[n - 1];
      assert Next(states[n - 1], states[n], step);
      MeasureFalls(states[n - 1], states[n], step);
    }
  }

  /** So a stretch of only such steps is no longer than the measure, and where none of them is left
      no loop sleeps idle beside queued work. */
  lemma WorkReachesLoop(states: seq<State>, steps: seq<Step>, i: nat, n: nat, sleeper: nat)
    requires IsRun(states, steps) && i <= n <= |steps|
    requires forall k | i <= k < n :: Towards(states[k], steps[k])
    ensures n - i <= Measure(states[i])
    ensures (forall step :: !Enabled(states[n], step)) ==> !SleepsIdle(states[n], sleeper) || states[n].queue == 0
  {
    hide Next, Init, Inv, Measure, Towards, Toll, Enabled;
    CloserIsBounded(states, steps, i, n);
    AllCloser(states, steps, i, n);
    if SleepsIdle(states[n], sleeper) && states[n].queue > 0 {
      QueuedWorkIsNotStuck(states, steps, n, sleeper);
    }
  }

  lemma {:induction false} AllCloser(states: seq<State>, steps: seq<Step>, i: nat, n: nat)
    requires i <= n <= |steps| <= |states| && forall k | i <= k < n :: Towards(states[k], steps[k])
    ensures Closer(states, steps, i, n) == n - i && Tolls(states, steps, i, n) == 0
    decreases n - i
  {
    if i < n {
      AllCloser(states, steps, i, n - 1);
      assert Towards(states[n - 1], steps[n - 1]);
    }
  }
}
