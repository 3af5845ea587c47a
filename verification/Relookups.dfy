/**
  A transfer whose credentials were rejected runs again only with new ones (src/runtime/engine.cpp:741-757,
  906-959): it goes back to the credential queue, is nowhere else, and returns to an I/O loop through a
  credential worker.
*/
module Relookups {
  import opened Engines
  import opened Conservation
  import opened Guarantees
  import opened Routes

  // ------------------------------------------------------------------ a run from any of its states

  /** What has been done since step `m`, in addition to what `h` says of the steps before. */
  function HistorySince(h: History, states: seq<State>, steps: seq<Step>, m: nat, n: nat): History
    requires m <= n <= |states| && n <= |steps|
  {
    if n == m then h else NotedIn(HistorySince(h, states, steps, m, n - 1), states[n - 1], steps[n - 1])
  }

  lemma {:induction false} RoutesHoldSince(
      states: seq<State>, steps: seq<Step>, concurrency: nat, ioThreads: nat, h: History, m: nat, n: nat)
    requires IsRun(states, steps, concurrency, ioThreads) && m <= n < |states| && RoutesInv(states[m], h)
    ensures RoutesInv(states[n], HistorySince(h, states, steps, m, n))
  {
    hide RoutesInv, Init, StepOf, NotedIn;
    if n > m {
      RoutesHoldSince(states, steps, concurrency, ioThreads, h, m, n - 1);
      StepKeepsRoutes(states[n - 1], states[n], steps[n - 1], HistorySince(h, states, steps, m, n - 1));
    }
  }

  lemma {:induction false} LookedUpSince(h: History, states: seq<State>, steps: seq<Step>, m: nat, n: nat,
                                         who: Identity)
    returns (l: nat)
    requires m <= n <= |states| && n <= |steps| && who !in h.looked
    requires who in HistorySince(h, states, steps, m, n).looked
    ensures m <= l < n && LooksUp(states[l], steps[l], who)
  {
    l := n - 1;
    if !LooksUp(states[l], steps[l], who) { l := LookedUpSince(h, states, steps, m, n - 1, who); }
  }

  // ------------------------------------------------------------------ nowhere else

  lemma {:induction false} NoneWithId(js: seq<Job>, id: nat)
    requires Sum(OfId(id), js) == 0
    ensures forall job | job in js :: job.id != id
  {
    if js != [] { NoneWithId(js[1..], id); }
  }

  /** The loops and the HTTP queue have no transfer of that number. */
  ghost predicate OffLoops(s: State, id: nat)
  {
    && (forall job | job in s.http :: job.id != id)
    && forall k | 0 <= k < |s.actors| :: ActorOff(s.actors[k], id)
  }

  ghost predicate ActorOff(a: Actor, id: nat)
  {
    && ((a.hand.Starting? || a.hand.Ended?) ==> a.hand.job.id != id)
    && match a.role
       case Loop(loop) =>
         forall job | job in loop.pending || job in loop.resolving || job in loop.retries || job in loop.active
                      || job in loop.waiting :: job.id != id
       case Worker(_) => true
       case Client(_, jobs) => forall job | job in jobs :: job.id != id
  }

  lemma WeightlessIsOff(a: Actor, id: nat)
    requires ActorWeight(OfId(id), a) == 0
    ensures ActorOff(a, id)
  {
    match a.role
    case Loop(loop) =>
      NoneWithId(loop.pending, id);
      NoneWithId(loop.resolving, id);
      NoneWithId(loop.retries, id);
      NoneWithId(loop.active, id);
      NoneWithId(loop.waiting, id);
    case Worker(_) =>
    case Client(_, jobs) => NoneWithId(jobs, id);
  }

  lemma QueuedIsOff(s: State, job: Job)
    requires Total(OfId(job.id), s) <= 1 && s.credentials != [] && s.credentials[0] == job
    ensures OffLoops(s, job.id)
  {
    hide ActorOff, ActorWeight;
    SumFirst(OfId(job.id), s.credentials);
    NoneWithId(s.http, job.id);
    forall k | 0 <= k < |s.actors| ensures ActorOff(s.actors[k], job.id) {
      ActorAtMost(OfId(job.id), s.actors, k);
      WeightlessIsOff(s.actors[k], job.id);
    }
  }

  /** So the lookup that it had before is none that its way to a loop could rest on. */
  lemma RoutesForgetLookup(s: State, h: History, who: Identity)
    requires RoutesInv(s, h) && OffLoops(s, who.id)
    ensures RoutesInv(s, h.(looked := h.looked - {who}))
  {
    var g := h.(looked := h.looked - {who});
    forall k | 0 <= k < |s.actors| ensures ActorRoutes(g, s.actors[k]) {
      assert ActorRoutes(h, s.actors[k]) && ActorOff(s.actors[k], who.id);
    }
  }

  /** In every run: between the end of a request whose credentials were rejected and the end of the next one of
      the same transfer, a credential worker has looked them up. */
  lemma RejectedIsLookedUpAgain(
      states: seq<State>, steps: seq<Step>, concurrency: nat, ioThreads: nat, m: nat, r: nat, job: Job)
    returns (l: nat)
    requires IsRun(states, steps, concurrency, ioThreads) && m < r < |steps| && r < |states| && job.route == Cloud
    requires steps[m].Act? && steps[m].move == Settle(NewCredentials) && steps[m].k < |states[m].actors|
    requires states[m].actors[steps[m].k].hand == Ended(job)
    requires EndsRequest(states[r], steps[r], Who(job))
    ensures m < l < r && LooksUp(states[l], steps[l], Who(job))
  {
    var s, who := states[m + 1], Who(job);
    assert StepOf(states[m], s, steps[m]);
    SettledGoesOn(states[m], s, steps[m].k, NewCredentials, job);
    hide StepOf, Init, EndsRequest, LooksUp, RoutesInv, OffLoops, Total, Balance;
    ConservationHolds(states, steps, concurrency, ioThreads, m + 1);
    IdsAreUnique(s, job.id);
    QueuedIsOff(s, job);
    RunKeepsRoutes(states, steps, concurrency, ioThreads, m + 1);
    var h := HistoryOf(states, steps, m + 1);
    var g := h.(looked := h.looked - {who});
    RoutesForgetLookup(s, h, who);
    RoutesHoldSince(states, steps, concurrency, ioThreads, g, m + 1, r);
    ActiveWasLookedUp(states[r], steps[r], HistorySince(g, states, steps, m + 1, r), who);
    l := LookedUpSince(g, states, steps, m + 1, r, who);
  }

  lemma IdsAreUnique(s: State, id: nat)
    requires Balance(s, OfId(id))
    ensures Total(OfId(id), s) <= 1
  {}

  lemma ActiveWasLookedUp(s: State, step: Step, h: History, who: Identity)
    requires RoutesInv(s, h) && EndsRequest(s, step, who) && who.route == Cloud
    ensures who in h.looked
  {
    assert ActorRoutes(h, s.actors[step.k]);
    var active := s.actors[step.k].role.loop.active;
    assert active[step.move.k] in active;
  }
}
