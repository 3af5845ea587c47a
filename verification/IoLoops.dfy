/**
  The container loops of the engine as the code runs them, over mutable containers
  (src/runtime/engine.cpp:381-391, 588-629, 974-1007), each proved equal to the steps of module
  Engines that it is made of.
*/
module IoLoops {
  import opened Numbers
  import opened Engines

  /** What is_cancelled answers to the i-th question, for every batch: other threads may cancel in
      between, and a batch stays cancelled. */
  type Answers = nat -> set<nat>

  ghost predicate OnlyGrows(answers: Answers) { forall i: nat, j: nat | i <= j :: answers(i) <= answers(j) }

  /** What stays of `js` when its transfers are looked at one after the other, from the i-th question on. */
  function Kept(js: seq<Job>, answers: Answers, i: nat): seq<Job>
  {
    if js == [] then [] else (if js[0].batch in answers(i) then [] else [js[0]]) + Kept(js[1..], answers, i + 1)
  }

  function Gone(js: seq<Job>, answers: Answers, i: nat): seq<Job>
  {
    if js == [] then [] else (if js[0].batch in answers(i) then [js[0]] else []) + Gone(js[1..], answers, i + 1)
  }

  /** Removing one cancelled transfer in the middle, or passing one that is kept. */
  lemma SweepOne(js: seq<Job>, at: nat, answers: Answers, i: nat)
    requires at < |js|
    ensures js[at].batch in answers(i) ==>
              && RemoveAt(js, at)[..at] + Kept(RemoveAt(js, at)[at..], answers, i + 1)
                 == js[..at] + Kept(js[at..], answers, i)
              && Gone(js[at..], answers, i) == [js[at]] + Gone(RemoveAt(js, at)[at..], answers, i + 1)
    ensures js[at].batch !in answers(i) ==>
              && js[..at + 1] + Kept(js[at + 1..], answers, i + 1) == js[..at] + Kept(js[at..], answers, i)
              && Gone(js[at + 1..], answers, i + 1) == Gone(js[at..], answers, i)
  {
    assert js[at..][1..] == js[at + 1..];
    assert RemoveAt(js, at)[..at] == js[..at];
    assert RemoveAt(js, at)[at..] == js[at + 1..];
    assert js[..at + 1] == js[..at] + [js[at]];
    var kept, gone := Kept(js[at + 1..], answers, i + 1), Gone(js[at + 1..], answers, i + 1);
    assert [] + kept == kept && [] + gone == gone;
    assert (js[..at] + [js[at]]) + kept == js[..at] + ([js[at]] + kept);
  }

  /** One of the four loops of discard_cancelled_http. Every transfer is asked about once. */
  method SweepContainer(container: seq<Job>, answers: Answers, first: nat)
    returns (kept: seq<Job>, gone: seq<Job>, next: nat)
    ensures kept == Kept(container, answers, first) && gone == Gone(container, answers, first)
    ensures next == first + |container|
  {
    kept, gone, next := container, [], first;
    var at := 0;
    while at < |kept|
      invariant at <= |kept| && next + |kept| - at == first + |container|
      invariant kept[..at] + Kept(kept[at..], answers, next) == Kept(container, answers, first)
      invariant gone + Gone(kept[at..], answers, next) == Gone(container, answers, first)
      decreases |kept| - at
    {
      SweepOne(kept, at, answers, next);
      if kept[at].batch in answers(next) {
        gone, kept := gone + [kept[at]], RemoveAt(kept, at);
      } else {
        at := at + 1;
      }
      next := next + 1;
    }
    assert kept[..at] == kept && kept[at..] == [];
  }

  /** The loops with which cancel purges a shared queue of one batch. */
  method PurgeQueue(queue: seq<Job>, batch: nat) returns (rest: seq<Job>, purged: seq<Job>)
    ensures rest == Without(queue, batch) && purged == Only(queue, batch)
  {
    var next;
    rest, purged, next := SweepContainer(queue, i => {batch}, 0);
    KeptIsWithout(queue, i => {batch}, 0, batch);
  }

  lemma {:induction false} KeptIsWithout(js: seq<Job>, answers: Answers, i: nat, batch: nat)
    requires forall j: nat :: answers(j) == {batch}
    ensures Kept(js, answers, i) == Without(js, batch) && Gone(js, answers, i) == Only(js, batch)
    decreases |js|
  {
    if js != [] {
      KeptIsWithout(js[1..], answers, i + 1, batch);
    }
  }

  /** Sweep steps on one container until its end, with what is_cancelled answers at each. */
  function SweepFrom(a: LoopState, which: nat, at: nat, answers: Answers, i: nat): LoopState
    decreases |Container(a, which)| - at
  {
    var js := Container(a, which);
    if at >= |js| then a
    else if js[at].batch in answers(i) then
      SweepFrom(WithContainer(a, which, RemoveAt(js, at)), which, at, answers, i + 1)
    else SweepFrom(a, which, at + 1, answers, i + 1)
  }

  /** The steps of the transition system amount to one loop of discard_cancelled_http, also when other
      threads cancel in between. */
  lemma {:induction false} SweepStepsAreSweep(a: LoopState, which: nat, at: nat, answers: Answers, i: nat)
    requires which <= 3 && at <= |Container(a, which)|
    ensures
      var js := Container(a, which);
      SweepFrom(a, which, at, answers, i) == WithContainer(a, which, js[..at] + Kept(js[at..], answers, i))
    decreases |Container(a, which)| - at
  {
    var js := Container(a, which);
    if at < |js| {
      SweepOne(js, at, answers, i);
      if js[at].batch in answers(i) {
        SweepStepsAreSweep(WithContainer(a, which, RemoveAt(js, at)), which, at, answers, i + 1);
      } else {
        SweepStepsAreSweep(a, which, at + 1, answers, i + 1);
      }
    } else {
      assert js[..at] + Kept(js[at..], answers, i) == js;
    }
  }

  lemma KeptUnfolds(js: seq<Job>, answers: Answers, i: nat)
    requires js != []
    ensures
      var kept, gone := Kept(js[1..], answers, i + 1), Gone(js[1..], answers, i + 1);
      if js[0].batch in answers(i) then Kept(js, answers, i) == kept && Gone(js, answers, i) == [js[0]] + gone
      else Kept(js, answers, i) == [js[0]] + kept && Gone(js, answers, i) == gone
  {}

  /** Nothing else is lost. */
  lemma {:induction false} SweepLosesNothing(js: seq<Job>, answers: Answers, i: nat)
    ensures multiset(js) == multiset(Kept(js, answers, i)) + multiset(Gone(js, answers, i))
    decreases |js|
  {
    if js != [] {
      SweepLosesNothing(js[1..], answers, i + 1);
      KeptUnfolds(js, answers, i);
      hide Kept, Gone;
      assert js == [js[0]] + js[1..];
    }
  }

  /** Nothing that was cancelled before the sweep is left, and only what is cancelled at its end goes. */
  lemma {:induction false} SweepSeparates(js: seq<Job>, answers: Answers, i: nat)
    requires OnlyGrows(answers)
    ensures forall job | job in Kept(js, answers, i) :: job.batch !in answers(i)
    ensures forall job | job in Gone(js, answers, i) :: job.batch in answers(i + |js|)
    decreases |js|
  {
    if js != [] {
      SweepSeparates(js[1..], answers, i + 1);
      KeptUnfolds(js, answers, i);
      assert answers(i) <= answers(i + 1) && answers(i) <= answers(i + |js|);
      hide Kept, Gone, OnlyGrows;
    }
  }

  class IoLoop {
    const limit: nat
    var phase: Phase
    var pending: seq<Job>
    var resolving: seq<Job>
    var retries: seq<Job>
    var active: seq<Job>
    var waiting: seq<Job>
    var cancellationPending: bool

    constructor (limit: nat)
      ensures State() == LoopState(Taking, limit, [], [], [], [], [], false)
    {
      this.limit, this.phase, this.cancellationPending := limit, Taking, false;
      pending, resolving, retries, active, waiting := [], [], [], [], [];
    }

    ghost function State(): LoopState
      reads this
    {
      LoopState(phase, limit, pending, resolving, retries, active, waiting, cancellationPending)
    }

    /** take_http under the queue mutex: as many as the loop has room for, oldest first. */
    method TakeHttp(queue: seq<Job>) returns (rest: seq<Job>)
      requires phase == Taking
      modifies this
      ensures |rest| <= |queue| && rest == queue[|queue| - |rest|..]
      ensures
        LoopMove(Empty, old(State()), Take(false), {}, queue)
        == Moved(Actor(Empty, Loop(State())), TakesHttp(queue[..|queue| - |rest|]))
      ensures rest == [] || |active| + |pending| + |resolving| >= limit
    {
      rest := queue;
      ghost var taken := 0;
      while |active| + |pending| + |resolving| < limit && rest != []
        invariant 0 <= taken <= |queue| && rest == queue[taken..] && pending == old(pending) + queue[..taken]
        invariant State() == old(State()).(pending := pending)
        invariant taken <= Max(0, limit - |old(active)| - |old(pending)| - |old(resolving)|)
        decreases |rest|
      {
        NextTaken(queue, taken);
        pending := pending + [rest[0]];
        rest := rest[1..];
        taken := taken + 1;
      }
      phase := Flagging;
      ghost var before := old(State());
      TakenIsTakeCount(before, queue, taken);
      TakeIsMove(before, queue, taken);
    }

    static lemma NextTaken(queue: seq<Job>, taken: nat)
      requires taken < |queue|
      ensures queue[..taken + 1] == queue[..taken] + [queue[taken]] && queue[taken..][1..] == queue[taken + 1..]
    {}

    /** A loop that stops at its limit or at the end of the queue has taken what the atomic step takes. */
    static lemma TakenIsTakeCount(a: LoopState, queue: seq<Job>, taken: nat)
      requires taken <= |queue| && taken <= Max(0, a.limit - |a.active| - |a.pending| - |a.resolving|)
      requires taken == |queue| || taken >= a.limit - |a.active| - |a.pending| - |a.resolving|
      ensures taken == TakeCount(a, |queue|)
    {}

    static lemma TakeIsMove(a: LoopState, queue: seq<Job>, taken: nat)
      requires a.phase == Taking && taken == TakeCount(a, |queue|) && taken <= |queue|
      ensures
        LoopMove(Empty, a, Take(false), {}, queue)
        == Moved(Actor(Empty, Loop(a.(phase := Flagging, pending := a.pending + queue[..taken]))),
                 TakesHttp(queue[..taken]))
    {
      hide TakeCount;
    }

    /** discard_cancelled_http, while other threads may cancel: `answers` is what is_cancelled says. */
    method DiscardCancelled(answers: Answers) returns (discarded: seq<Job>)
      modifies this
      ensures
        var second := |old(pending)|;
        var third := second + |old(resolving)|;
        var fourth := third + |old(retries)|;
        && State() == old(State()).(
             pending := Kept(old(pending), answers, 0), resolving := Kept(old(resolving), answers, second),
             retries := Kept(old(retries), answers, third), active := Kept(old(active), answers, fourth))
        && discarded == Gone(old(pending), answers, 0) + Gone(old(resolving), answers, second)
                      + Gone(old(retries), answers, third) + Gone(old(active), answers, fourth)
    {
      hide Kept, Gone;
      var next, kept1, kept2, kept3, kept4, gone1, gone2, gone3, gone4;
      kept1, gone1, next := SweepContainer(pending, answers, 0);
      kept2, gone2, next := SweepContainer(resolving, answers, next);
      kept3, gone3, next := SweepContainer(retries, answers, next);
      kept4, gone4, next := SweepContainer(active, answers, next);
      pending, resolving, retries, active := kept1, kept2, kept3, kept4;
      discarded := gone1 + gone2 + gone3 + gone4;
    }
  }
}
