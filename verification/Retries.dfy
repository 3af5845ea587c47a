/**
  What the retry loops of a transfer and of a single ranged GET have in common: the answers of the
  environment, what a loop remembers between requests, and which failures to reach the host count.
*/
module Retries {
  import opened Numbers
  import opened Origin
  import opened Transfers
  import opened Uris

  /** One attempt as the environment decides it: the reply (if the request goes out at all), and
      the answers of the clock, the error body and the credential store that the loop consults. */
  datatype Exchange = Exchange(
    reply: Reply, startFailure: Option<Status>, region: string, expiredCredentials: bool,
    requestTimeout: bool, deadlineExpired: bool, noTimeToWait: bool, lookupFailure: Option<Status>,
    followRedirects: bool)

  function StatusForHttp(status: int): (s: Status)
    ensures s != KaruOk
  {
    if status in {401, 403} then ErrAuth
    else if status == 404 then ErrNotFound
    else if status == 412 then ErrPrecondition
    else if status == 416 then ErrRange
    else ErrHttp
  }

  function CredentialsExpired(backend: Backend, status: int, marker: bool): bool
  {
    || (status == 401 && backend in {Gcs, Azure, Source})
    || (status == 403 && backend in {S3, Source} && marker)
  }

  const UNREACHABLE_ATTEMPTS: int := 3

  /** Another attempt may succeed: the transport failed, and neither because the client stopped it nor for
      an unknown reason, or the server asks for patience or is itself at fault. */
  predicate WorthRepeating(code: CurlCode, status: int)
  {
    code !in {CurlCode.Ok, WriteError, OtherError} || status in {408, 425, 429} || status / 100 == 5
  }

  lemma TransientIsWorthRepeating(code: CurlCode, status: int)
    ensures Transient(code, status) <==> WorthRepeating(code, status)
  {}

  /** The error that a caller is told of a response with that status. */
  predicate NamesError(status: int, to: Status)
  {
    match status
    case 401 | 403 => to == ErrAuth
    case 404 => to == ErrNotFound
    case 412 => to == ErrPrecondition
    case 416 => to == ErrRange
    case _ => to == ErrHttp
  }

  // ------------------------------------------------------------------ the log of a run

  /** What the loop does after a response. A corrected region or fresh credentials cost no attempt. */
  datatype Decision = Finish(status: Status) | CorrectRegion | RefreshCredentials | TryAgain

  /** One request that went out, the exchange that answered it, the transport result, and what the
      loop did next. */
  datatype Logged = Logged(pin: string, first: int, length: int, x: Exchange, code: CurlCode, next: Decision)

  /** What the loop remembers between requests: the attempts that count, how many of them could not
      reach the host, and the two corrections. */
  datatype Progress = Progress(attempt: nat, unreachable: nat, regionHint: string, regionRetried: bool,
                               credentialsRetried: bool)

  function Once(b: bool): nat { if b then 1 else 0 }

  /** A last failure counts, too, even if the loop ends for another reason. */
  function Advance(p: Progress, e: Logged): Progress
  {
    match e.next
    case CorrectRegion => p.(regionHint := e.x.region, regionRetried := true)
    case RefreshCredentials => p.(credentialsRetried := true)
    case _ => p.(attempt := p.attempt + 1, unreachable := p.unreachable + Once(Unreachable(e.code)))
  }

  function ProgressOf(log: seq<Logged>, hint: string): Progress
  {
    if log == [] then Progress(0, 0, hint, false, false)
    else Advance(ProgressOf(log[..|log| - 1], hint), log[|log| - 1])
  }

  /** The requests that could not resolve the host or connect. */
  function Failures(log: seq<Logged>): nat
  {
    if log == [] then 0 else Failures(log[..|log| - 1]) + Once(CannotReach(log[|log| - 1].code))
  }

  predicate CannotReach(code: CurlCode) { code in {CouldntResolveHost, CouldntConnect} }

  lemma UnreachableIsCounted(code: CurlCode)
    ensures Unreachable(code) <==> CannotReach(code)
  {}

  /** Those among them whose exchange made the loop correct the region or refresh the credentials. */
  function Corrected(log: seq<Logged>): nat
  {
    if log == [] then 0
    else
      var e := log[|log| - 1];
      Corrected(log[..|log| - 1]) + Once(CannotReach(e.code) && (e.next.CorrectRegion? || e.next.RefreshCredentials?))
  }

  predicate NamesRegion(p: Progress, backend: Backend, x: Exchange)
  {
    !p.regionRetried && x.region != "" && x.region != p.regionHint && backend == S3
  }

  predicate RejectsCredentials(p: Progress, backend: Backend, x: Exchange)
  {
    !p.credentialsRetried && CredentialsExpired(backend, x.reply.status, x.expiredCredentials)
  }

  predicate BudgetLeft(p: Progress, code: CurlCode, maxAttempts: nat)
  {
    p.attempt + 1 < maxAttempts && p.unreachable + Once(Unreachable(code)) < UNREACHABLE_ATTEMPTS
  }

  /** A correction is made once and only where the exchange calls for it, and an attempt is repeated only
      while the budget lasts. */
  predicate Lawful(p: Progress, backend: Backend, maxAttempts: nat, x: Exchange, code: CurlCode, next: Decision)
  {
    && (next.CorrectRegion? ==> NamesRegion(p, backend, x))
    && (next.RefreshCredentials? ==> RejectsCredentials(p, backend, x))
    && (next.TryAgain? ==> BudgetLeft(p, code, maxAttempts))
  }

  lemma CorrectedOnce(p: Progress, backend: Backend, maxAttempts: nat, x: Exchange, code: CurlCode, next: Decision)
    requires Lawful(p, backend, maxAttempts, x, code, next)
    ensures next.CorrectRegion? ==> !p.regionRetried
    ensures next.RefreshCredentials? ==> !p.credentialsRetried
    ensures next.TryAgain? ==> BudgetLeft(p, code, maxAttempts)
  {}

  /** Nothing follows an end, and every decision is lawful. */
  predicate Disciplined(log: seq<Logged>, backend: Backend, hint: string, maxAttempts: nat)
  {
    log != [] ==>
      var before, e := log[..|log| - 1], log[|log| - 1];
      && Disciplined(before, backend, hint, maxAttempts)
      && (before != [] ==> !before[|before| - 1].next.Finish?)
      && Lawful(ProgressOf(before, hint), backend, maxAttempts, e.x, e.code, e.next)
  }

  lemma LogGrows(log: seq<Logged>, e: Logged, hint: string)
    ensures (log + [e])[..|log|] == log && ProgressOf(log + [e], hint) == Advance(ProgressOf(log, hint), e)
  {
    assert (log + [e])[..|log|] == log;
  }

  /** What the loop remembers stays within its budgets. */
  predicate InBudget(p: Progress, backend: Backend, maxAttempts: nat)
  {
    && p.unreachable <= Min(UNREACHABLE_ATTEMPTS, p.attempt) && p.attempt <= Max(1, maxAttempts)
    && (p.regionRetried ==> backend == S3)
    && (p.credentialsRetried ==> backend in {S3, Gcs, Azure, Source})
  }

  predicate MayGoOn(p: Progress, maxAttempts: nat)
  {
    p.unreachable < UNREACHABLE_ATTEMPTS && (p.attempt < maxAttempts || p.attempt == 0)
  }

  lemma AdvanceKeepsBudget(p: Progress, e: Logged, backend: Backend, maxAttempts: nat)
    requires InBudget(p, backend, maxAttempts) && MayGoOn(p, maxAttempts)
    requires Lawful(p, backend, maxAttempts, e.x, e.code, e.next)
    ensures InBudget(Advance(p, e), backend, maxAttempts)
    ensures !e.next.Finish? ==> MayGoOn(Advance(p, e), maxAttempts)
  {
    hide Unreachable;
  }

  /** The failures of a run are those that its loop counted and those that a correction excused. */
  lemma {:induction false} FailuresAreCounted(log: seq<Logged>, backend: Backend, hint: string, maxAttempts: nat)
    requires Disciplined(log, backend, hint, maxAttempts)
    ensures
      var p := ProgressOf(log, hint);
      && Failures(log) == p.unreachable + Corrected(log)
      && |log| == p.attempt + Once(p.regionRetried) + Once(p.credentialsRetried)
      && Corrected(log) <= Once(p.regionRetried) + Once(p.credentialsRetried) <= Corrections(backend)
      && InBudget(p, backend, maxAttempts)
      && (log != [] && !log[|log| - 1].next.Finish? ==> MayGoOn(p, maxAttempts))
  {
    hide Unreachable, CannotReach, MayGoOn;
    if log != [] {
      UnreachableIsCounted(log[|log| - 1].code);
      var before := log[..|log| - 1];
      FailuresAreCounted(before, backend, hint, maxAttempts);
      assert MayGoOn(ProgressOf(before, hint), maxAttempts) by { NothingCountedYet(maxAttempts, hint); }
      AdvanceKeepsBudget(ProgressOf(before, hint), log[|log| - 1], backend, maxAttempts);
    }
  }

  lemma NothingCountedYet(maxAttempts: nat, hint: string)
    ensures MayGoOn(ProgressOf([], hint), maxAttempts)
  {}

  /** How many corrections the backend allows in all. */
  function Corrections(backend: Backend): nat
  {
    if backend == S3 then 2 else Once(backend in {Gcs, Azure, Source})
  }

  /** The most failures to reach the host that a call can meet: those its attempts allow, and one for
      every correction. */
  function MostFailures(backend: Backend, maxAttempts: nat): nat
  {
    Min(UNREACHABLE_ATTEMPTS, Max(1, maxAttempts)) + Corrections(backend)
  }

  /** There are never more than that; more than three never happen without a correction, and always
      with one that excused a failure if the loop gave the host up. */
  lemma FailuresExceedThree(log: seq<Logged>, backend: Backend, hint: string, maxAttempts: nat)
    requires Disciplined(log, backend, hint, maxAttempts)
    ensures Failures(log) <= MostFailures(backend, maxAttempts)
    ensures Failures(log) > UNREACHABLE_ATTEMPTS
       <==> ProgressOf(log, hint).unreachable + Corrected(log) > UNREACHABLE_ATTEMPTS
    ensures Corrected(log) == 0 ==> Failures(log) <= UNREACHABLE_ATTEMPTS
    ensures ProgressOf(log, hint).unreachable >= UNREACHABLE_ATTEMPTS ==>
      (Failures(log) > UNREACHABLE_ATTEMPTS <==> Corrected(log) > 0)
    ensures Corrected(log) <= Corrections(backend)
  {
    FailuresAreCounted(log, backend, hint, maxAttempts);
  }

  /** Behind an excused failure there is one whose reply names a region or rejects the credentials. */
  lemma {:induction false} CorrectionIsInvited(log: seq<Logged>, backend: Backend, hint: string, maxAttempts: nat)
    returns (i: nat)
    requires Disciplined(log, backend, hint, maxAttempts) && Corrected(log) > 0
    ensures i < |log| && CannotReach(log[i].code)
    ensures
      || (backend == S3 && log[i].x.region != "")
      || (log[i].x.reply.status == 401 && backend in {Gcs, Azure, Source})
      || (log[i].x.reply.status == 403 && backend in {S3, Source} && log[i].x.expiredCredentials)
  {
    var e := log[|log| - 1];
    if CannotReach(e.code) && (e.next.CorrectRegion? || e.next.RefreshCredentials?) {
      i := |log| - 1;
    } else {
      i := CorrectionIsInvited(log[..|log| - 1], backend, hint, maxAttempts);
    }
  }

  /** A bucket in another region whose redirect leads to a host that accepts no connection: every
      request ends with the redirect's status and header and a connect error. */
  const DEAD_REDIRECT: Exchange := Exchange(
    Reply(Version("", []), 301, "", Missing, -1, false, [], CouldntConnect),
    None, "eu-west-1", false, false, false, false, None, true)

  // ------------------------------------------------------------------ how many failures there can be

  /** A host that cannot be connected to, behind replies that name another region and reject the
      credentials: every correction is made after a failure. */
  function DeadHost(backend: Backend, hint: string): Exchange
  {
    Exchange(Reply(Version("", []), if backend == S3 then 403 else 401, "", Missing, -1, false, [], CouldntConnect),
             None, if hint == "eu-west-1" then "us-east-1" else "eu-west-1", true, false, false, false, None, false)
  }

  /** What a loop does with it: correct what can be corrected, then try as long as the budget lasts. */
  function Resort(p: Progress, backend: Backend, maxAttempts: nat, x: Exchange): Decision
  {
    if NamesRegion(p, backend, x) then CorrectRegion
    else if RejectsCredentials(p, backend, x) then RefreshCredentials
    else if BudgetLeft(p, x.reply.code, maxAttempts) then TryAgain
    else Finish(ErrAuth)
  }

  /** `next` is what a loop resorts to, whatever status it ends with. */
  predicate IsResort(next: Decision, p: Progress, backend: Backend, maxAttempts: nat, x: Exchange)
  {
    next == Resort(p, backend, maxAttempts, x) || (next.Finish? && Resort(p, backend, maxAttempts, x).Finish?)
  }

  /** Every request of the log met the exchange `x`, and the loop did what it had to. */
  predicate MeetsOnly(log: seq<Logged>, x: Exchange, backend: Backend, hint: string, maxAttempts: nat)
  {
    log != [] ==>
      var before, e := log[..|log| - 1], log[|log| - 1];
      && MeetsOnly(before, x, backend, hint, maxAttempts)
      && (before != [] ==> !before[|before| - 1].next.Finish?)
      && e.code == x.reply.code && e.x == x && IsResort(e.next, ProgressOf(before, hint), backend, maxAttempts, x)
  }

  /** The n-th state of a loop that meets the dead host only. */
  function ProgressAt(backend: Backend, hint: string, n: nat): Progress
  {
    var counted := Max(0, n - Corrections(backend));
    Progress(counted, counted, if backend == S3 && n >= 1 then DeadHost(backend, hint).region else hint,
             backend == S3 && n >= 1, Corrections(backend) >= 1 && n >= Corrections(backend))
  }

  /** From one state to the next, until the most failures have happened. */
  lemma DeadHostStep(backend: Backend, hint: string, maxAttempts: nat, n: nat, next: Decision, e: Logged)
    requires maxAttempts >= 1 && n < MostFailures(backend, maxAttempts)
    requires e.next == next && e.code == CouldntConnect && e.x == DeadHost(backend, hint)
    requires IsResort(next, ProgressAt(backend, hint, n), backend, maxAttempts, DeadHost(backend, hint))
    ensures Advance(ProgressAt(backend, hint, n), e) == ProgressAt(backend, hint, n + 1)
    ensures next.Finish? <==> n + 1 == MostFailures(backend, maxAttempts)
  {}

  /** Every run that meets only the dead host ends with its last possible failure. */
  lemma {:induction false} DeadHostCounts(log: seq<Logged>, backend: Backend, hint: string, maxAttempts: nat)
    requires maxAttempts >= 1 && MeetsOnly(log, DeadHost(backend, hint), backend, hint, maxAttempts)
    ensures Failures(log) == |log| <= MostFailures(backend, maxAttempts)
    ensures ProgressOf(log, hint) == ProgressAt(backend, hint, |log|)
    ensures log != [] ==> (log[|log| - 1].next.Finish? <==> |log| == MostFailures(backend, maxAttempts))
  {
    hide IsResort, DeadHost, ProgressAt, MostFailures;
    if log == [] {
      NothingMet(backend, hint);
    } else {
      var before, e := log[..|log| - 1], log[|log| - 1];
      DeadHostCounts(before, backend, hint, maxAttempts);
      DeadHostCode(backend, hint);
      DeadHostStep(backend, hint, maxAttempts, |before|, e.next, e);
    }
  }

  lemma NothingMet(backend: Backend, hint: string)
    ensures ProgressAt(backend, hint, 0) == Progress(0, 0, hint, false, false)
  {}

  lemma DeadHostCode(backend: Backend, hint: string)
    ensures DeadHost(backend, hint).reply.code == CouldntConnect
    ensures forall maxAttempts: nat :: MostFailures(backend, maxAttempts) >= 1
  {}
}
