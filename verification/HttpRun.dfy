/**
  All attempts of one HTTP transfer, as the I/O loop drives them: send, receive, then complete,
  correct the region, refresh the credentials, resume, or fail (src/runtime/engine.cpp:710-788).
*/
module HttpRun {
  import opened Numbers
  import opened Origin
  import opened Scatter
  import opened Transfers
  import opened Resumption
  import opened Retries
  import opened Uris

  /** The environment's answer to the i-th request, which names a pin, a first byte and a length. */
  type Server = (nat, string, int, int) -> Exchange

  /** Every reply is honest, honours the pin it was sent, and is of one of `versions`. */
  ghost predicate HonestServer(server: Server, versions: set<Version>)
  {
    && Coherent(versions)
    && forall i: nat, pin: string, first: int, length: int {:trigger server(i, pin, first, length)} ::
         HonestExchange(server(i, pin, first, length), pin, versions)
  }

  ghost predicate HonestExchange(x: Exchange, pin: string, versions: set<Version>)
  {
    && Honest(x.reply) && HonoursPin(x.reply, pin) && x.reply.version in versions
    && (forall i | 0 <= i < |x.reply.chunks| :: |x.reply.chunks[i]| <= MAX64)
    && x.startFailure != Some(KaruOk) && x.lookupFailure != Some(KaruOk)
  }

  /** The status of a transfer that is given up (src/runtime/http_response.cpp:199-258). */
  function FailureStatus(r: ResponseState, ifMatch: string, resumeEtag: string, code: CurlCode, followRedirects: bool)
    : (s: Status)
    ensures s != KaruOk
  {
    if 200 <= r.httpStatus < 300 && r.transformed then ErrHttp
    else if r.versionChanged && ifMatch != "" then ErrPrecondition
    else if r.versionChanged || (r.httpStatus == 412 && ifMatch == "" && resumeEtag != "") then ErrHttp
    else if r.fallbackRejected then ErrHttp
    else if r.httpStatus == 206 && !r.contentRangeMatches then ErrHttp
    else if !code.Ok? && 300 <= r.httpStatus < 400 && followRedirects then ErrNetwork
    else if r.httpStatus >= 300 then StatusForHttp(r.httpStatus)
    else ErrNetwork
  }

  predicate Retryable(r: ResponseState, ifMatch: string, resumeEtag: string, code: CurlCode, requestTimeout: bool)
  {
    || Transient(code, r.httpStatus)
    || (ifMatch == "" && (r.versionChanged || (r.httpStatus == 412 && resumeEtag != "")))
    || (r.httpStatus == 400 && requestTimeout)
  }

  // ------------------------------------------------------------------ one attempt

  /** What the transfer holds after a response: `received` bytes of the single version `current`,
      of which the first `resumed` are pinned. */
  predicate OneVersion(l: Layout, contents: seq<seq<byte>>, resumed: u64, received: u64, pin: string,
                       current: Version, versions: set<Version>)
    requires Fits(l, contents)
  {
    && resumed <= received && current in versions && Holds(l, contents, received, current.content)
    && PrefixPinned(l, contents, resumed, pin, current, versions)
    && (IsStrongEtag(pin) && received > 0 ==> current.etag == pin)
  }

  function CurrentVersion(verdict: Verdict, kept: u64, reply: Reply, origin: Version): Version
  {
    if kept > 0 && (reply.chunks == [] || !verdict.Stream?) then origin else reply.version
  }

  lemma ResponseIsOneVersion(l: Layout, pin: string, limit: u64, kept: u64, before: seq<seq<byte>>,
                             reply: Reply, origin: Version, versions: set<Version>, a: Arrival)
    requires ValidLayout(l) && kept < l.length && Fits(l, before)
    requires Honest(reply) && HonoursPin(reply, pin) && Coherent(versions) && reply.version in versions
    requires PrefixPinned(l, before, kept, pin, origin, versions)
    requires reply.chunks == [] ==> a == Arrival(kept, kept, before)
    requires reply.chunks != [] ==> a == Arrive(l, Judge(l, pin, limit, kept, reply), kept, before, reply.Body())
    ensures
      var current := CurrentVersion(Judge(l, pin, limit, kept, reply), kept, reply, origin);
      && Fits(l, a.buffers) && OneVersion(l, a.buffers, a.resumed, a.received, pin, current, versions)
      && (a.received > a.resumed && reply.ReportedEtag() != "" ==> current.etag == reply.ReportedEtag())
  {
    hide Holds, ValidContentRange, PatchAll, Landed;
    var verdict := Judge(l, pin, limit, kept, reply);
    HoldsNothing(l, before, reply.version.content);
    HoldsNothing(l, before, origin.content);
    if reply.chunks != [] && verdict.Stream? {
      BodyHasStatus(reply);
      ArrivalIsOneVersion(l, pin, limit, kept, before, reply, origin, versions);
      HoldsLess(l, a.buffers, a.received, a.resumed, reply.version.content);
    }
  }

  /** Only a 200, a 206 or an error has a body. */
  lemma BodyHasStatus(reply: Reply)
    requires Honest(reply)
    ensures reply.chunks != [] ==> reply.status in {200, 206} || reply.status >= 300
  {}

  /** A resumed transfer was answered by an empty 200, of which no byte was ever looked at. */
  ghost predicate UnreadEmptyReply(t: Transfer)
    reads t
  {
    t.response.httpStatus == 200 && !t.response.checkedStatus && t.resumed > 0
  }

  /** What a completion says about `last`, the version that the completing reply came from: a 200 or
      206 is truthful exactly if it is no unread empty reply, and any other status brings no byte and
      is truthful exactly if the object ends where the kept bytes do. The bytes held are of `last`,
      unless none was read and some are kept. */
  ghost predicate Told(t: Transfer, source: Version, last: Version)
    reads t
  {
    && 200 <= t.response.httpStatus < 300
    && (if t.response.httpStatus in {200, 206} then
          Truthful(t.Shape(), t.received, last.content) == !UnreadEmptyReply(t)
        else
          && t.received == t.resumed
          && Truthful(t.Shape(), t.received, last.content) == EndsAt(t.Shape(), t.resumed, last.content))
    && (source == last || (t.resumed > 0 && !t.response.checkedStatus))
  }

  /** The transfer has taken in the response: it holds what arrived, and remembers the headers. */
  ghost predicate Took(t: Transfer, kept: u64, before: seq<seq<byte>>, reply: Reply, code: CurlCode)
    requires t.WellFormed() && kept < t.length && Fits(t.Shape(), before)
    reads t, t.Buffers()
  {
    var l, pin, limit := t.Shape(), t.VersionPin(), t.fallbackLimit;
    && Arrival(t.resumed, t.received, t.Contents()) == ArrivalOf(l, pin, limit, kept, before, reply)
    && t.response.httpStatus == reply.status && t.response.transformed == reply.transformed
    && t.response.contentRange == reply.range && t.response.etag == reply.ReportedEtag()
    && t.response.contentRangeMatches == ValidContentRange(l, kept, reply.range)
    && t.response.satisfied == (t.received == t.length)
    && t.response.checkedStatus == (reply.chunks != [])
    && t.response.versionChanged == (reply.chunks != [] && Judge(l, pin, limit, kept, reply).VersionChanged?)
    && (t.response.fallbackRejected ==> Judge(l, pin, limit, kept, reply).FallbackRejected?)
    && (code == reply.code || (code == WriteError && reply.chunks != []))
    && (code != reply.code ==> t.response.satisfied || !Judge(l, pin, limit, kept, reply).Stream?)
    && (code.Ok? && reply.chunks != [] ==> !Judge(l, pin, limit, kept, reply).Abort?
                                           && !Judge(l, pin, limit, kept, reply).VersionChanged?
                                           && !Judge(l, pin, limit, kept, reply).FallbackRejected?)
  }

  /** A successful reply names another version than the one asked for. */
  predicate Contradicts(reply: Reply, pin: string)
  {
    reply.Successful() && IsStrongEtag(pin) && reply.ReportedEtag() != "" && reply.ReportedEtag() != pin
  }

  /** A body is refused for its version exactly if its headers contradict the pin, and only a whole object
      for its length. */
  predicate Flagged(r: ResponseState, reply: Reply, pin: string)
  {
    && r.transformed == reply.transformed
    && r.versionChanged == (reply.chunks != [] && !reply.transformed && Contradicts(reply, pin))
    && (r.fallbackRejected ==> reply.status == 200)
  }

  method TakeIn(t: Transfer, reply: Reply, followRedirects: bool) returns (code: CurlCode)
    requires t.WellFormed() && t.Valid() && Honest(reply)
    requires forall i | 0 <= i < |reply.chunks| :: |reply.chunks[i]| <= MAX64
    modifies t, t.Buffers()
    ensures t.Valid() && t.resumeEtag == old(t.resumeEtag) && t.followRedirects == followRedirects
    ensures t.VersionPin() == old(t.VersionPin()) && Fits(t.Shape(), old(t.Contents()))
    ensures Took(t, old(t.resumed), old(t.Contents()), reply, code)
  {
    hide Arrive, Judge, Honest, ValidContentRange;
    BodyHasStatus(reply);
    t.followRedirects := followRedirects;
    ghost var contents := t.Contents();
    t.HeaderCallback(reply);
    assert t.before == contents;
    var accepted := t.ReceiveBody(reply.chunks);
    code := if accepted then reply.code else WriteError;
  }

  /** One response, from its status line to the end of its body. */
  method Receive(t: Transfer, reply: Reply, followRedirects: bool, ghost origin: Version, ghost versions: set<Version>)
    returns (code: CurlCode, ghost current: Version)
    requires t.WellFormed() && t.Valid()
    requires Honest(reply) && HonoursPin(reply, t.VersionPin()) && Coherent(versions) && reply.version in versions
    requires forall i | 0 <= i < |reply.chunks| :: |reply.chunks[i]| <= MAX64
    requires PrefixPinned(t.Shape(), t.Contents(), t.resumed, t.VersionPin(), origin, versions)
    modifies t, t.Buffers()
    ensures t.Valid() && t.resumeEtag == old(t.resumeEtag) && t.followRedirects == followRedirects
    ensures OneVersion(t.Shape(), t.Contents(), t.resumed, t.received, t.VersionPin(), current, versions)
    ensures t.received > t.resumed && t.response.etag != "" ==> current.etag == t.response.etag
    ensures t.response.etag == reply.ReportedEtag() && t.response.httpStatus == reply.status
    ensures Flagged(t.response, reply, t.VersionPin())
    ensures code == reply.code || (code == WriteError && reply.chunks != [])
    ensures Succeeded(t.response, t.resumed, t.received, code) ==> Told(t, current, reply.version)
    ensures Arrived(t.Shape(), t.fallbackLimit, t.VersionPin(), t.offset + old(t.resumed), reply, t.resumed, t.received)
    ensures Fulfils(t.Shape(), t.fallbackLimit, t.VersionPin(), t.offset + old(t.resumed), reply) ==>
              && Succeeded(t.response, t.resumed, t.received, code)
              && t.received == Existing(t.Shape(), reply.version.content)
    ensures reply.chunks != [] && reply.status < 300 && Succeeded(t.response, t.resumed, t.received, code) ==>
              Fulfils(t.Shape(), t.fallbackLimit, t.VersionPin(), t.offset + old(t.resumed), reply)
  {
    hide Holds, PrefixPinned, OneVersion, Honest, Succeeded, Told, Fulfils, Existing, Took, Transfer.WellFormed,
      Transfer.VersionPin, Arrived;
    ghost var kept, before := t.resumed, t.Contents();
    code := TakeIn(t, reply, followRedirects);
    current := TookOneVersion(t, kept, before, reply, code, origin, versions);
    TookAllExactly(t, kept, before, reply, code);
    if Succeeded(t.response, t.resumed, t.received, code) {
      TookIsTold(t, kept, before, reply, code, current, origin);
    }
  }

  function CurrentAfter(t: Transfer, kept: u64, reply: Reply, origin: Version): Version
    requires t.WellFormed() && kept < t.length
    reads t
  {
    CurrentVersion(Judge(t.Shape(), t.VersionPin(), t.fallbackLimit, kept, reply), kept, reply, origin)
  }

  lemma TookOneVersion(t: Transfer, kept: u64, before: seq<seq<byte>>, reply: Reply, code: CurlCode,
                       origin: Version, versions: set<Version>) returns (current: Version)
    requires t.WellFormed() && t.Valid() && kept < t.length && Fits(t.Shape(), before)
    requires Took(t, kept, before, reply, code)
    requires Honest(reply) && HonoursPin(reply, t.VersionPin()) && Coherent(versions) && reply.version in versions
    requires PrefixPinned(t.Shape(), before, kept, t.VersionPin(), origin, versions)
    ensures current == CurrentAfter(t, kept, reply, origin)
    ensures OneVersion(t.Shape(), t.Contents(), t.resumed, t.received, t.VersionPin(), current, versions)
    ensures t.received > t.resumed && t.response.etag != "" ==> current.etag == t.response.etag
    ensures t.response.etag == reply.ReportedEtag() && t.response.httpStatus == reply.status
    ensures code == reply.code || (code == WriteError && reply.chunks != [])
    ensures Flagged(t.response, reply, t.VersionPin())
  {
    JudgedSuccess(t.Shape(), t.VersionPin(), t.fallbackLimit, kept, reply);
    hide Holds, Arrive, Judge, PrefixPinned, OneVersion, Honest;
    current := CurrentAfter(t, kept, reply, origin);
    ResponseIsOneVersion(t.Shape(), t.VersionPin(), t.fallbackLimit, kept, before, reply, origin, versions,
                         Arrival(t.resumed, t.received, t.Contents()));
  }

  lemma TookAllExactly(t: Transfer, kept: u64, before: seq<seq<byte>>, reply: Reply, code: CurlCode)
    requires t.WellFormed() && t.Valid() && kept < t.length && Fits(t.Shape(), before)
    requires Took(t, kept, before, reply, code) && Honest(reply)
    ensures Fulfils(t.Shape(), t.fallbackLimit, t.VersionPin(), t.offset + kept, reply) ==>
              && Succeeded(t.response, t.resumed, t.received, code)
              && t.received == Existing(t.Shape(), reply.version.content)
    ensures reply.chunks != [] && reply.status < 300 && Succeeded(t.response, t.resumed, t.received, code) ==>
              Fulfils(t.Shape(), t.fallbackLimit, t.VersionPin(), t.offset + kept, reply)
    ensures Arrived(t.Shape(), t.fallbackLimit, t.VersionPin(), t.offset + kept, reply, t.resumed, t.received)
  {
    OfferedHasArrived(t.Shape(), t.VersionPin(), t.fallbackLimit, kept, before, reply);
    hide Arrived, Arrive, Judge, Honest, Succeeded, Fulfils, Existing, ValidContentRange;
    BodyHasStatus(reply);
    JudgedSuccess(t.Shape(), t.VersionPin(), t.fallbackLimit, kept, reply);
    if reply.status in {200, 206} {
      FulfilledExactly(t.Shape(), t.VersionPin(), t.fallbackLimit, kept, before, reply, t.response, code);
    } else {
      OnlyThoseFulfil(t.Shape(), t.fallbackLimit, t.VersionPin(), t.offset + kept, reply);
    }
  }

  lemma JudgedSuccess(l: Layout, pin: string, limit: u64, kept: u64, reply: Reply)
    requires ValidLayout(l) && kept < l.length
    ensures reply.status < 300 ==> !Judge(l, pin, limit, kept, reply).ErrorBody?
    ensures Judge(l, pin, limit, kept, reply).VersionChanged? == (!reply.transformed && Contradicts(reply, pin))
    ensures Judge(l, pin, limit, kept, reply).FallbackRejected? ==> reply.status == 200
  {}

  lemma TookIsTold(t: Transfer, kept: u64, before: seq<seq<byte>>, reply: Reply, code: CurlCode, current: Version,
                   origin: Version)
    requires t.WellFormed() && t.Valid() && kept < t.length && Fits(t.Shape(), before)
    requires Took(t, kept, before, reply, code) && Honest(reply) && current == CurrentAfter(t, kept, reply, origin)
    requires Succeeded(t.response, t.resumed, t.received, code)
    ensures Told(t, current, reply.version)
  {
    hide Arrive, Judge, Honest, Succeeded, CompletedBy, Truthful, EndsAt;
    ghost var l, pin, a := t.Shape(), t.VersionPin(), Arrival(t.resumed, t.received, t.Contents());
    BodyHasStatus(reply);
    Completes(l, pin, t.fallbackLimit, kept, before, reply, t.response, a, code);
    ShortSuccessIsTruthful(l, pin, t.fallbackLimit, kept, before, reply, t.response, code);
    SuccessfulOnly(t.response, t.resumed, t.received, code);
  }

  /** Only a body that is stored completes a transfer. */
  lemma Completes(l: Layout, pin: string, limit: u64, kept: u64, before: seq<seq<byte>>, reply: Reply,
                  r: ResponseState, a: Arrival, code: CurlCode)
    requires ValidLayout(l) && kept < l.length && Fits(l, before)
    requires a == ArrivalOf(l, pin, limit, kept, before, reply) && a.resumed <= a.received
    requires r.httpStatus == reply.status && r.transformed == reply.transformed && r.contentRange == reply.range
    requires r.contentRangeMatches == ValidContentRange(l, kept, reply.range) && r.satisfied == (a.received == l.length)
    requires code.Ok? ==> reply.code.Ok?
    requires var v := Judge(l, pin, limit, kept, reply); code.Ok? && reply.chunks != [] ==> v.Stream? || v.ErrorBody?
    requires Succeeded(r, a.resumed, a.received, code)
    ensures CompletedBy(l, pin, limit, kept, before, reply, r, code)
    ensures reply.chunks == [] ==> a.resumed == kept
    ensures reply.chunks != [] ==> Judge(l, pin, limit, kept, reply).Stream?
  {
    hide Landed, PatchAll, ValidContentRange;
  }

  lemma OnlyThoseFulfil(l: Layout, limit: u64, pin: string, first: int, reply: Reply)
    ensures Fulfils(l, limit, pin, first, reply) ==> reply.status in {200, 206}
  {}

  lemma SuccessfulOnly(r: ResponseState, resumed: u64, received: u64, code: CurlCode)
    requires Succeeded(r, resumed, received, code)
    ensures 200 <= r.httpStatus < 300 && !r.transformed
  {}

  // ------------------------------------------------------------------ the log of a run

  /** Is there neither success, nor a deadline, nor anything to correct after this exchange? */
  predicate OnlyRetryHelps(p: Progress, backend: Backend, x: Exchange, next: Decision)
  {
    next != Finish(KaruOk) && !x.deadlineExpired && !NamesRegion(p, backend, x) && !RejectsCredentials(p, backend, x)
  }

  /** Is there a reason to repeat the request? A new version, or a failed pin, may be one. */
  predicate MayPass(x: Exchange, code: CurlCode)
  {
    || WorthRepeating(code, x.reply.status) || (x.reply.status == 400 && x.requestTimeout)
    || x.reply.status == 412 || x.reply.Successful()
  }

  /** The decision that the loop takes after an exchange, as far as the exchange alone determines it. */
  predicate Decided(p: Progress, backend: Backend, maxAttempts: nat, x: Exchange, code: CurlCode, next: Decision)
  {
    var open := next != Finish(KaruOk) && !x.deadlineExpired;
    var mayRetry := OnlyRetryHelps(p, backend, x, next) && BudgetLeft(p, code, maxAttempts) && !x.noTimeToWait;
    && (code == x.reply.code || (code == WriteError && x.reply.chunks != []))
    && (next == Finish(KaruOk) ==> x.reply.Successful())
    && (next.CorrectRegion? <==> open && NamesRegion(p, backend, x))
    && (next.RefreshCredentials? <==>
          open && !NamesRegion(p, backend, x) && RejectsCredentials(p, backend, x) && x.lookupFailure.None?)
    && (next.TryAgain? ==> mayRetry && MayPass(x, code))
    && (mayRetry && WorthRepeating(code, x.reply.status) ==> next.TryAgain?)
  }

  /** `log` is what happens between the loop and `server`, up to some point. Every request asks for
      the rest of the transfer's range. */
  ghost predicate Run(log: seq<Logged>, server: Server, backend: Backend, hint: string, maxAttempts: nat, l: Layout)
  {
    log != [] ==>
      var before, i, e := log[..|log| - 1], |log| - 1, log[|log| - 1];
      && Run(before, server, backend, hint, maxAttempts, l)
      && (before != [] ==> !before[i - 1].next.Finish?)
      && l.offset <= e.first < e.first + e.length == l.offset + l.length
      && e.x == server(i, e.pin, e.first, e.length) && e.x.startFailure.None?
      && Decided(ProgressOf(before, hint), backend, maxAttempts, e.x, e.code, e.next)
  }

  lemma RunGrows(log: seq<Logged>, e: Logged, server: Server, backend: Backend, hint: string, maxAttempts: nat,
                 l: Layout)
    requires Run(log, server, backend, hint, maxAttempts, l) && (log != [] ==> !log[|log| - 1].next.Finish?)
    requires l.offset <= e.first < e.first + e.length == l.offset + l.length
    requires e.x == server(|log|, e.pin, e.first, e.length) && e.x.startFailure.None?
    requires Decided(ProgressOf(log, hint), backend, maxAttempts, e.x, e.code, e.next)
    ensures Run(log + [e], server, backend, hint, maxAttempts, l)
    ensures ProgressOf(log + [e], hint) == Advance(ProgressOf(log, hint), e)
  {
    LogGrows(log, e, hint);
  }

  lemma DecidedIsLawful(p: Progress, backend: Backend, maxAttempts: nat, x: Exchange, code: CurlCode, next: Decision)
    requires Decided(p, backend, maxAttempts, x, code, next)
    ensures Lawful(p, backend, maxAttempts, x, code, next)
  {}

  lemma {:induction false} RunIsDisciplined(log: seq<Logged>, server: Server, backend: Backend, hint: string,
                                            maxAttempts: nat, l: Layout)
    requires Run(log, server, backend, hint, maxAttempts, l)
    ensures Disciplined(log, backend, hint, maxAttempts)
  {
    hide Decided, Lawful;
    if log != [] {
      var before, e := log[..|log| - 1], log[|log| - 1];
      RunIsDisciplined(before, server, backend, hint, maxAttempts, l);
      DecidedIsLawful(ProgressOf(before, hint), backend, maxAttempts, e.x, e.code, e.next);
    }
  }

  /** A run against the dead redirect fails to connect four times: the first failure corrects the region, and three
      more are counted. */
  lemma {:induction false} DeadRedirectFailsFourTimes(log: seq<Logged>, hint: string, maxAttempts: nat, l: Layout)
    requires hint != "eu-west-1" && maxAttempts >= UNREACHABLE_ATTEMPTS && log != []
    requires Run(log, (i, pin, first, length) => DEAD_REDIRECT, S3, hint, maxAttempts, l)
    ensures ProgressOf(log, hint) == Progress(|log| - 1, |log| - 1, "eu-west-1", true, false)
    ensures Failures(log) == |log| <= 4
    ensures log[|log| - 1].next.Finish? <==> |log| == 4
  {
    var before, e := log[..|log| - 1], log[|log| - 1];
    if before != [] {
      DeadRedirectFailsFourTimes(before, hint, maxAttempts, l);
    }
    assert Decided(ProgressOf(before, hint), S3, maxAttempts, e.x, e.code, e.next) && e.code == CouldntConnect;
  }

  // ------------------------------------------------------------------ how many failures there can be

  function DeadServer(backend: Backend, hint: string): Server { (i, pin, first, length) => DeadHost(backend, hint) }

  lemma DeadServerIsHonest(backend: Backend, hint: string)
    ensures HonestServer(DeadServer(backend, hint), {Version("", [])})
  {
    assert DeadHost(backend, hint).reply.ReportedEtag() == "";
  }

  lemma DecidedIsResort(p: Progress, backend: Backend, hint: string, maxAttempts: nat, code: CurlCode, next: Decision)
    requires Decided(p, backend, maxAttempts, DeadHost(backend, hint), code, next)
    ensures code == CouldntConnect && IsResort(next, p, backend, maxAttempts, DeadHost(backend, hint))
  {}

  lemma ResortIsDecided(p: Progress, backend: Backend, hint: string, maxAttempts: nat)
    ensures
      var x := DeadHost(backend, hint);
      Decided(p, backend, maxAttempts, x, CouldntConnect, Resort(p, backend, maxAttempts, x))
  {}

  lemma {:induction false} RunMeetsOnly(log: seq<Logged>, backend: Backend, hint: string, maxAttempts: nat, l: Layout)
    requires Run(log, DeadServer(backend, hint), backend, hint, maxAttempts, l)
    ensures MeetsOnly(log, DeadHost(backend, hint), backend, hint, maxAttempts)
  {
    hide Decided, IsResort;
    if log != [] {
      var before, e := log[..|log| - 1], log[|log| - 1];
      RunMeetsOnly(before, backend, hint, maxAttempts, l);
      DecidedIsResort(ProgressOf(before, hint), backend, hint, maxAttempts, e.code, e.next);
    }
  }

  /** Against the dead host there is a run of every length up to the most failures; the last one has
      come to its end with exactly that many. */
  lemma {:induction false} DeadHostHasRun(backend: Backend, hint: string, maxAttempts: nat, l: Layout, n: nat)
    returns (log: seq<Logged>)
    requires maxAttempts >= 1 && ValidLayout(l) && n <= MostFailures(backend, maxAttempts)
    ensures Run(log, DeadServer(backend, hint), backend, hint, maxAttempts, l) && Failures(log) == |log| == n
    ensures log != [] ==> (log[|log| - 1].next.Finish? <==> n == MostFailures(backend, maxAttempts))
    decreases n
  {
    hide Decided, Resort, MostFailures, Failures;
    log := [];
    if n > 0 {
      log := DeadHostHasRun(backend, hint, maxAttempts, l, n - 1);
      var p := ProgressOf(log, hint);
      var x := DeadHost(backend, hint);
      var e := Logged("", l.offset, l.length, x, CouldntConnect, Resort(p, backend, maxAttempts, x));
      ResortIsDecided(p, backend, hint, maxAttempts);
      RunGrows(log, e, DeadServer(backend, hint), backend, hint, maxAttempts, l);
      log := log + [e];
    }
    RunMeetsOnly(log, backend, hint, maxAttempts, l);
    DeadHostCounts(log, backend, hint, maxAttempts);
  }

  /** A transfer meets at most three failures to reach the host, whatever the server does, if and only
      if its attempts and the corrections of its backend add up to no more. */
  lemma AtMostThreeFailures(backend: Backend, hint: string, maxAttempts: nat, l: Layout)
    requires ValidLayout(l)
    ensures MostFailures(backend, maxAttempts) <= 3
       <==> forall server: Server, versions: set<Version>, log: seq<Logged>
              | HonestServer(server, versions) && Run(log, server, backend, hint, maxAttempts, l) ::
              Failures(log) <= 3
  {
    assert maxAttempts == 0 ==> MostFailures(backend, maxAttempts) <= UNREACHABLE_ATTEMPTS;
    hide Run, HonestServer, MostFailures, Failures, Disciplined;
    forall server: Server, versions: set<Version>, log: seq<Logged>
      | HonestServer(server, versions) && Run(log, server, backend, hint, maxAttempts, l)
      ensures Failures(log) <= MostFailures(backend, maxAttempts)
    {
      RunIsDisciplined(log, server, backend, hint, maxAttempts, l);
      FailuresExceedThree(log, backend, hint, maxAttempts);
    }
    if maxAttempts >= 1 {
      DeadServerIsHonest(backend, hint);
      var log := DeadHostHasRun(backend, hint, maxAttempts, l, MostFailures(backend, maxAttempts));
    }
  }

  // ------------------------------------------------------------------ all attempts

  /** What a caller is promised about one part: a success holds all of its bytes, a short read
      the `got` bytes that exist, and both are bytes of the version `content`. */
  ghost predicate Kept(t: Transfer, i: nat, c: Completion, content: seq<byte>)
    requires t.WellFormed() && i < |t.parts|
    reads t.Buffers()
  {
    && c.tag == t.parts[i].tag && c.buffer == t.parts[i].buffer
    && c.got <= t.parts[i].length
    && c.status == (if c.got == t.parts[i].length then KaruOk else ErrRange)
    && forall k | 0 <= k < c.got :: ByteIs(content, t.offset + t.parts[i].relativeOffset + k, c.buffer[k])
  }

  /** Why the attempts of a transfer ended, and the exchange that ended them. `GaveUp` remembers
      curl's last result, the attempts that count and how many of them could not reach the host. */
  datatype Ending =
    | Completed(x: Exchange)
    | NotStarted(x: Exchange)
    | OutOfTime(x: Exchange)
    | NoCredentials(x: Exchange)
    | GaveUp(x: Exchange, code: CurlCode, attempts: nat, unreachable: nat)

  /** The status that stands for a response. An error tells its own, unless it ended a redirect that was
      followed, or denied the pin of a resumed read; a new version breaks the caller's precondition. */
  predicate TellsError(x: Exchange, code: CurlCode, status: Status, ifMatch: string, pin: string)
  {
    var reply := x.reply;
    if reply.status >= 300 then
      if !code.Ok? && reply.status < 400 && x.followRedirects then status == ErrNetwork
      else if reply.status == 412 && ifMatch == "" && pin != "" then status == ErrHttp
      else NamesError(reply.status, status)
    else if reply.Successful() && reply.transformed then status == ErrHttp
    else if reply.chunks != [] && Contradicts(reply, pin) then
      status == if ifMatch == "" then ErrHttp else ErrPrecondition
    else status in {ErrHttp, ErrNetwork}
  }

  /** A transfer fails only because the environment says so, or because its last response did not
      complete it and no attempt is left, the host stayed unreachable, or the failure is not one to
      retry. */
  ghost predicate Justified(ending: Ending, t: Transfer, status: Status, maxAttempts: nat)
    reads t
  {
    match ending
    case Completed(_) => status == KaruOk
    case NotStarted(x) => x.startFailure == Some(status)
    case OutOfTime(x) => (x.deadlineExpired || x.noTimeToWait) && status == KaruTimeout
    case NoCredentials(x) => x.lookupFailure == Some(status)
    case GaveUp(x, code, attempts, unreachable) =>
      && status == FailureStatus(t.response, t.ifMatch, t.resumeEtag, code, x.followRedirects)
      && !Succeeded(t.response, t.resumed, t.received, code)
      && TellsError(x, code, status, t.ifMatch, t.VersionPin())
      && (|| attempts >= maxAttempts || unreachable >= UNREACHABLE_ATTEMPTS
          || !Retryable(t.response, t.ifMatch, t.resumeEtag, code, x.requestTimeout))
  }

  /** The run ended as `ending` says, with its last exchange; a request that could not be sent is not
      in the log. */
  ghost predicate EndsWith(log: seq<Logged>, ending: Ending, status: Status, t: Transfer, server: Server, hint: string)
    reads t
  {
    if ending.NotStarted? then
      && (log != [] ==> !log[|log| - 1].next.Finish?)
      && ending.x == server(|log|, t.VersionPin(), t.offset + t.resumed, t.length - t.resumed)
    else
      && log != [] && log[|log| - 1].next == Finish(status) && log[|log| - 1].x == ending.x
      && (ending.GaveUp? ==>
            && ending.code == log[|log| - 1].code
            && ending.attempts == ProgressOf(log, hint).attempt
            && ending.unreachable == ProgressOf(log, hint).unreachable)
  }

  /** The transfer has planned its next attempt. */
  predicate Replanned(t: Transfer, resumed: u64, resumeEtag: string)
    reads t
  {
    (t.resumed, t.resumeEtag) == ResumePoint(t.ifMatch, resumeEtag, resumed, t.received, t.length, t.response)
  }

  /** Keeps what can be kept for the next attempt. */
  method PlanRetry(t: Transfer, ghost current: Version, ghost versions: set<Version>)
    requires t.WellFormed() && t.Valid() && (t.resumeEtag == "" || IsStrongEtag(t.resumeEtag))
    requires OneVersion(t.Shape(), t.Contents(), t.resumed, t.received, t.VersionPin(), current, versions)
    requires t.received > t.resumed && t.response.etag != "" ==> current.etag == t.response.etag
    requires t.response.etag == "" || IsStrongEtag(t.response.etag)
    modifies t`resumed, t`resumeEtag
    ensures t.resumed < t.length && (t.resumeEtag == "" || IsStrongEtag(t.resumeEtag))
    ensures t.resumed <= t.received && t.Valid()
    ensures Replanned(t, old(t.resumed), old(t.resumeEtag))
    ensures PrefixPinned(t.Shape(), t.Contents(), t.resumed, t.VersionPin(), current, versions)
  {
    hide Holds;
    ResumePointIsPinned(t.Shape(), t.Contents(), t.ifMatch, t.resumeEtag, t.resumed, t.received, t.response, current,
                        versions);
    ghost var contents := t.Contents();
    t.PlanResume();
    assert t.Contents() == contents;
  }

  lemma OneVersionIsPinned(l: Layout, contents: seq<seq<byte>>, resumed: u64, received: u64, pin: string,
                           current: Version, versions: set<Version>)
    requires Fits(l, contents) && OneVersion(l, contents, resumed, received, pin, current, versions)
    ensures PrefixPinned(l, contents, resumed, pin, current, versions)
  {}

  /** The exchange ended the run with success if its reply fulfilled the request that was sent, and, if it had
      a body, only then. */
  predicate TakesWhatFulfils(l: Layout, limit: u64, e: Logged)
  {
    && (Fulfils(l, limit, e.pin, e.first, e.x.reply) ==> e.next == Finish(KaruOk))
    && (e.next == Finish(KaruOk) && e.x.reply.chunks != [] ==> Fulfils(l, limit, e.pin, e.first, e.x.reply))
  }

  predicate AllTake(l: Layout, limit: u64, log: seq<Logged>)
  {
    log != [] ==> AllTake(l, limit, log[..|log| - 1]) && TakesWhatFulfils(l, limit, log[|log| - 1])
  }

  /** The first request, if there was one, named that pin and that range. */
  predicate BeginsWith(log: seq<Logged>, pin: string, first: int, length: int)
  {
    log != [] ==> log[0].pin == pin && log[0].first == first && log[0].length == length
  }

  lemma TakenGrows(l: Layout, limit: u64, log: seq<Logged>, e: Logged, pin: string, first: int, length: int)
    requires AllTake(l, limit, log) && TakesWhatFulfils(l, limit, e) && BeginsWith(log, pin, first, length)
    requires log == [] ==> e.pin == pin && e.first == first && e.length == length
    ensures AllTake(l, limit, log + [e]) && BeginsWith(log + [e], pin, first, length)
  {
    hide TakesWhatFulfils;
    assert (log + [e])[..|log|] == log;
  }

  lemma {:induction false} EachTakes(l: Layout, limit: u64, log: seq<Logged>, i: nat)
    requires AllTake(l, limit, log) && i < |log|
    ensures TakesWhatFulfils(l, limit, log[i])
  {
    hide TakesWhatFulfils;
    if i < |log| - 1 {
      EachTakes(l, limit, log[..|log| - 1], i);
    }
  }

  lemma ExchangeIsHonest(server: Server, i: nat, pin: string, first: int, length: int, versions: set<Version>)
    requires HonestServer(server, versions)
    ensures HonestExchange(server(i, pin, first, length), pin, versions) && Coherent(versions)
    ensures server(i, pin, first, length).startFailure != Some(KaruOk)
  {}

  lemma ExchangeTakes(l: Layout, limit: u64, e: Logged)
    requires Fulfils(l, limit, e.pin, e.first, e.x.reply) ==> e.next == Finish(KaruOk)
    requires e.next == Finish(KaruOk) && e.x.reply.chunks != [] ==> Fulfils(l, limit, e.pin, e.first, e.x.reply)
    ensures TakesWhatFulfils(l, limit, e)
  {}

  lemma LastFulfilsOrNot(l: Layout, limit: u64, log: seq<Logged>)
    requires log != []
    ensures var e := log[|log| - 1]; LastFulfils(l, limit, log) == Fulfils(l, limit, e.pin, e.first, e.x.reply)
  {}

  lemma UnfinishedFailsToFulfil(l: Layout, limit: u64, log: seq<Logged>)
    requires AllTake(l, limit, log) && (log != [] ==> log[|log| - 1].next != Finish(KaruOk))
    ensures !LastFulfils(l, limit, log)
  {}

  /** The bytes of a part that an object has. */
  function PresentOf(t: Transfer, i: nat, content: seq<byte>): int
    requires i < |t.parts|
  {
    Max(0, Min(t.parts[i].length, |content| - (t.offset + t.parts[i].relativeOffset)))
  }

  lemma PartsAreFull(t: Transfer, i: nat, content: seq<byte>)
    requires t.WellFormed() && t.Valid() && i < |t.parts| && t.received == Existing(t.Shape(), content)
    ensures Transfer.CompletionOf(t.parts[i], KaruOk, t.received).got == PresentOf(t, i, content)
  {
    assert t.Shape().spans[i] == Span(t.parts[i].relativeOffset, t.parts[i].length);
  }

  predicate LastFulfils(l: Layout, limit: u64, log: seq<Logged>)
  {
    log != [] && var e := log[|log| - 1]; Fulfils(l, limit, e.pin, e.first, e.x.reply)
  }

  /** Runs a transfer to its end. `sent` counts the requests, `log` records them, and `last` is the
      version that the last response came from. */
  method FetchHttp(t: Transfer, server: Server, backend: Backend, hint: string, maxAttempts: nat,
                   ghost versions: set<Version>)
    returns (status: Status, completions: seq<Completion>, sent: nat, ghost log: seq<Logged>, ghost source: Version,
             ghost last: Version, ghost ending: Ending)
    requires t.WellFormed() && t.Valid() && t.resumed == 0 && t.resumeEtag == ""
    requires HonestServer(server, versions) && maxAttempts >= 1
    modifies t, t.Buffers()
    ensures t.Valid() && |completions| == |t.parts|
    ensures forall i | 0 <= i < |t.parts| :: completions[i] == Transfer.CompletionOf(t.parts[i], status, t.received)
    ensures status == KaruOk ==>
      source in versions && forall i | 0 <= i < |t.parts| :: Kept(t, i, completions[i], source.content)
    ensures status == KaruOk && IsStrongEtag(t.ifMatch) ==>
      source.etag == t.ifMatch || forall i | 0 <= i < |t.parts| :: completions[i].got == 0
    ensures status == KaruOk ==> last == ending.x.reply.version && Told(t, source, last)
    ensures Justified(ending, t, status, maxAttempts) && EndsWith(log, ending, status, t, server, hint)
    ensures status == KaruOk <==> ending.Completed?
    ensures sent == |log| && Run(log, server, backend, hint, maxAttempts, t.Shape())
    ensures Disciplined(log, backend, hint, maxAttempts)
    ensures BeginsWith(log, t.ifMatch, t.offset, t.length) && (log == [] ==> t.resumed == 0 && t.resumeEtag == "")
    ensures forall i | 0 <= i < |log| :: TakesWhatFulfils(t.Shape(), t.fallbackLimit, log[i])
    ensures forall i {:trigger log[i]} | 0 < i < |log| ::
              Follows(t.Shape(), t.fallbackLimit, t.ifMatch, log[i - 1], log[i].first, log[i].pin)
    ensures LastFulfils(t.Shape(), t.fallbackLimit, log) ==>
              && status == KaruOk && last == ending.x.reply.version
              && forall i | 0 <= i < |t.parts| ::
                   completions[i].got == PresentOf(t, i, last.content)
    ensures sent <= maxAttempts + Corrections(backend) && Corrected(log) <= Corrections(backend)
    ensures Failures(log) <= MostFailures(backend, maxAttempts)
    ensures Failures(log) == ProgressOf(log, hint).unreachable + Corrected(log) <= UNREACHABLE_ATTEMPTS + Corrected(log)
  {
    hide OneVersion, HonestServer, Run, EndsWith, Told, Failures, Corrected, ProgressOf, Justified,
      MostFailures, Disciplined, TakesWhatFulfils, LastFulfils, Follows;
    status, sent, log, source, last, ending := RunAttempts(t, server, backend, hint, maxAttempts, versions);
    RunIsDisciplined(log, server, backend, hint, maxAttempts, t.Shape());
    FailuresAreCounted(log, backend, hint, maxAttempts);
    FailuresExceedThree(log, backend, hint, maxAttempts);
    completions := t.Deliver(status);
    if status == KaruOk {
      DeliveredIsKept(t, source, versions, completions);
    }
    forall i | 0 <= i < |log| ensures TakesWhatFulfils(t.Shape(), t.fallbackLimit, log[i]) {
      EachTakes(t.Shape(), t.fallbackLimit, log, i);
    }
    forall i {:trigger log[i]} | 0 < i < |log|
      ensures Follows(t.Shape(), t.fallbackLimit, t.ifMatch, log[i - 1], log[i].first, log[i].pin)
    {
      EachFollows(t.Shape(), t.fallbackLimit, t.ifMatch, log, i);
    }
    if LastFulfils(t.Shape(), t.fallbackLimit, log) {
      forall i | 0 <= i < |t.parts| ensures completions[i].got == PresentOf(t, i, last.content) {
        PartsAreFull(t, i, last.content);
      }
    }
  }

  /** So a transfer from such a bucket fails to connect four times, not three. */
  method FetchFromDeadRedirect(t: Transfer, hint: string, maxAttempts: nat) returns (ghost log: seq<Logged>)
    requires t.WellFormed() && t.Valid() && t.resumed == 0 && t.resumeEtag == ""
    requires hint != "eu-west-1" && maxAttempts >= UNREACHABLE_ATTEMPTS
    modifies t, t.Buffers()
    ensures Failures(log) == |log| == 4
  {
    hide Run, Told, Failures, Corrected, ProgressOf, Kept;
    var server: Server := (i, pin, first, length) => DEAD_REDIRECT;
    assert DEAD_REDIRECT.reply.ReportedEtag() == "";
    var status, completions, sent;
    ghost var source, last, ending;
    status, completions, sent, log, source, last, ending :=
      FetchHttp(t, server, S3, hint, maxAttempts, {Version("", [])});
    DeadRedirectFailsFourTimes(log, hint, maxAttempts, t.Shape());
  }

  /** And a transfer from the dead host fails to connect as often as any can. */
  method FetchFromDeadHost(t: Transfer, backend: Backend, hint: string, maxAttempts: nat)
    returns (ghost log: seq<Logged>)
    requires t.WellFormed() && t.Valid() && t.resumed == 0 && t.resumeEtag == "" && maxAttempts >= 1
    modifies t, t.Buffers()
    ensures Failures(log) == |log| == MostFailures(backend, maxAttempts)
  {
    hide Run, Told, Failures, Corrected, ProgressOf, Kept, MostFailures;
    DeadServerIsHonest(backend, hint);
    var status, completions, sent;
    ghost var source, last, ending;
    status, completions, sent, log, source, last, ending :=
      FetchHttp(t, DeadServer(backend, hint), backend, hint, maxAttempts, {Version("", [])});
    RunMeetsOnly(log, backend, hint, maxAttempts, t.Shape());
    DeadHostCounts(log, backend, hint, maxAttempts);
  }

  lemma DeliveredIsKept(t: Transfer, source: Version, versions: set<Version>, completions: seq<Completion>)
    requires t.WellFormed() && t.Valid()
    requires OneVersion(t.Shape(), t.Contents(), t.resumed, t.received, t.VersionPin(), source, versions)
    requires |completions| == |t.parts|
    requires forall i | 0 <= i < |t.parts| :: completions[i] == Transfer.CompletionOf(t.parts[i], KaruOk, t.received)
    ensures source in versions
    ensures forall i | 0 <= i < |t.parts| :: Kept(t, i, completions[i], source.content)
    ensures IsStrongEtag(t.ifMatch) ==>
      source.etag == t.ifMatch || forall i | 0 <= i < |t.parts| :: completions[i].got == 0
  {
    forall i | 0 <= i < |t.parts| ensures Kept(t, i, completions[i], source.content) {
      assert t.Shape().spans[i] == Span(t.parts[i].relativeOffset, t.parts[i].length);
      forall k | 0 <= k < completions[i].got
        ensures ByteIs(source.content, t.offset + t.parts[i].relativeOffset + k, completions[i].buffer[k])
      {
        assert t.Contents()[i][k] == completions[i].buffer[k];
      }
    }
  }

  /** The run is over, for the reason `ending`. */
  ghost predicate Ended(t: Transfer, status: Status, log: seq<Logged>, source: Version, last: Version, ending: Ending,
                        server: Server, hint: string, maxAttempts: nat, versions: set<Version>)
    requires t.WellFormed()
    reads t, t.Buffers()
  {
    && Justified(ending, t, status, maxAttempts) && EndsWith(log, ending, status, t, server, hint)
    && (status == KaruOk <==> ending.Completed?)
    && (status == KaruOk ==>
          && OneVersion(t.Shape(), t.Contents(), t.resumed, t.received, t.VersionPin(), source, versions)
          && last == ending.x.reply.version && Told(t, source, last))
    && (log == [] ==> t.resumed == 0 && t.resumeEtag == "")
    && (LastFulfils(t.Shape(), t.fallbackLimit, log) ==>
          status == KaruOk && last == ending.x.reply.version && t.received == Existing(t.Shape(), last.content))
  }

  method RunAttempts(t: Transfer, server: Server, backend: Backend, hint: string, maxAttempts: nat,
                     ghost versions: set<Version>)
    returns (status: Status, sent: nat, ghost log: seq<Logged>, ghost source: Version, ghost last: Version,
             ghost ending: Ending)
    requires t.WellFormed() && t.Valid() && t.resumed == 0 && t.resumeEtag == ""
    requires HonestServer(server, versions) && maxAttempts >= 1
    modifies t, t.Buffers()
    ensures t.Valid() && Ended(t, status, log, source, last, ending, server, hint, maxAttempts, versions)
    ensures sent == |log| && Recorded(log, t, server, backend, hint, maxAttempts)
  {
    hide Coherent, HonestServer, HonestExchange, Decided, TakesWhatFulfils, Resumable, Recorded, Concluded, Ended,
      ProgressOf, Follows;
    var p := Progress(0, 0, hint, false, false);
    sent, log, source, last := 0, [], Version("", []), Version("", []);
    NothingKeptYet(t, source, versions);
    NothingRecordedYet(t, server, backend, hint, maxAttempts);
    while true
      invariant t.Valid() && Resumable(t, source, versions)
      invariant sent == |log| && p == ProgressOf(log, hint)
      invariant Recorded(log, t, server, backend, hint, maxAttempts)
      invariant log != [] ==> !log[|log| - 1].next.Finish?
      invariant p.attempt < maxAttempts
      invariant log == [] ==> t.resumed == 0 && t.resumeEtag == ""
      invariant log != [] ==> Follows(t.Shape(), t.fallbackLimit, t.ifMatch, log[|log| - 1], t.offset + t.resumed,
                                      t.VersionPin())
      decreases maxAttempts - p.attempt, !p.regionRetried, !p.credentialsRetried
    {
      var first: int, length: int := t.offset + t.resumed, t.length - t.resumed;
      var x := server(sent, t.VersionPin(), first, length);
      ExchangeIsHonest(server, sent, t.VersionPin(), first, length, versions);
      if x.startFailure.Some? {
        EndsUnsent(t, x, log, source, last, server, backend, hint, maxAttempts, versions);
        return x.startFailure.value, sent, log, source, last, NotStarted(x);
      }
      var code, decision;
      ghost var e;
      code, decision, source, ending, e := SendOne(t, x, backend, p, maxAttempts, source, versions);
      RecordGrows(log, e, t, server, backend, hint, maxAttempts);
      sent, log, last := sent + 1, log + [e], x.reply.version;
      match decision {
        case Finish(final) =>
          EndsSent(t, log, source, ending, p, server, hint, maxAttempts, versions);
          return final, sent, log, source, last, ending;
        case CorrectRegion => p := p.(regionHint := x.region, regionRetried := true);
        case RefreshCredentials => p := p.(credentialsRetried := true);
        case TryAgain =>
          p := p.(attempt := p.attempt + 1, unreachable := p.unreachable + if Unreachable(code) then 1 else 0);
      }
    }
  }

  /** Where the next request starts, and the version it names. After an error it is the same request, unless
      the version it named is gone; then, and if the caller's own tag can name no version, it is the first
      one. After an offered body that broke off it starts at the first byte still missing and names the
      version received so far; if nothing names that, it starts over. */
  predicate ResumesWell(l: Layout, limit: u64, ifMatch: string, pin: string, first: int, reply: Reply, next: int,
                        nextPin: string)
  {
    var end, lost := l.offset + l.length, reply.status == 412 && ifMatch == "";
    var reached := if reply.status == 206 then first + |reply.Body()| else Max(l.offset, |reply.Body()|);
    var named := if pin == "" then reply.ReportedEtag() else pin;
    if ifMatch != "" && !IsStrongEtag(ifMatch) then next == l.offset && nextPin == ifMatch
    else if reply.status >= 300 then
      if lost then next == l.offset && nextPin == "" else next == first && nextPin == pin
    else
      Offered(l, limit, pin, first, reply) && reply.chunks != [] && reached < end
      && reached > (if reply.status == 206 then first else l.offset) ==>
        next == (if named == "" then l.offset else reached) && nextPin == named
  }

  predicate Follows(l: Layout, limit: u64, ifMatch: string, e: Logged, next: int, nextPin: string)
  {
    e.next.TryAgain? ==> ResumesWell(l, limit, ifMatch, e.pin, e.first, e.x.reply, next, nextPin)
  }

  predicate AllFollow(l: Layout, limit: u64, ifMatch: string, log: seq<Logged>)
  {
    |log| >= 2 ==>
      var before, e := log[..|log| - 1], log[|log| - 1];
      AllFollow(l, limit, ifMatch, before) && Follows(l, limit, ifMatch, before[|before| - 1], e.first, e.pin)
  }

  lemma NextFollows(l: Layout, limit: u64, ifMatch: string, log: seq<Logged>, e: Logged)
    requires AllFollow(l, limit, ifMatch, log)
    requires log != [] ==> Follows(l, limit, ifMatch, log[|log| - 1], e.first, e.pin)
    ensures AllFollow(l, limit, ifMatch, log + [e])
  {
    hide Follows;
    assert (log + [e])[..|log|] == log;
  }

  lemma {:induction false} EachFollows(l: Layout, limit: u64, ifMatch: string, log: seq<Logged>, i: nat)
    requires AllFollow(l, limit, ifMatch, log) && 0 < i < |log|
    ensures Follows(l, limit, ifMatch, log[i - 1], log[i].first, log[i].pin)
  {
    hide Follows;
    if i < |log| - 1 { EachFollows(l, limit, ifMatch, log[..|log| - 1], i); }
  }

  /** The transfer can go on: the bytes it keeps are pinned. */
  ghost predicate Resumable(t: Transfer, source: Version, versions: set<Version>)
    requires t.WellFormed()
    reads t, t.Buffers()
  {
    && (t.resumeEtag == "" || IsStrongEtag(t.resumeEtag))
    && PrefixPinned(t.Shape(), t.Contents(), t.resumed, t.VersionPin(), source, versions)
  }

  /** The log is that of a run which began with a request for everything and took what it needed. */
  ghost predicate Recorded(log: seq<Logged>, t: Transfer, server: Server, backend: Backend, hint: string,
                           maxAttempts: nat)
  {
    && Run(log, server, backend, hint, maxAttempts, t.Shape()) && AllTake(t.Shape(), t.fallbackLimit, log)
    && BeginsWith(log, t.ifMatch, t.offset, t.length) && AllFollow(t.Shape(), t.fallbackLimit, t.ifMatch, log)
  }

  lemma NothingRecordedYet(t: Transfer, server: Server, backend: Backend, hint: string, maxAttempts: nat)
    ensures Recorded([], t, server, backend, hint, maxAttempts)
    ensures ProgressOf([], hint) == Progress(0, 0, hint, false, false)
  {}

  lemma RecordGrows(log: seq<Logged>, e: Logged, t: Transfer, server: Server, backend: Backend, hint: string,
                    maxAttempts: nat)
    requires Recorded(log, t, server, backend, hint, maxAttempts) && (log != [] ==> !log[|log| - 1].next.Finish?)
    requires t.offset <= e.first < e.first + e.length == t.offset + t.length
    requires e.x == server(|log|, e.pin, e.first, e.length) && e.x.startFailure.None?
    requires Decided(ProgressOf(log, hint), backend, maxAttempts, e.x, e.code, e.next)
    requires TakesWhatFulfils(t.Shape(), t.fallbackLimit, e)
    requires log == [] ==> e.pin == t.ifMatch && e.first == t.offset && e.length == t.length
    requires log != [] ==> Follows(t.Shape(), t.fallbackLimit, t.ifMatch, log[|log| - 1], e.first, e.pin)
    ensures Recorded(log + [e], t, server, backend, hint, maxAttempts)
    ensures ProgressOf(log + [e], hint) == Advance(ProgressOf(log, hint), e)
  {
    hide Run, Decided, TakesWhatFulfils, BeginsWith, AllTake, AllFollow, Follows;
    NextFollows(t.Shape(), t.fallbackLimit, t.ifMatch, log, e);
    RunGrows(log, e, server, backend, hint, maxAttempts, t.Shape());
    TakenGrows(t.Shape(), t.fallbackLimit, log, e, t.ifMatch, t.offset, t.length);
  }

  lemma EndsUnsent(t: Transfer, x: Exchange, log: seq<Logged>, source: Version, last: Version, server: Server,
                   backend: Backend, hint: string, maxAttempts: nat, versions: set<Version>)
    requires t.WellFormed() && Recorded(log, t, server, backend, hint, maxAttempts)
    requires log != [] ==> !log[|log| - 1].next.Finish?
    requires log == [] ==> t.resumed == 0 && t.resumeEtag == ""
    requires x == server(|log|, t.VersionPin(), t.offset + t.resumed, t.length - t.resumed)
    requires x.startFailure.Some? && x.startFailure != Some(KaruOk)
    ensures Ended(t, x.startFailure.value, log, source, last, NotStarted(x), server, hint, maxAttempts, versions)
  {
    hide Run, Fulfils, OneVersion, Told;
  }

  /** The exchange was the last one, for the reason `ending`. */
  ghost predicate Concluded(t: Transfer, e: Logged, source: Version, ending: Ending, p: Progress, maxAttempts: nat,
                            versions: set<Version>)
    requires t.WellFormed()
    reads t, t.Buffers()
  {
    && e.next.Finish? && Justified(ending, t, e.next.status, maxAttempts)
    && ending.x == e.x && !ending.NotStarted? && (ending.Completed? <==> e.next.status == KaruOk)
    && (ending.GaveUp? ==>
          && ending.code == e.code && ending.attempts == p.attempt + 1
          && ending.unreachable == p.unreachable + Once(Unreachable(e.code)))
    && (e.next.status == KaruOk ==>
          && OneVersion(t.Shape(), t.Contents(), t.resumed, t.received, t.VersionPin(), source, versions)
          && Told(t, source, e.x.reply.version))
    && (Fulfils(t.Shape(), t.fallbackLimit, e.pin, e.first, e.x.reply) ==>
          e.next.status == KaruOk && t.received == Existing(t.Shape(), e.x.reply.version.content))
  }

  lemma EndsSent(t: Transfer, log: seq<Logged>, source: Version, ending: Ending, p: Progress, server: Server,
                 hint: string, maxAttempts: nat, versions: set<Version>)
    requires t.WellFormed() && log != [] && Concluded(t, log[|log| - 1], source, ending, p, maxAttempts, versions)
    requires ProgressOf(log, hint) == Advance(p, log[|log| - 1])
    ensures Ended(t, log[|log| - 1].next.status, log, source, log[|log| - 1].x.reply.version, ending, server, hint,
                  maxAttempts, versions)
  {
    hide Justified, Fulfils, OneVersion, Told, ProgressOf, Unreachable;
  }

  /** One exchange and what the loop does about it, as the log will record it. */
  method SendOne(t: Transfer, x: Exchange, backend: Backend, p: Progress, maxAttempts: nat,
                 ghost origin: Version, ghost versions: set<Version>)
    returns (code: CurlCode, decision: Decision, ghost source: Version, ghost ending: Ending, ghost e: Logged)
    requires t.WellFormed() && t.Valid() && Resumable(t, origin, versions)
    requires HonestExchange(x, t.VersionPin(), versions) && Coherent(versions)
    modifies t, t.Buffers()
    ensures t.Valid()
    ensures e == Logged(old(t.VersionPin()), t.offset + old(t.resumed), t.length - old(t.resumed), x, code, decision)
    ensures Decided(p, backend, maxAttempts, x, code, decision) && TakesWhatFulfils(t.Shape(), t.fallbackLimit, e)
    ensures decision.Finish? ==> Concluded(t, e, source, ending, p, maxAttempts, versions)
    ensures !decision.Finish? ==> Resumable(t, source, versions)
    ensures Follows(t.Shape(), t.fallbackLimit, t.ifMatch, e, t.offset + t.resumed, t.VersionPin())
    ensures decision.CorrectRegion? ==> !p.regionRetried
    ensures decision.RefreshCredentials? ==> !p.credentialsRetried
    ensures decision.TryAgain? ==> p.attempt + 1 < maxAttempts
  {
    hide Honest, HonoursPin, HonestExchange, PrefixPinned, OneVersion, Coherent, Justified, IsStrongEtag, Told,
      Retryable, NamesRegion, RejectsCredentials, Fulfils, Existing, Decided, TakesWhatFulfils, OnlyRetryHelps, Lawful,
      Unreachable, ResumesWell;
    ghost var pin, first, length := t.VersionPin(), t.offset + t.resumed, t.length - t.resumed;
    code, decision, source, ending := Attempt(t, x, backend, p, maxAttempts, origin, versions);
    e := Logged(pin, first, length, x, code, decision);
    ExchangeTakes(t.Shape(), t.fallbackLimit, e);
    DecidedIsLawful(p, backend, maxAttempts, x, code, decision);
    CorrectedOnce(p, backend, maxAttempts, x, code, decision);
  }

  method Attempt(t: Transfer, x: Exchange, backend: Backend, p: Progress, maxAttempts: nat,
                 ghost origin: Version, ghost versions: set<Version>)
    returns (code: CurlCode, decision: Decision, ghost source: Version, ghost ending: Ending)
    requires t.WellFormed() && t.Valid() && (t.resumeEtag == "" || IsStrongEtag(t.resumeEtag))
    requires HonestExchange(x, t.VersionPin(), versions) && Coherent(versions)
    requires PrefixPinned(t.Shape(), t.Contents(), t.resumed, t.VersionPin(), origin, versions)
    modifies t, t.Buffers()
    ensures t.Valid()
    ensures decision == Finish(KaruOk) ==>
              && OneVersion(t.Shape(), t.Contents(), t.resumed, t.received, t.VersionPin(), source, versions)
              && Told(t, source, x.reply.version)
    ensures
      var filled := Fulfils(t.Shape(), t.fallbackLimit, old(t.VersionPin()), t.offset + old(t.resumed), x.reply);
      && (filled ==> decision == Finish(KaruOk) && t.received == Existing(t.Shape(), x.reply.version.content))
      && (decision == Finish(KaruOk) && x.reply.chunks != [] ==> filled)
    ensures decision.Finish? ==> Justified(ending, t, decision.status, maxAttempts)
    ensures decision.Finish? ==>
              && ending.x == x && !ending.NotStarted? && (ending.Completed? <==> decision.status == KaruOk)
              && (ending.GaveUp? ==>
                    && ending.code == code && ending.attempts == p.attempt + 1
                    && ending.unreachable == p.unreachable + Once(Unreachable(code)))
    ensures !decision.Finish? ==>
              && (t.resumeEtag == "" || IsStrongEtag(t.resumeEtag))
              && PrefixPinned(t.Shape(), t.Contents(), t.resumed, t.VersionPin(), source, versions)
    ensures decision.TryAgain? ==>
              ResumesWell(t.Shape(), t.fallbackLimit, t.ifMatch, old(t.VersionPin()), t.offset + old(t.resumed),
                          x.reply, t.offset + t.resumed, t.VersionPin())
    ensures Decided(p, backend, maxAttempts, x, code, decision)
    ensures decision.TryAgain? <==>
              && OnlyRetryHelps(p, backend, x, decision) && BudgetLeft(p, code, maxAttempts) && !x.noTimeToWait
              && WorthRetrying(x, code, t.ifMatch, old(t.VersionPin()))
  {
    hide Honest, HonoursPin, PrefixPinned, OneVersion, Holds, Succeeded, Coherent, CredentialsExpired, Justified,
      IsStrongEtag, Told, Retryable, BudgetLeft, NamesRegion, RejectsCredentials, Fulfils, Existing, Arrived,
      ResumesWell, WorthRetrying;
    ghost var pin, first := t.VersionPin(), t.offset + t.resumed;
    code, source := Receive(t, x.reply, x.followRedirects, origin, versions);
    ReportedIsStrong(x.reply);
    if Succeeded(t.response, t.resumed, t.received, code) {
      SuccessfulOnly(t.response, t.resumed, t.received, code);
      StopIsJustified(Completed(x), t, KaruOk, maxAttempts);
      return code, Finish(KaruOk), source, Completed(x);
    }
    decision, ending := Recover(t, x, code, backend, p, maxAttempts, source, versions, pin, first);
  }

  lemma ReplannedResumesWell(t: Transfer, resumed: u64, resumeEtag: string, reply: Reply, pin: string, first: int)
    requires t.WellFormed() && t.Valid() && Replanned(t, resumed, resumeEtag) && pin == PinOf(t.ifMatch, resumeEtag)
    requires t.response.httpStatus == reply.status && t.response.etag == reply.ReportedEtag()
    requires Flagged(t.response, reply, pin)
    requires Arrived(t.Shape(), t.fallbackLimit, pin, first, reply, resumed, t.received)
    ensures ResumesWell(t.Shape(), t.fallbackLimit, t.ifMatch, pin, first, reply, t.offset + t.resumed,
                        t.VersionPin())
  {
    hide IsStrongEtag;
  }

  /** What follows a response that has not completed the transfer. */
  method Recover(t: Transfer, x: Exchange, code: CurlCode, backend: Backend, p: Progress, maxAttempts: nat,
                 ghost source: Version, ghost versions: set<Version>, ghost pin: string, ghost first: int)
    returns (decision: Decision, ghost ending: Ending)
    requires t.WellFormed() && t.Valid() && (t.resumeEtag == "" || IsStrongEtag(t.resumeEtag))
    requires OneVersion(t.Shape(), t.Contents(), t.resumed, t.received, t.VersionPin(), source, versions)
    requires t.received > t.resumed && t.response.etag != "" ==> source.etag == t.response.etag
    requires t.response.etag == "" || IsStrongEtag(t.response.etag)
    requires !Succeeded(t.response, t.resumed, t.received, code) && t.response.httpStatus == x.reply.status
    requires Flagged(t.response, x.reply, t.VersionPin()) && t.followRedirects == x.followRedirects
    requires code == x.reply.code || (code == WriteError && x.reply.chunks != [])
    requires x.startFailure != Some(KaruOk) && x.lookupFailure != Some(KaruOk)
    requires t.VersionPin() == pin && t.response.etag == x.reply.ReportedEtag()
    requires Arrived(t.Shape(), t.fallbackLimit, pin, first, x.reply, t.resumed, t.received)
    modifies t`resumed, t`resumeEtag
    ensures t.Valid()
    ensures decision.Finish? ==> Justified(ending, t, decision.status, maxAttempts)
    ensures decision.Finish? ==>
              && ending.x == x && !ending.NotStarted? && !ending.Completed? && decision.status != KaruOk
              && (ending.GaveUp? ==>
                    && ending.code == code && ending.attempts == p.attempt + 1
                    && ending.unreachable == p.unreachable + Once(Unreachable(code)))
    ensures !decision.Finish? ==>
              && (t.resumeEtag == "" || IsStrongEtag(t.resumeEtag))
              && PrefixPinned(t.Shape(), t.Contents(), t.resumed, t.VersionPin(), source, versions)
    ensures decision.TryAgain? ==>
              ResumesWell(t.Shape(), t.fallbackLimit, t.ifMatch, pin, first, x.reply, t.offset + t.resumed,
                          t.VersionPin())
    ensures Decided(p, backend, maxAttempts, x, code, decision)
    ensures decision.TryAgain? <==>
              && OnlyRetryHelps(p, backend, x, decision) && BudgetLeft(p, code, maxAttempts) && !x.noTimeToWait
              && WorthRetrying(x, code, t.ifMatch, pin)
  {
    hide PrefixPinned, OneVersion, Succeeded, Justified, IsStrongEtag, Retryable, BudgetLeft, Flagged, Replanned,
      ResumesWell, Arrived, Decided, OnlyRetryHelps, WorthRetrying;
    ghost var resumed, resumeEtag := t.resumed, t.resumeEtag;
    RetryableExactly(t.response, t.ifMatch, t.resumeEtag, x, code);
    decision, ending := AfterFailure(t, x, code, backend, p, maxAttempts, source, versions);
    if decision.TryAgain? { ReplannedResumesWell(t, resumed, resumeEtag, x.reply, pin, first); }
  }

  /** The decision after a response that has not completed the transfer. */
  method AfterFailure(t: Transfer, x: Exchange, code: CurlCode, backend: Backend, p: Progress, maxAttempts: nat,
                      ghost source: Version, ghost versions: set<Version>)
    returns (decision: Decision, ghost ending: Ending)
    requires t.WellFormed() && t.Valid() && (t.resumeEtag == "" || IsStrongEtag(t.resumeEtag))
    requires OneVersion(t.Shape(), t.Contents(), t.resumed, t.received, t.VersionPin(), source, versions)
    requires t.received > t.resumed && t.response.etag != "" ==> source.etag == t.response.etag
    requires t.response.etag == "" || IsStrongEtag(t.response.etag)
    requires !Succeeded(t.response, t.resumed, t.received, code) && t.response.httpStatus == x.reply.status
    requires Flagged(t.response, x.reply, t.VersionPin()) && t.followRedirects == x.followRedirects
    requires code == x.reply.code || (code == WriteError && x.reply.chunks != [])
    requires x.startFailure != Some(KaruOk) && x.lookupFailure != Some(KaruOk)
    modifies t`resumed, t`resumeEtag
    ensures t.Valid()
    ensures decision.Finish? ==> Justified(ending, t, decision.status, maxAttempts)
    ensures decision.Finish? ==>
              && ending.x == x && !ending.NotStarted? && !ending.Completed? && decision.status != KaruOk
              && (ending.GaveUp? ==>
                    && ending.code == code && ending.attempts == p.attempt + 1
                    && ending.unreachable == p.unreachable + Once(Unreachable(code)))
    ensures !decision.Finish? ==>
              && (t.resumeEtag == "" || IsStrongEtag(t.resumeEtag))
              && PrefixPinned(t.Shape(), t.Contents(), t.resumed, t.VersionPin(), source, versions)
    ensures decision.TryAgain? ==> Replanned(t, old(t.resumed), old(t.resumeEtag))
    ensures Decided(p, backend, maxAttempts, x, code, decision)
    ensures decision.TryAgain? <==>
              && OnlyRetryHelps(p, backend, x, decision) && BudgetLeft(p, code, maxAttempts) && !x.noTimeToWait
              && Retryable(t.response, t.ifMatch, old(t.resumeEtag), code, x.requestTimeout)
  {
    hide PrefixPinned, OneVersion, Holds, Succeeded, Justified, IsStrongEtag, WorthRepeating, MayPass, Retryable,
      BudgetLeft, NamesRegion, RejectsCredentials, ValidLayout, Flagged, Replanned;
    OneVersionIsPinned(t.Shape(), t.Contents(), t.resumed, t.received, t.VersionPin(), source, versions);
    TransientIsRetryable(t.response, t.ifMatch, t.resumeEtag, code, x.requestTimeout);
    RetryableMayPass(t.response, t.ifMatch, t.resumeEtag, x, code, t.VersionPin());
    ending := OutOfTime(x);
    if x.deadlineExpired {
      StopIsJustified(OutOfTime(x), t, KaruTimeout, maxAttempts);
      return Finish(KaruTimeout), OutOfTime(x);
    }
    if NamesRegion(p, backend, x) {
      return CorrectRegion, ending;
    }
    if RejectsCredentials(p, backend, x) {
      if x.lookupFailure.None? { return RefreshCredentials, ending; }
      StopIsJustified(NoCredentials(x), t, x.lookupFailure.value, maxAttempts);
      return Finish(x.lookupFailure.value), NoCredentials(x);
    }
    var retry, status;
    retry, status, ending := RetryOrGiveUp(t, x, code, p, maxAttempts, source, versions);
    decision := if retry then TryAgain else Finish(status);
  }

  lemma TransientIsRetryable(r: ResponseState, ifMatch: string, resumeEtag: string, code: CurlCode,
                             requestTimeout: bool)
    ensures WorthRepeating(code, r.httpStatus) ==> Retryable(r, ifMatch, resumeEtag, code, requestTimeout)
  {
    TransientIsWorthRepeating(code, r.httpStatus);
  }

  /** A newer version has replaced the one being read, and the caller has not asked for either. */
  predicate Replaced(reply: Reply, ifMatch: string, pin: string)
  {
    ifMatch == "" && ((reply.status == 412 && pin != "")
                      || (reply.chunks != [] && !reply.transformed && Contradicts(reply, pin)))
  }

  /** Does the failure call for another request: because it may pass, or to read the newer version? */
  predicate WorthRetrying(x: Exchange, code: CurlCode, ifMatch: string, pin: string)
  {
    || WorthRepeating(code, x.reply.status) || (x.reply.status == 400 && x.requestTimeout)
    || Replaced(x.reply, ifMatch, pin)
  }

  lemma RetryableExactly(r: ResponseState, ifMatch: string, resumeEtag: string, x: Exchange, code: CurlCode)
    requires r.httpStatus == x.reply.status && Flagged(r, x.reply, PinOf(ifMatch, resumeEtag))
    ensures Retryable(r, ifMatch, resumeEtag, code, x.requestTimeout) <==>
              WorthRetrying(x, code, ifMatch, PinOf(ifMatch, resumeEtag))
  {
    TransientIsWorthRepeating(code, r.httpStatus);
  }

  lemma RetryableMayPass(r: ResponseState, ifMatch: string, resumeEtag: string, x: Exchange, code: CurlCode,
                         pin: string)
    requires r.httpStatus == x.reply.status && Flagged(r, x.reply, pin)
    ensures Retryable(r, ifMatch, resumeEtag, code, x.requestTimeout) ==> MayPass(x, code)
  {
    TransientIsWorthRepeating(code, r.httpStatus);
  }

  lemma ReportedIsStrong(reply: Reply)
    ensures reply.ReportedEtag() == "" || IsStrongEtag(reply.ReportedEtag())
  {}

  /** Plans the next attempt, and ends the transfer if there is no time to wait for it. */
  method RetryInTime(t: Transfer, x: Exchange, maxAttempts: nat, ghost source: Version, ghost versions: set<Version>)
    returns (ghost ending: Ending)
    requires t.WellFormed() && t.Valid() && (t.resumeEtag == "" || IsStrongEtag(t.resumeEtag))
    requires OneVersion(t.Shape(), t.Contents(), t.resumed, t.received, t.VersionPin(), source, versions)
    requires t.received > t.resumed && t.response.etag != "" ==> source.etag == t.response.etag
    requires t.response.etag == "" || IsStrongEtag(t.response.etag)
    modifies t`resumed, t`resumeEtag
    ensures t.Valid() && (t.resumeEtag == "" || IsStrongEtag(t.resumeEtag))
    ensures PrefixPinned(t.Shape(), t.Contents(), t.resumed, t.VersionPin(), source, versions)
    ensures ending == OutOfTime(x) && Replanned(t, old(t.resumed), old(t.resumeEtag))
    ensures x.noTimeToWait ==> Justified(ending, t, KaruTimeout, maxAttempts)
  {
    hide OneVersion, PrefixPinned, Justified, IsStrongEtag, Transfer.WellFormed, Transfer.Valid, Transfer.Shape,
      Transfer.Contents, Transfer.VersionPin, Replanned;
    PlanRetry(t, source, versions);
    ending := OutOfTime(x);
    if x.noTimeToWait { StopIsJustified(ending, t, KaruTimeout, maxAttempts); }
  }

  /** An attempt has failed; the next one follows if the budget, the failure and the clock allow. */
  method RetryOrGiveUp(t: Transfer, x: Exchange, code: CurlCode, p: Progress, maxAttempts: nat,
                       ghost source: Version, ghost versions: set<Version>)
    returns (retry: bool, status: Status, ghost ending: Ending)
    requires t.WellFormed() && t.Valid() && (t.resumeEtag == "" || IsStrongEtag(t.resumeEtag))
    requires OneVersion(t.Shape(), t.Contents(), t.resumed, t.received, t.VersionPin(), source, versions)
    requires t.received > t.resumed && t.response.etag != "" ==> source.etag == t.response.etag
    requires t.response.etag == "" || IsStrongEtag(t.response.etag)
    requires !Succeeded(t.response, t.resumed, t.received, code) && t.followRedirects == x.followRedirects
    requires t.response.httpStatus == x.reply.status && Flagged(t.response, x.reply, t.VersionPin())
    modifies t`resumed, t`resumeEtag
    ensures t.Valid()
    ensures retry <==>
              && BudgetLeft(p, code, maxAttempts) && !x.noTimeToWait
              && Retryable(t.response, t.ifMatch, old(t.resumeEtag), code, x.requestTimeout)
    ensures retry ==>
              && (t.resumeEtag == "" || IsStrongEtag(t.resumeEtag)) && Replanned(t, old(t.resumed), old(t.resumeEtag))
              && PrefixPinned(t.Shape(), t.Contents(), t.resumed, t.VersionPin(), source, versions)
    ensures !retry ==> Justified(ending, t, status, maxAttempts) && status != KaruOk
    ensures !retry ==>
              ending == OutOfTime(x)
                  || ending == GaveUp(x, code, p.attempt + 1, p.unreachable + Once(Unreachable(code)))
  {
    hide OneVersion, PrefixPinned, Succeeded, Retryable, BudgetLeft, FailureStatus, Justified, IsStrongEtag,
      Unreachable, ValidLayout, Transfer.WellFormed, Transfer.Valid, Transfer.Shape, Transfer.Contents,
      Transfer.VersionPin, Replanned;
    if BudgetLeft(p, code, maxAttempts) && Retryable(t.response, t.ifMatch, t.resumeEtag, code, x.requestTimeout) {
      ending := RetryInTime(t, x, maxAttempts, source, versions);
      return !x.noTimeToWait, KaruTimeout, ending;
    }
    GivingUpIsJustified(x, code, p, t, maxAttempts);
    status := FailureStatus(t.response, t.ifMatch, t.resumeEtag, code, t.followRedirects);
    return false, status, GaveUp(x, code, p.attempt + 1, p.unreachable + Once(Unreachable(code)));
  }

  lemma StopIsJustified(ending: Ending, t: Transfer, status: Status, maxAttempts: nat)
    requires
      match ending
      case Completed(_) => status == KaruOk
      case NotStarted(x) => x.startFailure == Some(status)
      case OutOfTime(x) => (x.deadlineExpired || x.noTimeToWait) && status == KaruTimeout
      case NoCredentials(x) => x.lookupFailure == Some(status)
      case _ => false
    ensures Justified(ending, t, status, maxAttempts)
  {}

  lemma GivingUpIsJustified(x: Exchange, code: CurlCode, p: Progress, t: Transfer, maxAttempts: nat)
    requires !Succeeded(t.response, t.resumed, t.received, code)
    requires t.response.httpStatus == x.reply.status && Flagged(t.response, x.reply, t.VersionPin())
    requires !BudgetLeft(p, code, maxAttempts)
             || !Retryable(t.response, t.ifMatch, t.resumeEtag, code, x.requestTimeout)
    ensures Justified(GaveUp(x, code, p.attempt + 1, p.unreachable + Once(Unreachable(code))), t,
                      FailureStatus(t.response, t.ifMatch, t.resumeEtag, code, x.followRedirects), maxAttempts)
    ensures FailureStatus(t.response, t.ifMatch, t.resumeEtag, code, x.followRedirects) != KaruOk
  {}

  lemma NothingKeptYet(t: Transfer, origin: Version, versions: set<Version>)
    requires t.WellFormed() && t.resumed == 0 && t.resumeEtag == ""
    ensures Resumable(t, origin, versions)
  {}
}
