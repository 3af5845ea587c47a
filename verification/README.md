# karu, modelled and proved

karu answers a batch of byte-range reads with a few HTTP or file transfers: it sorts and merges the
ranges, runs the transfers on several I/O loops with retries and resumption, and scatters the
received bytes back into the callers' buffers. This project models that logic in Dafny and proves
what its callers rely on. `dafny verify dfyconfig.toml` checks everything.

## What is modelled

| files | component |
|---|---|
| Numbers, Origin | 64-bit integers; the origin server: object versions, replies, what is assumed of them |
| Uris, UriTexts | nested `/vsisubfile/` windows and `#bytes=` fragments, and how they are written |
| Planner, PlannerProperties, PlannerOptimality | validation, sorting and greedy merging; cover, bounds, optimality |
| Scatter, Transfers, Resumption, Retries, HttpRun, FullReads | receiving one transfer: callbacks, resumption, all attempts, delivery; what a good server gets done |
| BatchReads, ChunkReads | a request's way from the plan through its transfer to the bytes of its window; the same for a chunk of a download |
| Wakeup, WakeupProgress | the sleep and wake handshake of the I/O loops, and why it comes to an end |
| Batches, Engines, IoLoops, Conservation, Routes, Relookups, Cancellation, Guarantees, CancelProgress, Draining | the engine protocol: where transfers are and which way they go, batch ledgers, cancel, and why its wait ends |
| Configs, ConfigScopes, CredentialCaches, CredentialReuse | path-specific options and scope keys; the single-flight credential cache |
| Probes, ReadEnds, Downloads | one ranged GET, reading head and tail, downloading a file |

Values of the source's 64-bit type have the subset type `u64`; a stored intermediate result that
could leave the range would be a verification error, so verified members never wrap around. Objects
whose methods update fields are classes (`Transfer`, `Batch`, `IoLoop`, `ConfigBuilder`,
`CredentialCache`, `ProbeState`, `Download`), and byte buffers are arrays. Each such method is tied
to a function on values, and the laws are proved of those functions.

Concurrency is modelled as interleaved atomic steps under sequential consistency. Module Engines
follows every transfer through queues, containers and hands; a step is at most one access to
something shared, except for submit and for the purge of a queue, which join several accesses that no
other thread can tell apart (the header of Engines says why). Module Wakeup follows the idle bits, the
backlog counter and the wakeups, and counts the transfers only. The credential cache takes its critical
sections as steps. In each case a theorem is about every state of every run, for any number of threads,
batches and consumers.

## What is assumed of the environment

These are the assumptions the code itself depends on. They are predicates (`Origin.Honest`,
`Origin.HonoursPin`, `Origin.Coherent`, `Probes.HonestSize`, `ReadEnds.ToldApart`,
`Probes.TagsReported`, `Downloads.HonestBatches`), required only where they are used.

- A successful reply to a request pinned by one strong tag is of that version or carries another
  strong tag (RFC 9110, section 13.1.1); versions with equal strong tags have equal content
  (section 8.8.1).
- A successful reply with a body has status 200 or 206. A 200 body is a prefix of the whole object,
  all of it when the transport reports success, and its Content-Length is true. A 206 body is a
  prefix of its Content-Range, which is true of the version it came from; a 416 names the true size.
  For single ranged GETs, a 200 that carries a Content-Range with a size names the true one, too
  (`Probes.HonestSize`).
- Destination buffers of one transfer are separate, and a request asks for at least one byte and a
  finite number of them (src/karu.cpp:54-62).
- A reply is otherwise arbitrary: any status, cut at any byte, in any chunks, with any transport
  result, and of a new version each time.
- For head and tail reads: versions differ in tag or size, and a reply with status 200, 206 or 416
  reports the strong tag of its version if that has one. Ranges end inside 64 bits.

## What turned out false, and exactly when it holds

- A short completion tells where the object really ends, if its status is 200 or 206, exactly when it
  is not an empty 200 that answers a resumed request. With any other 2xx status no byte is ever read;
  such a completion tells the truth exactly when the object happens to end where the kept bytes do
  (`Resumption.ShortSuccessIsTruthful`). So status, presence of a body and kept bytes alone decide
  whether every such completion can be believed (`Resumption.TruthfulExactlyWhenTold`). The failing
  replies exist: `Resumption.EmptyReplyEndsResumedTransfer`, `Resumption.NoContentEndsFreshTransfer`.
- "At most three attempts fail to resolve or connect" holds of every transfer and every ranged GET,
  whatever the server does, if and only if min(3, attempts) plus the corrections of the backend is at
  most three: a region and fresh credentials on S3, fresh credentials on Gcs, Azure and Source, none
  elsewhere (`HttpRun.AtMostThreeFailures`, `Probes.AtMostThreeFailures`). That sum,
  `Retries.MostFailures`, is never exceeded and always reached, by a host that refuses connections
  behind replies that name a region and reject the credentials (`HttpRun.FetchFromDeadHost`,
  `Probes.ProbeDeadHost`). This witness assumes a 401, on S3 a 403, together with a connect error, which
  the model admits because it ties no status to a transport result. Four failures on S3 need no such
  reply: a bucket's redirect to another region leads to a dead host (`HttpRun.FetchFromDeadRedirect`,
  `Probes.ProbeDeadRedirect`).
- For custom credential providers, invalidating a path is final if and only if no load of another
  path of the family is under way (`CredentialCaches.CustomInvalidationIsFinalIff`).
- The plan has the fewest transfers when merging is on (a positive gap), the span limit is at most the
  amplification, and no request contains another of its resource, which covers disjoint requests. With
  containment it can have more (`PlannerOptimality.ContainmentDefeatsGreed`).
- Equal scope keys mean equal sources unless a covering prefix contains a line break
  (`Configs.LineBreaksConfuseKeys`).

## Model

| member | source | states |
|---|---|---|
| Uris.ApplyWindowComposes | src/uri.cpp:203-218 | composing a window with its parent denotes the window on what the parent shows, for every object, when the composition is accepted |
| Uris.ResolvePreservesMeaning | src/uri.cpp:224-312 | the one window a nest of windows and a fragment resolves to shows the same bytes as slicing step by step from the inside out, for every object size |
| UriTexts.WindowIsShown | src/uri.cpp:224-266 | the text of a window, in decimal digits, denotes that slice of what its inner URI denotes |
| UriTexts.FragmentIsShown | src/uri.cpp:32-66 | `#bytes=FIRST-LAST` behind a URI denotes the bytes from the first to the last, both included |
| UriTexts.WindowResolves | src/uri.cpp:203-268 | the text of a window resolves, exactly if it begins inside its parent and inside 64 bits at most sixteen deep, to that window clipped to its parent |
| UriTexts.FragmentResolves | src/uri.cpp:32-90 | a URI with a byte range resolves to that range of the object it names |
| UriTexts.AliasIsRead | src/uri.cpp:266-292 | each `/vsi` alias stands for the URI of its scheme |
| Planner.Validate | src/runtime/planner.cpp:43-61 | accepted exactly when the request lies in its window and its absolute end fits 64 bits, with the absolute range |
| Planner.ValidatedReadsWindow | src/runtime/planner.cpp:43-61 | an accepted request reads exactly its slice of the window |
| PlannerProperties.SortIsStable | src/runtime/planner.cpp:115-122 | requests that compare equal keep their order; the rest of the order is in the contract of `StableSort` |
| Planner.CheckRequests | src/runtime/planner.cpp:87-113 | each request becomes a validated one or an immediate completion, in order |
| Planner.WorthMerging | src/runtime/planner.cpp:151-174 | merging is accepted exactly under the resource, gap, span, count and amplification limits, with exact new end and useful bytes |
| Planner.MergeRun | src/runtime/planner.cpp:133-197 | one transfer is the longest admitted run from its first request, with its parts at their offsets |
| Planner.PlanTransfers | src/runtime/planner.cpp:82-200 | the transfers are the greedy cut of the sorted valid requests, the rest is completed at once; all requests of a transfer name its backend, its URI and its precondition |
| PlannerProperties.PlanCoversExactly | src/runtime/planner.cpp:82-200 | parts, at absolute ranges of the object that each request names, with its precondition, buffer and tag, plus immediate completions are exactly the requests, as multisets |
| PlannerProperties.TransferIsValid | src/runtime/planner.cpp:176-198 | parts are sorted, start at the transfer's start, lie inside it and reach its end; the transfer fits 64 bits |
| PlannerProperties.AmplificationIsExact | src/runtime/planner.cpp:73-78 | the saturating test decides the exact comparison of span with amplification times useful bytes |
| PlannerProperties.TransferIsBounded | src/runtime/planner.cpp:151-185 | a merged transfer keeps the part and span limits, and its span is at most amplification times the true sum of part lengths |
| PlannerProperties.PlanIsBounded | src/runtime/planner.cpp:151-185 | a batch fetches at most amplification times the bytes requested |
| PlannerProperties.HolesAreSmall | src/runtime/planner.cpp:151-170 | among any gap + 1 consecutive bytes of a transfer one belongs to a part; local files have no holes |
| PlannerOptimality.GreedyStaysAhead | src/runtime/planner.cpp:125-198 | after every number of transfers the plan has served at least as many requests as any other partition |
| PlannerOptimality.GreedyIsOptimal | src/runtime/planner.cpp:125-198 | no partition into feasible transfers has fewer of them, without containment and with the span limit at most the amplification |
| PlannerOptimality.DisjointIsNoContainment | src/runtime/planner.cpp:125-198 | pairwise disjoint requests satisfy the condition of optimality |
| PlannerOptimality.PlanIsPartition | src/runtime/planner.cpp:125-198 | the plan is itself such a partition |
| PlannerOptimality.ContainmentDefeatsGreed | src/runtime/planner.cpp:125-198 | five requests, one containing others, that the plan serves with one transfer more than necessary |
| Scatter.PatchAllAppend | src/runtime/transport.cpp:801-836 | scattering two adjacent chunks into overlapping parts equals scattering their concatenation |
| Scatter.LandedAppend | src/runtime/transport.cpp:332-345 | the bytes kept of a longer body are those kept so far and what the next chunk adds after the skipped prefix |
| Scatter.LandedFull | src/runtime/transport.cpp:270-273 | once the transfer is full, later bytes change nothing |
| Scatter.ArriveAppend | src/runtime/transport.cpp:262-360 | receiving one more chunk is having received the longer body: kept bytes, position and every destination |
| Scatter.HoldsPatch | src/runtime/transport.cpp:801-836 | scattering the next bytes of a content extends the correct prefix of every part |
| Scatter.ContentRangeIsExact | src/runtime/transport.cpp:181-192 | a 206 is accepted exactly when its Content-Range covers the bytes still wanted that exist, and no others |
| Transfers.Transfer.HeaderCallback | src/runtime/transport.cpp:235-260 | a new response starts from the kept prefix and forgets everything about the last one |
| Transfers.Transfer.CheckStatus | src/runtime/transport.cpp:275-312 | the first byte of a body decides as `Judge` says, and refuses exactly what must not be stored |
| Transfers.Transfer.StorePayload | src/runtime/transport.cpp:801-836 | a chunk patches exactly the parts it touches, past the moving cursor |
| Transfers.Transfer.StoreBody | src/runtime/transport.cpp:332-359 | reading goes on behind the last requested byte exactly when at most the drain limit is known to follow |
| Transfers.Transfer.WriteCallback | src/runtime/transport.cpp:262-360 | after each chunk the state depends only on the bytes received so far, never on how they were cut |
| Transfers.Transfer.ReceiveBody | src/runtime/transport.cpp:262-360 | however a body is cut, received bytes and destinations equal those after one write of the whole body |
| Transfers.Transfer.PlanResume | src/runtime/transport.cpp:752-777 | the next attempt keeps the prefix and tag that `ResumePoint` allows: nothing, what was kept, or what has arrived, and never all of the transfer |
| Transfers.Transfer.Deliver | src/runtime/engine.cpp:404-434 | every part completes once, in order, with its tag: all of its bytes, the part that exists, or the failure |
| Resumption.ArrivalIsOneVersion | src/runtime/transport.cpp:262-360 | a stored body leaves the whole received prefix of one version, also when it continues a kept prefix |
| Resumption.ResumePointIsPinned | src/runtime/transport.cpp:752-777 | what a retry keeps is a prefix of the version its request will be pinned to |
| Resumption.SuccessOn206 | src/runtime/http_response.cpp:167-180 | a 206 that completes a transfer fills it or reports the object's end right behind the received bytes, whatever the server does |
| Resumption.ShortSuccessIsTruthful | src/runtime/http_response.cpp:167-180 | for every accepted 2xx reply, exactly when a completion is full or stops where the object really ends |
| Resumption.TruthfulExactlyWhenTold | src/runtime/http_response.cpp:167-180 | status, presence of a body and kept bytes decide whether all completions of that kind are truthful, for every object |
| Resumption.NoContentEndsFreshTransfer | src/runtime/http_response.cpp:167-180 | an empty 204 completes a fresh transfer of an object that has all the bytes |
| Resumption.SuccessIsComplete | src/runtime/http_response.cpp:167-180 | an accepted body completes the transfer exactly when it ended well or brought all that was asked for, and a 206 brought its whole Content-Range |
| Resumption.FulfilledExactly | src/runtime/transport.cpp:262-360 | a response completes the transfer with all of its range that exists if it is a complete 206 of exactly the bytes still wanted, or a 200 within the fallback limit, readable and not of another version; no other 200 or 206 with a body completes it |
| Resumption.EmptyReplyEndsResumedTransfer | src/runtime/http_response.cpp:167-180 | that case exists: an empty 200 with another tag completes a transfer that keeps five bytes |
| HttpRun.ResponseIsOneVersion | src/runtime/transport.cpp:262-360 | after any response the received bytes are of one known version, the pinned one if there is a strong pin |
| HttpRun.Receive | src/runtime/engine.cpp:697-714 | the same for the callbacks of one response, and what its success says about the object's end, for every 2xx status; success exactly for a body that holds everything still wanted |
| HttpRun.PlanRetry | src/runtime/engine.cpp:759-770 | planning the retry keeps the prefix pinned |
| HttpRun.RetryOrGiveUp | src/runtime/engine.cpp:759-788 | a failed attempt is retried if and only if budget, failure and clock allow, with the kept prefix pinned |
| HttpRun.AfterFailure | src/runtime/engine.cpp:717-788 | deadline, region, credentials and retry in this order, each exactly under its condition |
| HttpRun.Attempt | src/runtime/engine.cpp:697-788 | one attempt completes truthfully, corrects the region or the credentials once each, is retried exactly if its failure is retryable and budget and time are left, or ends for a stated reason |
| HttpRun.RunAttempts | src/runtime/engine.cpp:697-788 | over all attempts: success leaves one version, failure only for what the last exchange says, and the log of requests and decisions is one the protocol allows, with every request starting where the one before left off |
| HttpRun.FetchHttp | src/runtime/engine.cpp:404-446 | every OK part holds all its bytes and every short part its `got` bytes of one single version, the pinned one; what a short end says; failures complete every part once; requests and connection failures are bounded; a reply that holds everything still wanted ends it with OK and every part as long as the object allows; an error response is told by its own status |
| HttpRun.Recover | src/runtime/engine.cpp:717-788 | with budget and time left a failure is retried exactly if it is a transport failure, a 5xx, 408, 425 or 429, a timed-out 400, or a sign that the object was replaced and the caller set no precondition |
| HttpRun.ReplannedResumesWell | src/runtime/transport.cpp:752-777 | the request after a body that broke off starts at the first missing byte and names the version received, or starts over if nothing names it; after an error it is the same request, unless its version is gone |
| HttpRun.GivingUpIsJustified | src/runtime/http_response.cpp:199-258 | which status a given-up transfer reports for each error response, a refused version, a transformed body or a broken redirect |
| Retries.TransientIsWorthRepeating | src/runtime/http_response.cpp:64-82 | the failures worth repeating: any transport failure but an abort or an unknown one, and the statuses 408, 425, 429 and 5xx |
| FullReads.FetchAtOnce | src/runtime/engine.cpp:697-714 | if the first request goes out and its reply holds the whole range, the transfer succeeds with that one request, every part complete as far as the object reaches |
| FullReads.FetchFromRangeServer | src/runtime/engine.cpp:697-714 | so it does with every server of ranges, wherever in the object the transfer starts |
| HttpRun.DeadRedirectFailsFourTimes | src/runtime/engine.cpp:724-764 | every run against a redirect to a dead host ends with its fourth connection failure |
| HttpRun.FetchFromDeadRedirect | src/runtime/engine.cpp:724-764 | a transfer that meets it fails to connect four times |
| HttpRun.DeadHostHasRun | src/runtime/engine.cpp:724-764 | against the dead host there are runs that end with exactly the most failures |
| HttpRun.FetchFromDeadHost | src/runtime/engine.cpp:724-764 | a transfer from it fails to connect as often as any can, on every backend and with every attempt limit |
| HttpRun.AtMostThreeFailures | src/runtime/engine.cpp:724-764 | no server makes a transfer fail to connect more than three times, if and only if attempts and corrections allow no more |
| Retries.FailuresAreCounted | src/runtime/engine.cpp:724-764 | the failures to reach the host are the counted ones, at most three, and the ones a correction excused |
| Retries.FailuresExceedThree | src/runtime/engine.cpp:724-764 | no run has more failures than its attempts and its backend's corrections allow; more than three never happen without a correction |
| Retries.DeadHostCounts | src/runtime/engine.cpp:724-764 | a loop that meets only the dead host makes every correction first, counts every later failure, and ends at the bound |
| Retries.CorrectionIsInvited | src/runtime/engine.cpp:724-757 | an excused failure has a reply that names a region, or is a 401 or an expired-token 403 of a backend whose credentials can be refreshed |
| BatchReads.KeptAnswers | src/runtime/engine.cpp:404-434 | a delivered part holds what its request asks of its window, and all that exists of it when the transfer's end is told truly |
| BatchReads.FetchPlanned | src/runtime/engine.cpp:404-446 | running a planned transfer completes each of its requests under its tag; with OK its buffer is the slice of what its locator shows, all of one version, and every request names the object of the transfer |
| BatchReads.FetchBatch | src/runtime/engine.cpp:276-446 | all transfers of a batch, each against its own server: every request is completed under its tag in its own buffer, with OK by its slice of the object that its own locator names, and each transfer from one version |
| ChunkReads.PlanOfOne | src/runtime/planner.cpp:82-200 | a batch of one request is turned down or becomes one transfer with that request as its only part |
| ChunkReads.FetchChunk | src/download.cpp:121-142 | the batch of a chunk answers its poll as the download assumes, and a full chunk is in the buffer |
| Wakeup.InvIsKept | src/runtime/engine.cpp:353-391 | every step of producers, loops and cancel keeps the mutex, room, token and counting invariants |
| Wakeup.ProducerKeepsCount | src/runtime/engine.cpp:353-379 | queued transfers stay covered by unspent wakeups and woken loops while a producer scans the idle bits |
| Wakeup.TakeKeepsCount | src/runtime/engine.cpp:381-391 | a woken loop is used up only by taking work or by finding none |
| Wakeup.PollKeepsCount | src/runtime/engine.cpp:790-825 | a loop goes to sleep only after its recheck found the backlog empty |
| Wakeup.RunKeepsInv | src/runtime/engine.cpp:353-391 | the invariants hold in every reachable state |
| Wakeup.NoLostWakeup | src/runtime/engine.cpp:790-825 | if work is queued while a loop sleeps with its idle bit set, a producer still has wakeups to give or a woken loop has yet to take work |
| Wakeup.QueuedWorkIsNotStuck | src/runtime/engine.cpp:353-391 | in that state some thread has an enabled step towards a loop that takes the work, without a timeout |
| WakeupProgress.MeasureFalls | src/runtime/engine.cpp:353-391 | every such step lowers a measure, which no other step raises except by the turn of a thread that enters the mutex or the wakeups of a new caller |
| WakeupProgress.CloserIsBounded | src/runtime/engine.cpp:353-391 | in any stretch of any run such steps number at most the measure at its start and what callers and visitors of the mutex add |
| WakeupProgress.WorkReachesLoop | src/runtime/engine.cpp:353-391 | a stretch of only such steps is bounded by the measure, and where none is left no loop sleeps idle beside queued work |
| Batches.Batch.Next | src/runtime/batch.cpp:10-27 | a ready result is returned in order even after cancel; END only with nothing pending or cancelled; timeout only if nothing can be returned |
| Batches.Batch.PushCompletion | src/runtime/batch.cpp:29-35 | appends the completion and counts it off |
| Batches.Batch.FinishTransfer | src/runtime/batch.cpp:37-44 | counts one live transfer off |
| IoLoops.IoLoop.TakeHttp | src/runtime/engine.cpp:381-391 | the loop takes the oldest queued transfers, as many as it has room for, which is the engine's atomic step |
| IoLoops.IoLoop.DiscardCancelled | src/runtime/engine.cpp:588-629 | each transfer of the four containers is asked about once, in order, and leaves exactly if its batch is cancelled by then, while other threads may cancel |
| IoLoops.SweepContainer | src/runtime/engine.cpp:589-597 | erasing while iterating keeps and discards what filtering would |
| IoLoops.SweepStepsAreSweep | src/runtime/engine.cpp:588-629 | the engine's sweep steps amount to that loop, also with cancels in between |
| IoLoops.SweepLosesNothing | src/runtime/engine.cpp:588-629 | kept and discarded together are the container |
| IoLoops.SweepSeparates | src/runtime/engine.cpp:588-629 | nothing that was cancelled before the sweep is kept, and nothing that is not cancelled by its end is discarded |
| IoLoops.PurgeQueue | src/runtime/engine.cpp:973-1007 | cancel removes exactly its batch from a shared queue |
| Conservation.LoopGives | src/runtime/engine.cpp:631-788 | a step of an I/O loop gives away exactly what its effect says, in transfers, parts and tags |
| Conservation.WorkerGives | src/runtime/engine.cpp:846-959 | the same for file and credential workers |
| Routes.RunKeepsRoutes | src/runtime/engine.cpp:448-959 | in every reachable state each transfer is where its route leads, after the steps its way there asks for |
| Routes.CompletionHasReason | src/runtime/engine.cpp:404-959 | a completion appears only for a file that was read, for a transfer whose request ran on an I/O loop and was settled there after its credential lookup, or after a step that reported its failure |
| Routes.FilesStayOffTheLoops | src/runtime/engine.cpp:276-344 | a file read is never queued for HTTP and no I/O loop ever has it |
| Routes.CancelledWorkIsDiscarded | src/runtime/engine.cpp:896-938 | a file read or a lookup that ends well after its batch was marked is discarded |
| Routes.RetryWaitsUntilDue | src/runtime/engine.cpp:631-669 | a transfer to be retried waits until its time has come or its batch is cancelled |
| Routes.SettledGoesOn | src/runtime/engine.cpp:714-788 | a settled transfer is delivered, started next, put in front of the credential queue, or put off, as was decided |
| Relookups.RejectedIsLookedUpAgain | src/runtime/engine.cpp:741-757 | in every run, a transfer whose credentials were rejected ends another request only after a credential worker has looked them up again |
| Conservation.EffectFits | src/runtime/batch.cpp:29-44 | the guards of push and transfer_finished never have to act |
| Conservation.NewBatchIsPushed | src/runtime/engine.cpp:288-303 | counting all parts and pushing the immediate completions leaves a ledger of the planned parts |
| Conservation.SubmitKeepsBalance | src/runtime/engine.cpp:276-344 | submit puts every planned transfer in one queue or hand and into the ledger |
| Conservation.CancelPurgeKeepsBalance | src/runtime/engine.cpp:973-1007 | purging takes transfers off the queues and the ledger together |
| Conservation.ConservationHolds | src/runtime/engine.cpp:276-446 | in every reachable state every amount is balanced |
| Guarantees.LedgersAreExact | src/runtime/engine.cpp:404-446 | each live transfer is in one place, live_transfers is their number, and submitted parts are undelivered, ready, returned or discarded, tag by tag |
| Guarantees.EndIsComplete | src/runtime/batch.cpp:10-35 | an uncancelled batch with nothing ready ends exactly when every submitted part has been returned once |
| Guarantees.NothingReturnedTwice | src/runtime/batch.cpp:10-35 | returned, ready and discarded parts never exceed the submitted ones, for any number of consumers |
| Guarantees.WaitingConsumerHasWork | src/runtime/batch.cpp:10-27 | a consumer that must wait waits for a transfer that still holds a part |
| Guarantees.CancelLeavesNothing | src/runtime/engine.cpp:961-1017 | once cancel has returned, now and later, no transfer of the batch exists and no thread can write into its buffers |
| Guarantees.CancelStrandsNothing | src/runtime/engine.cpp:588-669 | a loop that cancel has reached holds a transfer of the batch unchecked only with its flag set or while sweeping |
| CancelProgress.StepLowers | src/runtime/engine.cpp:588-788 | after the mark no step of any thread takes a transfer of the batch further from its end, and every step that handles one brings it closer |
| CancelProgress.HandlingsAreBounded | src/runtime/engine.cpp:961-1017 | in every run the transfers of a marked batch are handled at most as often as was left to do at the mark |
| Draining.LoopCanMove | src/runtime/engine.cpp:631-825 | a free loop with work has a next step that lowers its load or brings it nearer to the point of its turn where it can |
| Draining.SomeThreadCanMove | src/runtime/engine.cpp:631-959 | while any transfer exists, some thread has a step that brings the engine closer to having none |
| Draining.EngineCanRunEmpty | src/runtime/engine.cpp:631-959 | every reachable state has a continuation in which the engine holds no transfer |
| Draining.CancelCanReturn | src/runtime/engine.cpp:1009-1017 | whenever cancel waits, the run can be continued to its return |
| Guarantees.SweepLeavesNoneBehind | src/runtime/engine.cpp:588-629 | and then only where the sweep has not been |
| Guarantees.CancelledNeverStarts | src/runtime/engine.cpp:650-669 | in every run, whichever thread starts, reads or runs a transfer after its batch was marked was doing so when it was marked |
| Cancellation.RunIsSafe | src/runtime/engine.cpp:961-1017 | the batch and loop invariants hold in every reachable state |
| Cancellation.LoopKeeps | src/runtime/engine.cpp:631-825 | a loop's step keeps its slot limit and keeps it clear of batches whose cancel has reached it |
| Guarantees.LimitsShareConcurrency | src/runtime/engine.cpp:195-213 | loop limits are at least one each and add up to the client-wide limit |
| Guarantees.ConcurrencyIsCapped | src/runtime/engine.cpp:650-669 | the loops together never have more transfers started, starting, waiting or set aside than `concurrency` |
| Configs.LongestIsUnique | src/config.cpp:324-346 | the longest rule that covers a path is unique, so the scan finds it in any order |
| ConfigScopes.PrefixCoversItsSubtree | src/config.cpp:223-228 | a prefix covers itself and what lies behind a slash after it, and nothing else |
| ConfigScopes.RuleStaysInItsSubtree | src/config.cpp:324-346 | a rule changes no option of any path outside its subtree |
| ConfigScopes.LongestRuleCounts | src/config.cpp:324-346 | below its prefix the rule with the longest prefix gives the value |
| ConfigScopes.ElsewhereExplicitCounts | src/config.cpp:324-346 | where no rule says anything, an explicit value comes before the environment, and that before the fallback |
| ConfigScopes.BucketsAreApart | src/config.cpp:223-228 | a rule for a bucket leaves alone another whose name begins alike |
| ConfigScopes.NamesAreFolded | src/config.cpp:182-202 | names are upper-cased and each alias is the option it stands for |
| ConfigScopes.SchemeIsFolded | src/config.cpp:204-221 | a path written with a scheme is the one with the `/vsi` prefix of its backend |
| Configs.OptionDependsOnTable | src/config.cpp:324-346 | the effective option depends only on the table of rules, not on the order they were set |
| Configs.ConfigBuilder.Set | src/config.cpp:266-278 | one explicit option changes, under its canonical name, or the error says why not |
| Configs.ConfigBuilder.SetPath | src/config.cpp:280-304 | prefixes stay distinct and exactly one entry of the table changes; accepted exactly for known path-specific names |
| Configs.ConfigBuilder.GetOption | src/config.cpp:324-346 | the value from the longest covering rule, else explicit, else environment, else the fallback |
| Configs.ConfigBuilder.ScopeKey | src/config.cpp:357-386 | one line per option naming its source |
| Configs.ScopeKeyIsSound | src/config.cpp:357-386 | two rooted paths have equal keys exactly when every option has the same source, and then the same value |
| Configs.LineBreaksConfuseKeys | src/config.cpp:280-386 | four calls of set_path with real options and line breaks in two prefixes give two paths one key and different profiles |
| CredentialCaches.RefreshIsTimely | src/credential_cache.cpp:63-79 | expiring credentials are reusable at once and until one second to one minute before expiry, a tenth of the lifetime in between |
| CredentialReuse.PublishedIsFound | src/credential_cache.cpp:170-220 | credentials that a load has stored are what the next caller finds, exactly as long as they are fresh |
| CredentialReuse.PublishedIsFoundLater | src/credential_cache.cpp:170-220 | also in every continuation of the run, until the key is invalidated or stored again |
| CredentialReuse.PublishedServesSubtree | src/credential_cache.cpp:81-168 | custom credentials serve every path below the prefix they came with, without another load |
| CredentialReuse.StoredCoversPath | src/credential_cache.cpp:120-158 | a custom load stores only unexpired credentials under a prefix that covers the path they were loaded for |
| CredentialReuse.HitServesPath | src/credential_cache.cpp:88-123 | what a custom caller is given was stored by its provider kind under a prefix that covers its path |
| CredentialCaches.RunKeepsInv | src/credential_cache.cpp:81-252 | the table of loads holds exactly those neither finished nor invalidated, throughout every run that starts so |
| CredentialCaches.SingleFlight | src/credential_cache.cpp:170-187 | at most one load per key that is not invalidated is under way |
| CredentialCaches.RunIsSingleFlight | src/credential_cache.cpp:81-252 | so at any time of every run from the empty cache |
| CredentialCaches.SupersededFlightIsHarmless | src/credential_cache.cpp:199-220 | a superseded load neither removes its successor nor stores anything |
| CredentialCaches.NativeInvalidationIsFinal | src/credential_cache.cpp:170-237 | after an invalidation, in any continuation, no caller gets anything from a load that began before it |
| CredentialCaches.CustomInvalidationIsFinal | src/credential_cache.cpp:81-252 | the same for custom paths when no sibling load is under way |
| CredentialCaches.CustomInvalidationIsFinalIff | src/credential_cache.cpp:239-252 | for custom paths a stale result is possible exactly when a load of another path of the family is under way |
| CredentialCaches.CredentialCache.EnterNative | src/credential_cache.cpp:172-187 | returns a reusable entry, joins the current load or leads a new one |
| CredentialCaches.CredentialCache.EnterCustom | src/credential_cache.cpp:88-123 | returns the usable entry with the longest prefix, whatever the order of the entries |
| CredentialCaches.CredentialCache.PublishResult | src/credential_cache.cpp:139-220 | stores a usable, uninvalidated result under its scope and ends only its own flight |
| CredentialCaches.CredentialCache.Invalidate | src/credential_cache.cpp:223-252 | removes the covered entries and marks the current load of the key |
| Probes.AnswersAreExact | src/runtime/transport.cpp:583-591 | a Content-Range answers a request exactly when it covers the requested bytes that exist and no others |
| Probes.OffersAreAccepted | src/runtime/transport.cpp:583-638 | a body is accepted exactly if its headers offer the bytes asked for: a 206 of exactly those that exist, or a sized 200 within the fallback limit, readable and not of another version |
| Probes.AcceptedIsExact | src/runtime/transport.cpp:594-638 | an accepted body starts and ends where the range does in the object |
| Probes.AcceptedIsContent | src/runtime/transport.cpp:640-689 | skipping and cutting an accepted body leaves the object's bytes from there |
| Probes.ProbeState.StartBody | src/runtime/transport.cpp:594-638 | decides as `Judge` says, with the flags that tell why a body is refused |
| Probes.ProbeState.BodyCallback | src/runtime/transport.cpp:640-689 | stores exactly the wanted part of the body so far, and nothing behind the range's room |
| Probes.ProbeState.Perform | src/runtime/transport.cpp:958-972 | a successful response has delivered the object's bytes, however it was cut and also when it was cut short on purpose |
| Probes.Settle | src/runtime/transport.cpp:1000-1092 | whatever settles a call with an answer tells the truth about one version |
| Probes.GetRange | src/runtime/transport.cpp:885-1135 | an answer has the true size, the exact existing bytes of the range and the pinned version; writes stay in the first `length` bytes; it answers only from a reply that offers those bytes, fails only if no exchange answered, and tells an error response by its status; requests and connection failures are bounded |
| FullReads.ProbeIsAnswered | src/runtime/transport.cpp:583-604 | a 206 with the bytes of the range that exist answers, wherever the range starts, also for a suffix |
| Probes.Conclude | src/runtime/transport.cpp:985-1130 | region, credentials, result, deadline and retry in this order, each exactly under its condition |
| Probes.DeadRedirectFailsFourTimes | src/runtime/transport.cpp:985-1092 | every run against a redirect to a dead host ends with its fourth connection failure |
| Probes.ProbeDeadRedirect | src/runtime/transport.cpp:885-1135 | a probe that meets it fails to connect four times |
| Probes.ProbeDeadHost | src/runtime/transport.cpp:885-1135 | a probe of the dead host fails to connect as often as any can |
| Probes.AtMostThreeFailures | src/runtime/transport.cpp:985-1092 | the same equivalence for single ranged GETs |
| ReadEnds.HeadIsRight | src/runtime/engine.cpp:1084-1105 | the head request leaves the first visible bytes |
| ReadEnds.MoveSuffix | src/runtime/engine.cpp:1143-1149 | moving a suffix that starts before the window leaves the window's last bytes |
| ReadEnds.AgreeingIsSame | src/runtime/engine.cpp:153-157 | replies that agree in size and tag are of one content |
| ReadEnds.PlaceTail | src/runtime/engine.cpp:1138-1162 | the tail ends up right by suffix, by offset, from the head, or by one more pinned request |
| ReadEnds.ReadEnds | src/runtime/engine.cpp:1061-1165 | OK means the visible size of one version, its tag, its first and its last bytes, in every case of window, backend and reply; and it is OK when every request is answered, the object does not change and the window lies inside it |
| ReadEnds.WholeObjectServerIsHealthy | src/runtime/transport.cpp:609-637 | a server that ignores every Range and pins nothing satisfies all these conditions |
| Downloads.ChunkStarts | src/download.cpp:112-124 | every chunk starts inside the object, so offsets and lengths never wrap |
| Downloads.ChunksTile | src/download.cpp:112-124 | a byte lies in the range of exactly one chunk |
| Downloads.Download.CompleteChunk | src/download.cpp:162-192 | a completed chunk is written once, from one version, and frees its slot |
| Downloads.Download.SubmitChunk | src/download.cpp:121-142 | the next chunk goes out in a free slot, at a range of its own |
| Downloads.Download.Round | src/download.cpp:153-205 | a pass that completes nothing has polled every live slot, and every pass polls one |
| Downloads.OutstandingIsBounded | src/download.cpp:112-119 | at most min(parallelism, chunks) batches are outstanding, as many as `active` says |
| Downloads.FinishedIsAssembled | src/download.cpp:151-209 | with no request out, every byte has been written exactly once and `downloaded` is the size |
| Downloads.AssembledIsObject | src/download.cpp:74-210 | the written pieces are the object, if it keeps its tag or does not change |
| Downloads.DownloadObject | src/download.cpp:74-210 | publishing happens only with the whole object in the file, and fails to happen only for an early file error or callback, a failed submission, an answer to the last poll, for a requested chunk, that stops the download, a failed publication or an exhausted budget |

## Left out

- Downloads.DownloadObject: ends as unfinished when a budget of polls is used up, because a server may never answer; it is stated for every budget.
- BatchReads.FetchBatch: runs the transfers of a batch one after the other, which share no buffer and no server; their interleaving on the I/O loops is in module Engines, which follows the parts but not their bytes. What each transfer knows of the end of its object is one truth value here; `HttpRun.FetchHttp` says when it is true.
- ReadEnds.ReadEnds: does not say how many requests it takes; what it returns is the same for any choice of them.
- Draining.CancelCanReturn: says that the wait can always end, not that a fair scheduler and a network that answers make it end; the engine needs at least one file worker and one credential worker for it, which it starts (src/runtime/engine.cpp:223-229).
- libcurl, TLS, sockets, DNS and the host resolver: a reply with chunks and a result code; a start may answer "waiting".
- Request signing, endpoint URLs, credential discovery: a load may return anything.
- The table of schemes behind a terminal URI: a parameter of resolution.
- Parsing of header text, redirects and interim responses: replies are final and parsed.
- Storage of error bodies, error texts, counters and progress values other than `downloaded`.
- Local file reads: the file worker's protocol steps are there, its `pread` loop, scratch staging and `read_file_ends` are not.
- Deadlines, retry delays and jitter: arbitrary answers of the environment.
- Shutdown (`stop_`), forked processes, allocation failure and exceptions.
- Memory orders weaker than sequential consistency.
- The two first requests of `read_ends` run one after the other; they share no state.
- Windows of a downloaded object: "content" there is what the window shows.
- The text of credential cache keys: they are values of a datatype with the provider kind, not strings with a prefix.
- Loads that fail to be stored for lack of memory, and the integer range of clock values in `refresh_time`.
