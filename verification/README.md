# stateline, modelled and verified

stateline samples posterior distributions with parallel tempered Markov chains and farms the likelihoods out to workers.
This project models its hard parts in Dafny and proves what they are for. Three cores, and what joins them:

* **The distributed job protocol.** A requester submits a batch of job types with one sample; the delegator splits it into
  one job per type, queues the jobs, hands them to workers, collects the results by index and re-queues the jobs of workers
  that are lost; a worker feeds its minion from a queue. `Protocol.dfy` composes requesters, delegator, links, workers and
  minions into one transition system, with lost messages, disconnections, timeouts and late results at any time.
  `Refinement.dfy` proves that every run refines a sequential map of the likelihood: a batch is answered at most once each
  time it is submitted, with the likelihood of its sample for every requested type in ascending order, and nothing that was
  asked is ever lost. The wire format (`Text.dfy`, `Messages.dfy`, `Requester.dfy`), the job accounting (`Accounting.dfy`,
  `Placement.dfy`), the pipelines between delegator and minion (`Pipeline*.dfy`), the scheduler (`Scheduling.dfy`) and the
  membership protocol with the heartbeat thread (`Membership.dfy`, `Timeouts.dfy`) carry their own results, and `Records.dfy`
  spells out what holds of the delegator's books, of its duration histories and of the pipelines in every reachable state;
  `Wire.dfy` that every message there survives its framing, and `WorkTimes.dfy` says what the durations measure.
* **The adaptive linear algebra**, over the reals: the in-place rank-one update of a Cholesky factor (`Cholesky.dfy`,
  `ProposalShaper.dfy`) is the exact weighted batch covariance (`Covariance.dfy`); the running regression is the unique
  least-squares fit of all its data (`Regression.dfy`); the temperature ladder stays a ladder (`RegressionAdapter.dfy`).
* **The buffered chain store.** Caches flushed at any time refine plain histories (`ChainStore.dfy`, `ChainArray.dfy`), and
  the acceptance tests satisfy detailed balance, so that every succession of proposals and swaps leaves the product of the
  tempered likelihoods invariant (`Metropolis.dfy`, `Stationarity.dfy`).

`Sampler.dfy` shows that the sampler never submits a batch id that is still unanswered, which is what the protocol assumes of
its requesters, and that no cascade of swaps is ever lost on its way down a stack.

## How it is built

Code that changes things in place is a class or a method with loops (`Delegator.dfy`, `Worker.dfy`, `Heartbeat.dfy`,
`CircularBuffer.dfy`, `Sampler.dfy`, `ProposalShaper.dfy`, `RegressionAdapter.dfy`, `ChainArray.dfy`, and the loops of
`Text.dfy`, `Messages.dfy`, `Requester.dfy`), proved to do what a function on values says (`DelegatorState.dfy`,
`ChainStore.dfy`, ...); the theorems are about those functions and their runs. A `std::map` or `std::set` that is iterated is
visited in the order of `Ordering.dfy`. `std::sqrt`, `std::exp`, `std::log` and Eigen's solver are function parameters of
which only the defining property is required (`RealMath.IsSqrt`, `RealMath.IsExp`, `RegressionAdapters.IsLog`,
`RegressionAdapters.IsSolver`). Clock readings, random draws and the likelihood are parameters.

Where the code and its documentation differ, the code is followed: a worker's range of job types is half-open
(`src/comms/delegator.cpp:211-212`), although `README.md:674-675` offers the first ten types as `0:9`; the newest state of
every chain is never written, although the destructor flushes (`ChainStore.AllFlushed`).

Some results that a reader of the code might not expect:

* `split` loses a last part that is empty, so `join` and `split` are inverse exactly when that part is not empty
  (`Text.JoinSplitRoundTrip`), and an envelope is read back exactly when no frame of its address is empty
  (`Messages.EnvelopeRoundTrip`).
* The 32-bit estimates of the scheduler wrap around in general, but never for a worker that may take another job, whatever
  durations were recorded, so `bestWorker` finds a worker exactly when there is one (`Scheduling.BestFoundIff`).
* The rank-one update is exact even when it clamps, for the factor with its diagonal raised; it is the running covariance
  exactly when nothing is clamped (`Covariance.AccumulatesIff`). With 32-bit counts that start above zero and ranges of at
  least 1e-13 nothing ever is (`Covariance.NeverClamps`, `ProposalShapers.ProposalShaper.ExactCovariance`); with a count that
  starts from zero the first update clamps everything (`Covariance.ZeroCountClamps`). The source starts it at 1000
  (`src/app/serverwrapper.cpp:50`).
* The copies that the proposals use have norm 1 before the first sample and the norm of the ranges afterwards
  (`ProposalShapers.ProposalShaper.constructor`, `ProposalShapers.NormalisedAfterUpdate`).
* The regression has exactly one solution unless both caps are equal and, once there is data, both are zero
  (`Regression.SolvableIff`).
* A live client is never given up exactly when heartbeat period, poll gap and delay together exceed the server's timeout by
  less than a millisecond (`Timeouts.NoFalseTimeoutIff`, `Timeouts.SafeSettings`).

## Model

| member | source | states |
|---|---|---|
| `Text.JoinStr` | `src/common/string.hpp:18-28` | The joining loop yields the parts in order with the delimiter between them. |
| `Text.GlueIsJoin` | `src/common/string.hpp:22-26` | Appending each part with a delimiter and dropping the last character is joining; needs at least one part. |
| `Text.SplitStr` | `src/common/string.hpp:31-49` | The splitting loop appends to what is there the pieces that Split defines, without an empty last piece. |
| `Text.SplitStrSet` | `src/common/string.hpp:31-49` | Into a std::set the same loop collects the set of those pieces. |
| `Text.JoinSplitRoundTrip` | `src/common/string.hpp:18-49` | Parts free of the delimiter are recovered from their join if and only if the last one is not empty. |
| `Text.SplitOfJoin` | `src/common/string.hpp:18-49` | Of parts free of the delimiter exactly an empty last one is lost. |
| `Text.JoinInjective` | `src/comms/delegator.cpp:149` | Different addresses whose frames are free of the delimiter and not empty have different joined names. |
| `Text.StoIRoundTrip` | `src/comms/delegator.cpp:154-156` | A printed number is read back if and only if an int can hold it. |
| `Text.ToStringInjective` | `src/comms/requester.cpp:30-32` | Decimal printing is canonical: different numbers print differently. |
| `Text.ToStringColonFree` | `src/comms/requester.cpp:30-33` | A printed number has no colon and is not empty, so it survives joining and splitting. |
| `Messages.Send` | `src/comms/socket.cpp:82-120` | The frames written: the address reversed, an empty delimiter, the subject, the data. |
| `Messages.Receive` | `src/comms/socket.cpp:134-165` | The loop over frames reads the message that Parse defines, or fails where a frame is missing or the subject is no number. |
| `Messages.EnvelopeRoundTrip` | `src/comms/socket.cpp:82-165` | What is sent is received as the same message, empty data frames included, if and only if no address frame is empty. |
| `Messages.RouterInIsPrepend` | `src/comms/delegator.cpp:54-57` | A ROUTER that puts the identity before the frames makes it the first frame of the address received. |
| `Messages.RouterOutIsStrip` | `src/comms/delegator.cpp:54-57` | A ROUTER that strips the first frame sends the rest of the address to that identity. |
| `Messages.RouterHopRoundTrip` | `src/comms/delegator.cpp:195-199` | A reply to the address received goes back to the sender with the sender's own address. |
| `Requesters.Submit` | `src/comms/requester.cpp:27-41` | The loops of submit build the message whose data are the joined printed types and the joined sample. |
| `Requesters.Retrieve` | `src/comms/requester.cpp:43-55` | retrieve returns the batch id and the results of the message in order. |
| `Requesters.TypesParseIff` | `src/comms/delegator.cpp:151-156` | The delegator parses all submitted types if and only if an int can hold each of them. |
| `Requesters.TypesRoundTrip` | `src/comms/requester.cpp:27-40` | For any nonempty vector of such types the delegator recovers exactly the set of types, and as many strings as types, so there is one result slot per type. |
| `Requesters.BatchIdRoundTrip` | `src/comms/requester.cpp:40-46` | The id that retrieve reads in a reply to the submitted address is the submitted id. |
| `CircularBuffers.CircularBuffer.constructor` | `src/common/circularbuffer.hpp:29-32` | A new buffer holds its size in zeros. |
| `CircularBuffers.CircularBuffer.PushBack` | `src/common/circularbuffer.hpp:34-39` | push_back appends and drops the oldest entry; the buffer stays full. |
| `CircularBuffers.PushAllIsWindow` | `src/common/circularbuffer.hpp:29-39` | After any pushes the buffer is exactly the last entries pushed, preceded by zeros while fewer were pushed. |
| `Ordering.AscendingUnique` | `src/comms/delegator.cpp:163` | The order in which a set is visited is the only ascending arrangement of its elements. |
| `Ordering.FirstKey` | `src/comms/delegator.cpp:209` | The first key of a map is its least string. |
| `Ordering.FirstType` | `src/comms/delegator.cpp:163` | The first element of a set of types is its least number. |
| `Ordering.StringLessStrictTotal` | `src/comms/delegator.cpp:209` | The comparison of strings is a strict total order, which std::map relies on. |
| `Delegators.Delegator.constructor` | `src/comms/delegator.cpp:52-62` | No workers, requests or jobs, and job ids from zero. |
| `Delegators.Delegator.TimeForJob` | `src/comms/delegator.cpp:26-36` | The accumulating loop is the mean of the recorded durations in unsigned 32-bit arithmetic. |
| `Delegators.Delegator.UsTillDone` | `src/comms/delegator.cpp:40-48` | The loop over the jobs in progress is their total estimate and the new job's, modulo 2^32. |
| `Delegators.Delegator.ConnectWorker` | `src/comms/delegator.cpp:118-145` | The worker is entered under its identity with the offered half-open range, or all types, and a zero history for each. |
| `Delegators.Delegator.NewWorkerSaysHello` | `src/comms/delegator.cpp:75-82` | Every HELLO goes to the heartbeat thread; only an unknown worker is entered. |
| `Delegators.Delegator.ReceiveRequest` | `src/comms/delegator.cpp:147-171` | One request record, inserted only if its joined address is new, and one job for every type in ascending order at the end of the queue. |
| `Delegators.Delegator.TransformTypes` | `src/comms/delegator.cpp:153-156` | The transform yields the set of parsed types. |
| `Delegators.Delegator.QueueJobs` | `src/comms/delegator.cpp:162-169` | The loop appends the jobs of the sorted types with consecutive ids and indices. |
| `Delegators.Delegator.ReceiveResult` | `src/comms/delegator.cpp:173-202` | An unknown worker changes nothing; otherwise duration, slot, count and progress are updated, and a complete request is answered and erased. |
| `Delegators.Delegator.BestWorker` | `src/comms/delegator.cpp:204-224` | The loop finds the first worker in key order among those with the least estimate that may take the job. |
| `Delegators.Delegator.OnPoll` | `src/comms/delegator.cpp:226-251` | The pass that erases from the queue while it walks it is the recursive pass over the queue: same state, same messages in order. |
| `Delegators.Delegator.SendJob` | `src/comms/delegator.cpp:239-249` | Dispatching one job: the message with its own request's data, the start time, the move from queue to worker. |
| `Delegators.Delegator.DisconnectWorker` | `src/comms/delegator.cpp:253-269` | The worker goes and its jobs come to the front of the queue; an unknown worker changes nothing. |
| `Delegators.Delegator.PushFront` | `src/comms/delegator.cpp:262-263` | The loop leaves the jobs before the queue in descending key order. |
| `Delegators.Delegator.ForwardAndDisconnect` | `src/comms/delegator.cpp:88-89` | A GOODBYE is forwarded to the heartbeat thread and the worker dropped. |
| `DelegatorStates.BestUnique` | `src/comms/delegator.cpp:207-222` | At most one worker satisfies what bestWorker must deliver. |
| `Delegators.SeenNext` | `src/comms/delegator.cpp:209-222` | One iteration of the loop keeps what it has found: only a strictly smaller estimate displaces an earlier key. |
| `DelegatorStates.BestExtends` | `src/comms/delegator.cpp:209-222` | Looking at one more worker keeps the best of those seen. |
| `DelegatorStates.DispatchReady` | `src/comms/delegator.cpp:239-249` | A dispatch keeps what a poll relies on: at most ten jobs per worker, all offered, queue ids distinct and held by nobody, their requests known. |
| `Scheduling.EstimateInRange` | `src/comms/delegator.cpp:26-48` | For a worker that may take another job the estimate neither wraps nor reaches the uint maximum, whatever durations were recorded. |
| `Scheduling.BestFoundIff` | `src/comms/delegator.cpp:204-224` | A worker is found if and only if some worker offers the type and has fewer than ten jobs. |
| `Scheduling.IdleEstimate` | `src/comms/delegator.cpp:26-49` | The estimate of a worker without jobs is the time for the new job alone. |
| `Scheduling.EstimateGrows` | `src/comms/delegator.cpp:26-49` | Each job in progress adds its own time, in whatever order they came, so with IdleEstimate the estimate is the sum over all of them. |
| `Scheduling.TotalMoves` | `src/comms/delegator.cpp:185-189` | A result moves the sum of its type's ten durations by the new one less the oldest, and no other type's. |
| `Scheduling.PollDispatches` | `src/comms/delegator.cpp:226-251` | A poll sends one job after the other: the first in the queue that some worker can take, to the one with the least estimate at that moment, until there is none; each message is for that worker and has the job's type, name and data. |
| `Scheduling.PollConservesWork` | `src/comms/delegator.cpp:226-251` | After a poll no queued job has a connected worker that could take it. |
| `Scheduling.PollKeepsOrder` | `src/comms/delegator.cpp:229-250` | The queue left is an ordered selection of the queue before. |
| `Scheduling.PollSends` | `src/comms/delegator.cpp:239-242` | Every message of a poll is a JOB for the worker that now holds that job, with the data of its own request. |
| `Scheduling.PollSendsOnce` | `src/comms/delegator.cpp:226-251` | The queue before is, as a multiset, the queue left and the jobs sent: each dispatched job is sent once. |
| `Accounting.RequestKeepsAccounted` | `src/comms/delegator.cpp:147-171` | A new request keeps the accounts: its slots are empty and each has one outstanding job of the index-th smallest type. |
| `Accounting.AnswerKeepsAccounted` | `src/comms/delegator.cpp:191-201` | A right answer fills its own slot, counts once and ends that job only; a complete request leaves with no job outstanding. |
| `Accounting.CompleteIsExpected` | `src/comms/delegator.cpp:195-199` | When the count reaches the number of types the results are the likelihood of each type in ascending order. |
| `Placement.ConnectKeeps` | `src/comms/delegator.cpp:118-145` | Connecting a worker keeps the delegator's invariant. |
| `Placement.RequestKeeps` | `src/comms/delegator.cpp:147-171` | So does a request whose address is not pending. |
| `Placement.RequestQueues` | `src/comms/delegator.cpp:160-168` | It queues one job for each type, ascending, behind all the others, with index and name counted on. |
| `Placement.ResultKeeps` | `src/comms/delegator.cpp:173-202` | So does a right result: its look-ups succeed, exactly its job ends, and an answer that is sent is the expected one for its request. |
| `Placement.PollKeeps` | `src/comms/delegator.cpp:226-251` | So does a poll, which changes no request and leaves the set of outstanding jobs as it is. |
| `Placement.DisconnectKeeps` | `src/comms/delegator.cpp:253-269` | So does losing a worker: every job it held is queued again, once. |
| `Placement.DisconnectQueues` | `src/comms/delegator.cpp:253-269` | They come before all the others, the greatest name first, and nothing else changes. |
| `Pipeline.PeerKept` | `src/comms/delegator.cpp:173-202` | What is known of a worker's pipeline survives any change of the delegator that leaves its jobs known. |
| `PipelineHandlers.ResultIsRight` | `src/comms/delegator.cpp:182-192` | A result on its way from a connected worker names a job that it holds and carries that job's likelihood. |
| `PipelineHandlers.ResultPipelines` | `src/comms/delegator.cpp:173-202` | Handling a result keeps every pipeline: names distinct and known, data and types those of their requests. |
| `PipelineHandlers.PollPipelines` | `src/comms/delegator.cpp:226-251` | So does a poll together with putting its messages on the links. |
| `PipelineHandlers.DisconnectPipelines` | `src/comms/delegator.cpp:253-269` | So does dropping a worker, whose messages on the way no longer promise anything. |
| `PipelineHandlers.ConnectPipelines` | `src/comms/delegator.cpp:118-145` | So does connecting a worker that greets. |
| `PipelineHandlers.RequestPipelines` | `src/comms/delegator.cpp:147-171` | So does a request. |
| `PipelineSteps.JobArrivedKeeps` | `src/comms/worker.cpp:42-52` | A job that arrives at a worker stays the only mention of its name in the pipeline. |
| `PipelineSteps.WorkerReadsKeeps` | `src/comms/worker.cpp:54-70` | So it is when the worker passes on a result or a HELLO and feeds the minion. |
| `PipelineSteps.TakenKeeps` | `src/comms/minion.cpp:35-49` | A job handed to the minion parses, and the minion remembers its name. |
| `PipelineSteps.FinishedKeeps` | `src/comms/minion.cpp:51-54` | The result names the job last received and carries its likelihood. |
| `PipelineSteps.LoseFromWorkerKeeps` | `src/comms/socket.cpp:121-131` | A lost message breaks nothing. |
| `Wire.EveryMessageSurvives` | `src/comms/socket.cpp:82-165` | In every reachable state each message on each link is read as it was sent: parsing its frames, with the identity that a ROUTER socket adds or takes, gives it back. |
| `Batches.RequestIsNew` | `src/comms/delegator.cpp:160-161` | A request that arrives is never pending already, so insert never keeps an old record. |
| `Batches.RequestRead` | `src/comms/delegator.cpp:149-160` | What the delegator reads of a request on its way is what was submitted: address, set of types, sample, one slot per type. |
| `Batches.RetrieveKeeps` | `src/comms/requester.cpp:43-55` | An answer on its way is the right one for a batch that is waited for, and reading it ends exactly that wait. |
| `Workers.Worker.constructor` | `src/comms/worker.cpp:22-32` | The minion waits and the queue is empty. |
| `Workers.Worker.OnJobFromNetwork` | `src/comms/worker.cpp:42-52` | A job goes to the waiting minion or to the end of the queue. |
| `Workers.Worker.OnResultFromMinion` | `src/comms/worker.cpp:54-66` | A result is passed on and the next queued job given to the minion, or the minion waits. |
| `Workers.Worker.ForwardToNetwork` | `src/comms/worker.cpp:70` | Forwarded messages lose their address. |
| `Workers.Minion.constructor` | `src/comms/minion.cpp:18-33` | A minion says HELLO once, with its range or with an empty string. |
| `Workers.Minion.NextJob` | `src/comms/minion.cpp:35-49` | The job's name is stored, its type parsed and its sample split. |
| `Workers.Minion.SubmitResult` | `src/comms/minion.cpp:51-54` | The result names the stored job. |
| `Workers.FirstComeFirstServed` | `src/comms/worker.cpp:42-66` | In every order of events the minion has at most one job, and done, in hand and queued jobs together are the arrivals in order. |
| `Workers.OfferRoundTrip` | `src/comms/minion.cpp:30-32` | A range that ints can hold is read by the delegator as it was offered. |
| `Refinement.StepKeeps` | `src/comms/delegator.cpp:84-103` | Every step of the whole system keeps the invariant that joins accounts, pipelines and batches. |
| `Refinement.RunRefinesMap` | `src/comms/delegator.cpp:147-269` | Every step of every run is a step of the sequential specification, seen through what requesters wait for. |
| `Refinement.EveryAnswerIsRight` | `src/comms/delegator.cpp:191-199` | Every answer read in any run is the likelihood of each type in ascending order, for a batch that is waited for. |
| `Refinement.AnsweredAtMostOnce` | `src/comms/delegator.cpp:195-199` | Between two answers to the same batch it was submitted again. |
| `Refinement.NothingIsMissed` | `src/comms/delegator.cpp:173-201` | In every reachable state every handler finds what it looks up: parsing, operator[] and at() never miss, and no arriving request is pending. |
| `Refinement.NothingIsLost` | `src/comms/delegator.cpp:253-264` | In every reachable state each batch waited for is on its way, or on its way back, or pending with an outstanding job. |
| `Records.WorkersInBounds` | `src/comms/delegator.cpp:204-224` | In every reachable state each worker has at most ten jobs, all of offered types, a full history for exactly the offered types, and workerCount_ is the number of workers. |
| `Records.BooksBalance` | `src/comms/delegator.cpp:191-201` | In every reachable state each slot of a pending request is empty with a job of its type outstanding or holds the right answer; answered and outstanding together are all slots. |
| `Records.EachJobOnce` | `src/comms/delegator.cpp:239-264` | In every reachable state each outstanding job is once in the queue or with one worker, and not both. |
| `Records.HistoryIsWindow` | `src/comms/delegator.cpp:185-189` | In every reachable state a worker's history for a type is exactly the last ten durations recorded for it since it connected, padded with zeros. |
| `Records.EstimateIsMeanIff` | `src/comms/delegator.cpp:26-36` | Corollary of WorkersInBounds and HistoryIsWindow: the estimate is the floored mean of those ten if and only if their sum fits in 32 bits. |
| `Records.PipelineNamesInProgress` | `src/comms/delegator.cpp:173-202` | In every reachable state the job names on the link to a connected worker, in its queue, at its minion and in results on their way back are pairwise distinct and in progress with it. |
| `WorkTimes.MeasuredIsBusyTime` | `src/comms/delegator.cpp:185-190` | Whatever jobs a worker is given and in whatever order it answers them, the durations measured add up to the time for which it had the job that it answered next, and to nothing more. |
| `WorkTimes.MeasuredSinceConnection` | `src/comms/delegator.cpp:118-190` | Counted from its connection this assumes nothing of what came before. |
| `WorkTimes.NeverIdle` | `src/comms/delegator.cpp:185-190` | A worker that always has its next job when it answers one is busy without a gap: the durations add up to its last answer less its first start, or less the result before that. |
| `WorkTimes.InOrderIsUnanswered` | `src/comms/delegator.cpp:185-190` | Where jobs are answered in the order given, those are simply the times at which some job was unanswered. |
| `WorkTimes.DurationsDoNotOverlap` | `src/comms/delegator.cpp:185-190` | The durations never add up to more than the time that passed. |
| `Records.OfferIsHalfOpen` | `src/comms/delegator.cpp:123-135` | A worker that offers a range is given exactly the types from its lower end up to, and without, its upper end. |
| `Records.DefaultOffer` | `src/comms/delegator.cpp:123-127` | A worker that offers nothing in particular may take exactly the types below the number of types. |
| `Heartbeats.ServerHeartbeat.constructor` | `src/comms/serverheartbeat.cpp:61-93` | Nobody is monitored. |
| `Heartbeats.ServerHeartbeat.InsertClient` | `src/comms/serverheartbeat.cpp:99-105` | A HELLO adds the client and a time for it, unless it has one. |
| `Heartbeats.ServerHeartbeat.DeleteClient` | `src/comms/serverheartbeat.cpp:107-112` | A GOODBYE removes client and time. |
| `Heartbeats.ServerHeartbeat.ReceiveHeartbeat` | `src/comms/serverheartbeat.cpp:114-120` | A heartbeat sets the client's time, even of a client that is not monitored. |
| `Heartbeats.ServerHeartbeat.MonitorTimeouts` | `src/comms/serverheartbeat.cpp:122-139` | One pass keeps exactly the clients heard of within the timeout, takes the times of the others with them, changes no other time, and sends one GOODBYE for each client that goes. |
| `Heartbeats.TimeoutsRemove` | `src/comms/serverheartbeat.cpp:122-139` | The same of the function on values, of which the runs below are made. |
| `Heartbeats.ServerHeartbeat.SendHeartbeats` | `src/comms/serverheartbeat.cpp:141-154` | A round of heartbeats is sent when the last is old enough; its time is kept only if there are clients. |
| `Heartbeats.ClientHeartbeat.constructor` | `src/comms/clientheartbeat.cpp:43-74` | A client starts with both times set and running. |
| `Heartbeats.ClientHeartbeat.SendHeartbeat` | `src/comms/clientheartbeat.cpp:100-110` | A heartbeat is sent exactly when the period has passed, in whole milliseconds, and the time kept. |
| `Heartbeats.ClientHeartbeat.HeartbeatArrived` | `src/comms/clientheartbeat.cpp:92-98` | A heartbeat of the server sets the time of the last one received. |
| `Heartbeats.ClientHeartbeat.ReceiveGoodbye` | `src/comms/clientheartbeat.cpp:53` | A GOODBYE stops the client. |
| `Membership.StepKeeps` | `src/comms/delegator.cpp:74-100` | Every step of delegator, channels and heartbeat thread keeps it that no connected worker is unwatched. |
| `Membership.NobodyUnwatched` | `src/comms/delegator.cpp:74-100` | In every reachable state a connected worker is monitored, or its HELLO is the last word on the way, or its GOODBYE is on the way back; with empty channels all connected workers are monitored. |
| `Membership.OthersKeepMembers` | `src/comms/delegator.cpp:147-251` | Requests, results and polls connect and disconnect nobody. |
| `Membership.HeardIsKept` | `src/comms/serverheartbeat.cpp:114-139` | A monitored client whose heartbeat is read survives every check within the timeout from then. |
| `Membership.GivenUpOnce` | `src/comms/serverheartbeat.cpp:122-139` | In every run a client that is given up is told so once, and between two GOODBYEs the heartbeat thread has read a HELLO of it. |
| `Timeouts.NoFalseTimeoutIff` | `src/comms/serverheartbeat.cpp:122-139` | No run gives up a live client if and only if the longest possible silence is within the timeout. |
| `Timeouts.SilentRun` | `src/comms/clientheartbeat.cpp:100-110` | There is a run in which a live client is silent for exactly that long. |
| `Timeouts.SafeSettings` | `src/comms/settings.hpp:34-50` | Corollary of NoFalseTimeoutIff, in the settings' own numbers: the longest silence is period, poll gap and delay together, less one millisecond. |
| `Timeouts.SilentGoneIff` | `src/comms/serverheartbeat.cpp:122-139` | In every run a monitored client that is heard of no more is gone if and only if there has been a check later than its timeout: the first such check gives it up and no earlier one does. |
| `Samplers.StepKeeps` | `src/infer/sampler.cpp:142-203` | After every step each chain has exactly one request outstanding or waits for the swap with the next colder chain of its stack. |
| `Samplers.StepWrites` | `src/infer/sampler.cpp:142-203` | What a step writes, case by case: a cascade starts exactly when the hottest chain of several has a multiple of the interval of states, and is handed down to the coldest. |
| `Samplers.CascadesConserved` | `src/infer/sampler.cpp:171-203` | In every run no cascade is lost and none overtakes another: a pair is waiting exactly when one cascade more has come down to it than it has swapped. |
| `Samplers.CascadesReachAll` | `src/infer/sampler.cpp:171-203` | So where nothing waits every cascade of a stack has swapped every pair of it exactly once. |
| `Samplers.Sampler.constructor` | `src/infer/sampler.cpp:124-132` | At the start all chains have a request outstanding. |
| `Samplers.Sampler.Propose` | `src/infer/sampler.cpp:206-213` | Only a chain without an outstanding request submits. |
| `Samplers.Sampler.Unlock` | `src/infer/sampler.cpp:237-257` | The hotter chain proposes again and the lock moves one chain down, or the coldest chain goes on. |
| `Samplers.Sampler.Step` | `src/infer/sampler.cpp:142-203` | A swap is tried only with a hotter neighbour of the same stack that has nothing outstanding. |
| `Cholesky.RotationRotates` | `src/infer/adaptive.cpp:187-191` | The step's numbers satisfy r^2 = V^2 + x^2 and c^2 = 1 + s^2 with V at least 1e-18, so nothing divides by zero. |
| `Cholesky.RowStepsPreserve` | `src/infer/adaptive.cpp:185-197` | The column step keeps, for every pair of rows, the product of the column entries plus the product of the residuals. |
| `Cholesky.UpdateIdentity` | `src/infer/adaptive.cpp:184-197` | The whole update adds the outer product of the vector to R R^T, R taken with its diagonal raised to 1e-18 where it is less. |
| `Cholesky.UpdateLower` | `src/infer/adaptive.cpp:184-197` | The result is lower triangular, and no diagonal entry gets smaller nor stays below 1e-18. |
| `Covariance.FactorIdentity` | `src/infer/adaptive.cpp:177-197` | Without any assumption: n times the new square is n times the square of the shrunk, raised factor plus the sample's outer product. |
| `Covariance.AccumulatesIff` | `src/infer/adaptive.cpp:177-197` | The update is the weighted running covariance if and only if no diagonal entry is clamped. |
| `Covariance.FactorStaysPositive` | `src/infer/adaptive.cpp:180-197` | The factor stays lower triangular with a diagonal of at least 1e-18. |
| `Covariance.BatchCovariance` | `src/infer/adaptive.cpp:155-197` | After any samples for which the ranges are ample, count times L L^T is initial count times range^2 plus the sum of the outer products, and no diagonal entry has lost weight. |
| `Covariance.AmpleIn32Bits` | `src/infer/adaptive.cpp:158-181` | With 32-bit counts that start above zero, ranges of at least 1e-13 are ample for every run. |
| `Covariance.NeverClamps` | `src/infer/adaptive.cpp:155-197` | Then, after any number of any samples, the factor is that batch covariance and the next update clamps nothing. |
| `Covariance.ZeroCountClamps` | `src/infer/adaptive.cpp:158-187` | A count that starts from zero must be excepted: its first update clamps every range. |
| `ProposalShapers.UpdateColumn` | `src/infer/adaptive.cpp:187-196` | The inner loop, in place, is one column step. |
| `ProposalShapers.RankOne` | `src/infer/adaptive.cpp:184-197` | The nested loops, in place, are the whole update. |
| `ProposalShapers.Normalise` | `src/infer/adaptive.cpp:199-204` | The copy is scaled to the norm of the initial ranges and 1e-4 added to its diagonal. |
| `ProposalShapers.LearnSample` | `src/infer/adaptive.cpp:173-204` | One update of a factor that has learned some samples makes it the factor that has learned one more. |
| `ProposalShapers.NormalisedAfterUpdate` | `src/infer/adaptive.cpp:199-204` | After any update the copy is lower triangular with a diagonal of at least 1e-4, and but for that 1e-4 its norm is that of the initial ranges. |
| `ProposalShapers.ShapeAfterUpdate` | `src/infer/adaptive.cpp:199-204` | But for that 1e-4 the copy is one nonnegative number times the factor, and its square is the factor's square scaled to the squared norm of the initial ranges, at every entry. |
| `ProposalShapers.ProposalsFollowBatch` | `src/infer/adaptive.cpp:173-204` | So, in 32 bits and for ranges of at least 1e-13, the covariance of the proposals is the exact batch covariance of all samples, divided by its trace and multiplied by that squared norm. |
| `ProposalShapers.LearnedIn32Bits` | `src/infer/adaptive.cpp:173-197` | A factor in memory whose 32-bit count started above zero is the exact weighted batch covariance of its samples, for ranges of at least 1e-13, and its next update clamps nothing. |
| `ProposalShapers.ProposalShaper.ExactCovariance` | `src/infer/adaptive.cpp:173-197` | So it is for every chain of the object, in every state that its methods reach. |
| `ProposalShapers.ProposalShaper.ExactProposals` | `src/infer/adaptive.cpp:199-204` | And that holds of every chain's copy once it has samples, in every state that the methods reach. |
| `ProposalShapers.ProposalShaper.constructor` | `src/infer/adaptive.cpp:155-171` | Every factor starts as a quarter of the bounds' width on the diagonal, and its copy as that divided by its norm. |
| `ProposalShapers.RangesNorm` | `src/infer/adaptive.cpp:164-166` | The norm of the ranges is Eigen's norm of the initial factor. |
| `ProposalShapers.ProposalShaper.Update` | `src/infer/adaptive.cpp:173-209` | Only the chain's own count, factor and copy change, as the functions say; every factor still has learned exactly its samples. |
| `Regression.MomentsAreBatch` | `src/infer/adaptive.cpp:66-75` | After any data, count times each running average is ten times its initial value plus the batch sum. |
| `Regression.MomentsAreSums` | `src/infer/adaptive.cpp:63-75` | In terms of what update is told, entry by entry: count times the averages are plain sums over the calls of minus the clamped value, the side data and one, their products, and their sums over the accepted calls, with the initial guess added. |
| `Regression.ClampedIsNearest` | `src/infer/adaptive.cpp:68` | Clamping takes the number between the caps that is nearest. |
| `Regression.StaysSymmetric` | `src/infer/adaptive.cpp:73` | The matrix stays symmetric. |
| `Regression.BatchDefinite` | `src/infer/adaptive.cpp:41-47` | It is positive definite when the caps differ, or are not zero and there is data. |
| `Regression.SolvableIff` | `src/infer/adaptive.cpp:78` | The system solved has exactly one solution if and only if the caps differ, or are not zero and there is data. |
| `LinearAlgebra.DefiniteHasOne` | `src/infer/adaptive.cpp:78` | A positive definite system of size three has exactly one solution. |
| `Regression.FitIsLeastSquares` | `src/infer/adaptive.cpp:63-78` | A solution minimises the squared errors of the initial guess and all data, strictly when the system is definite. |
| `Regression.PredictIsBest` | `src/infer/adaptive.cpp:94-106` | The prediction is within the caps, and no value within them brings the fitted rate nearer to the optimum. |
| `Regression.RateIsFit` | `src/infer/adaptive.cpp:94-106` | The fitted rate is the product of the weights, the first being at least a thousandth, with minus the value, the side data and one. |
| `RegressionAdapters.FittedIsLeastSquares` | `src/infer/adaptive.cpp:52-78` | Once there is data the stored weights solve the system and are the unique least-squares fit. |
| `RegressionAdapters.RegressionAdapter.LearnedFromCalls` | `src/infer/adaptive.cpp:63-78` | In every state of the object the moments of a temperature are those sums over all the calls for that temperature. |
| `RegressionAdapters.ComputedIsLadder` | `src/infer/adaptive.cpp:118-132` | Whatever the weights, the computed inverse temperatures start at 1 and each is exp(-max) to exp(-min) times the one below. |
| `RegressionAdapters.LadderFalls` | `src/infer/adaptive.cpp:118-132` | With a least step of zero they fall from 1 and stay positive. |
| `RegressionAdapters.UpdateSeesPrediction` | `src/infer/adaptive.cpp:108-116` | The step that betaUpdate derives from two neighbouring rungs is the one predicted for them, and clamping leaves it. |
| `RegressionAdapters.RegressionAdapter.constructor` | `src/infer/adaptive.cpp:31-61` | All temperatures start from the same initial moments, all values from 1, which is a ladder. |
| `RegressionAdapters.RegressionAdapter.Update` | `src/infer/adaptive.cpp:63-78` | The chain's temperature remembers the call with its arguments, and its weights solve its system again. |
| `RegressionAdapters.RegressionAdapter.BetaUpdate` | `src/infer/adaptive.cpp:108-116` | A swap is learned as a data point of the lower temperature, and all ladders stay. |
| `RegressionAdapters.RegressionAdapter.ComputeBetaStack` | `src/infer/adaptive.cpp:118-132` | The loop recomputes one stack, changes no other value, and leaves every stack a ladder. |
| `RegressionAdapters.RegressionAdapter.ComputeSigma` | `src/infer/adaptive.cpp:134-139` | The width is the exponential of the prediction of the chain's temperature, within the exponentials of the caps, and only the chain's own value changes. |
| `ChainStore.StepRefines` | `src/infer/chainarray.cpp:94-189` | Every operation does to cache, files and lengths what it does to plain histories, and changes nothing written. |
| `ChainStore.RunRefines` | `src/infer/chainarray.cpp:94-189` | So does every run, of any length, with any flushes. |
| `ChainStore.FlushesDoNotMatter` | `src/infer/chainarray.cpp:108-118` | Two runs that differ only in when and what they flush have the same histories. |
| `ChainStore.ChainIsHistory` | `src/infer/chainarray.cpp:88-92` | length is the length of the history, and a cold chain's file followed by its cache is the history. |
| `ChainStore.AllFlushed` | `src/infer/chainarray.cpp:82-86` | After the destructor's flush a cold chain's file has all its states but the newest. |
| `ChainStore.FlushOneKeeps` | `src/infer/chainarray.cpp:131-155` | A flush moves all but the newest state out of the cache and changes no history. |
| `ChainStore.PairedRun` | `src/infer/chainarray.cpp:94-129` | If every supplied energy is that of its sample, every state of every history is so paired. |
| `ChainStore.StorePaired` | `src/db/db.cpp:37-47` | And so is every state in a cache or a file. |
| `ChainStore.SwapExchanges` | `src/infer/chainarray.cpp:162-189` | An accepted swap exchanges sample, energy and acceptance of the two newest states and leaves widths and temperatures; a rejected one only marks the lower; all else stays. |
| `ChainStore.RejectedOnlyMarks` | `src/infer/chainarray.cpp:183-188` | A rejected swap is the mark on the lower chain alone. |
| `ChainStore.AppendStores` | `src/infer/chainarray.cpp:94-106` | For every draw from [0, 1) the history grows by one state: below the chance of the proposal it is the proposal with the chain's own width and temperature, accepted, otherwise the state before again, not accepted; nothing else changes. |
| `ChainStore.SwapStores` | `src/infer/chainarray.cpp:162-189` | For every draw the two newest states exchange sample, energy and acceptance if and only if it is below the chance of the swap at the chains' own temperatures, whichever way round the chains are named. |
| `ChainArrays.ChainArray.constructor` | `src/infer/chainarray.cpp:70-80` | All chains and files are empty. |
| `ChainArrays.ChainArray.Length` | `src/infer/chainarray.cpp:88-92` | The length of the chain's history. |
| `ChainArrays.ChainArray.LastState` | `src/infer/chainarray.cpp:157-160` | The newest state of the chain's history. |
| `ChainArrays.ChainArray.SetSigma` | `src/infer/chainarray.cpp:196-199` | Only the width changes. |
| `ChainArrays.ChainArray.SetBeta` | `src/infer/chainarray.cpp:206-209` | Only the inverse temperature changes. |
| `ChainArrays.ChainArray.FlushToDisk` | `src/infer/chainarray.cpp:131-155` | The function on values; the histories stay and the files only grow. |
| `ChainArrays.ChainArray.FlushAll` | `src/infer/chainarray.cpp:116-117` | The loop flushes every chain once. |
| `ChainArrays.ChainArray.Initialise` | `src/infer/chainarray.cpp:123-129` | The chain gets its settings and one accepted state. |
| `ChainArrays.ChainArray.Append` | `src/infer/chainarray.cpp:94-121` | The proposal or the last state again is appended, and everything flushed after ten seconds. |
| `ChainArrays.ChainArray.Swap` | `src/infer/chainarray.cpp:162-189` | The swap on the caches is the swap on the histories, with the acceptance test of the two newest states. |
| `Metropolis.AcceptProposalIff` | `src/infer/chainarray.cpp:30-45` | A proposal passes exactly for the draws below the chance, so it is accepted with that probability. |
| `Metropolis.AcceptSwapIff` | `src/infer/chainarray.cpp:55-67` | A swap likewise. |
| `Metropolis.ProposalBalance` | `src/infer/chainarray.cpp:36-40` | Detailed balance for the tempered likelihood, for all energies, infinite ones included, and all temperatures. |
| `Metropolis.SwapBalance` | `src/infer/chainarray.cpp:62-65` | Detailed balance for the product of two chains' tempered likelihoods, as swap passes its arguments. |
| `Metropolis.ProposalChanceIs` | `src/infer/chainarray.cpp:30-45` | The chance itself, infinite energies included: one downhill, the exponential of the tempered difference uphill. |
| `Metropolis.SwapChanceIs` | `src/infer/chainarray.cpp:55-67` | A swap is certain when the colder chain gets the lower energy, and otherwise has the exponential of the product of the differences. |
| `Stationarity.Balance` | `src/infer/chainarray.cpp:30-67` | Detailed balance for the joint target of all chains of a stack, for a symmetric proposal to one chain and for a swap of two. |
| `Stationarity.TransitionsAreProbabilities` | `src/infer/chainarray.cpp:30-67` | The transition chances of a step are not negative and add up to one. |
| `Stationarity.StepInvariant` | `src/infer/chainarray.cpp:30-67` | Every such step leaves the joint target as it is. |
| `Stationarity.RunInvariant` | `src/infer/chainarray.cpp:30-67` | So does every succession of proposals and swaps, in any order. |
| `Stationarity.AppendMoves` | `src/infer/chainarray.cpp:94-106` | append on the chain store takes exactly these steps: for draws below the step's chance of accepting it moves from one configuration to the other, and else it stays. |
| `Stationarity.SwapMoves` | `src/infer/chainarray.cpp:162-189` | So does swap. |

## Left out

- Vendored code (`external/`), the settings reader, the command line, the HTTP server, Docker and cluster scripts: no logic of
  this project's own.
- ZeroMQ, threads and blocking: links are sequences that may lose messages, and each handler is one atomic step with one clock
  reading.
- Delegators.Delegator.OnPoll: models sends as succeeding, because a failed send drops the worker while the loop still points
  to it; a failed send is a separate step in `Protocol.dfy` (`Timeout`) and in `Membership.dfy` (`SendFailed`).
- Delegators.Delegator.ConnectWorker: a HELLO that does not parse, on which the source asserts or throws, is excluded by its
  precondition; `Refinement.NothingIsMissed` shows that no reachable state has one.
- Delegators.Delegator.ReceiveResult: a result that names a job its worker does not hold, for which operator[] would insert
  defaults, is excluded by its precondition; `Refinement.NothingIsMissed` shows that no reachable state has one.
- Heartbeats.ServerHeartbeat.DeleteClient: removing an absent client is modelled as doing nothing, because erasing `end()` is
  undefined.
- Membership.NobodyUnwatched: a message from the network has an address of one frame, as the project's own workers send it.
- Refinement.RunRefinesMap: each worker identity is not empty, starts once and says HELLO once (identities are random);
  requesters submit a batch id again only when it is answered (shown of the sampler in `Samplers.Sampler.Step`); job ids are
  unbounded. That every job is answered in the end is not claimed, since links may lose messages.
- Text.StoIRoundTrip: std::stoi is modelled on digits only, without signs, white space or trailing text, because nothing in
  the protocol prints those.
- Workers.Minion.SubmitResult: numbers printed by std::to_string(double) and read by std::stod are strings without colons; the
  digits that this loses are left out, like all rounding of floating-point numbers.
- ProposalShapers.ProposalShaper.Update: a counter at 2^32 - 1, after which the source divides by zero, is excluded by its
  precondition.
- ProposalShapers.ProposalShaper.constructor: bounds without any width, for which the source divides zero by zero, are excluded.
- ChainArrays.ChainArray.Append: a chain that was never initialised, of which the source reads the last state, is excluded.
- RegressionAdapters.RegressionAdapter.Update: the accept-rate window for logging is left out; it changes nothing else.
- ChainArrays.ChainArray.Length: lengths are unbounded numbers, not 32-bit ones.
- Stationarity.RunInvariant: for fixed temperatures, widths and proposal tables on a finite space; adaption changes them
  between steps. Energies are real numbers or plus infinity.
- Samplers.Sampler.Step: which samples are proposed and what the adapters learn is left out; only requests and locks are
  modelled. The flush at the end of a run is left out too.
- The Gaussian proposal, reflection at the bounds, initial samples, convergence statistics and the reader of the CSV files:
  no state shared with the parts above.
