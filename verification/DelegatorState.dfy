/** The scheduler's state and what each of its handlers does to it (comms/delegator.hpp, comms/delegator.cpp).
    The class Delegator implements these functions; Accounting, Placement and Scheduling prove what they are for. */
module DelegatorStates {
  import opened Text
  import opened Messages
  import opened Ordering
  import opened CircularBuffers
  import opened Requesters

  const MAX_JOBS: nat := 10     // jobs in progress per worker
  const HISTORY: nat := 10      // remembered durations per worker and job type
  const UINT_RANGE: nat := 0x1_0000_0000
  const UINT_MAX: nat := 0xffff_ffff

  datatype Job = Job(typ: nat, id: string, requesterID: string, requesterIndex: nat, startTime: int)

  datatype Request = Request(address: Address, jobTypes: set<nat>, data: string, results: seq<string>, nDone: nat)

  datatype Worker = Worker(address: Address, first: nat, second: nat, workInProgress: map<string, Job>,
                           times: map<nat, seq<nat>>, lastResultTime: int)

  datatype State = State(workers: map<string, Worker>, requests: map<string, Request>, jobQueue: seq<Job>,
                         nextJobId: nat, workerCount: int)

  // ------------------------------------------------------------------ HELLO

  /** The job types a HELLO offers, as a half-open range. The source asserts two pieces and lets std::stoi throw. */
  function OfferedRange(offer: string, nJobTypes: nat): Option<(nat, nat)> {
    if offer == "" then Some((0, nJobTypes))
    else
      var pieces := Split(offer, ':');
      if |pieces| == 2 && StoI(pieces[0]).Some? && StoI(pieces[1]).Some?
      then Some((StoI(pieces[0]).value, StoI(pieces[1]).value))
      else None
  }

  function NewWorker(address: Address, first: nat, second: nat, now: int): Worker {
    Worker(address, first, second, map[], Histories(first, second), now)
  }

  /** An initial history for every offered type. */
  function Histories(first: nat, second: nat): (times: map<nat, seq<nat>>)
    ensures forall t :: t in times <==> first <= t < second
    ensures forall t | t in times :: times[t] == Filled(0, HISTORY)
    decreases second
  {
    if first >= second then map[] else Histories(first, second - 1)[second - 1 := Filled(0, HISTORY)]
  }

  function ConnectWorker(s: State, id: string, w: Worker): State
    requires id !in s.workers
  {
    s.(workers := s.workers[id := w], workerCount := s.workerCount + 1)
  }

  // ---------------------------------------------------------------- REQUEST

  ghost function NewJobs(types: seq<nat>, requesterID: string, nextJobId: nat): (jobs: seq<Job>)
    ensures |jobs| == |types|
  {
    seq(|types|, i requires 0 <= i < |types| => Job(types[i], ToString(nextJobId + i), requesterID, i, 0))
  }

  function NewRequest(address: Address, typeStrs: set<string>, data: string): Request
    requires AllParse(typeStrs)
  {
    Request(address, ParsedTypes(typeStrs), data, seq(|typeStrs|, _ => ""), 0)
  }

  ghost function ReceiveRequest(s: State, address: Address, typeStrs: set<string>, data: string): State
    requires address != [] && AllParse(typeStrs)
  {
    var id := Join(address, ':');
    var types := InTypeOrder(ParsedTypes(typeStrs));
    State(s.workers,
          if id in s.requests then s.requests else s.requests[id := NewRequest(address, typeStrs, data)],
          s.jobQueue + NewJobs(types, id, s.nextJobId),
          s.nextJobId + |types|,
          s.workerCount)
  }

  // ----------------------------------------------------------------- RESULT

  /** A result that the source handles without inserting defaults into its maps or throwing. */
  predicate ResultExpected(s: State, worker: string, jobID: string) {
    worker in s.workers ==>
      && jobID in s.workers[worker].workInProgress
      && var j := s.workers[worker].workInProgress[jobID];
         && j.typ in s.workers[worker].times
         && j.requesterID in s.requests
         && j.requesterIndex < |s.requests[j.requesterID].results|
  }

  function Max(a: int, b: int): int { if a < b then b else a }

  /** The time the worker is taken to have spent on the job: since it was sent, or since the worker's previous result. */
  function Duration(w: Worker, jobID: string, now: int): int
    requires jobID in w.workInProgress
  {
    now - Max(w.workInProgress[jobID].startTime, w.lastResultTime)
  }

  function FinishJob(w: Worker, jobID: string, now: int): Worker
    requires jobID in w.workInProgress && w.workInProgress[jobID].typ in w.times
  {
    var j := w.workInProgress[jobID];
    var usecs: nat := Duration(w, jobID, now) % UINT_RANGE;
    w.(times := w.times[j.typ := Push(w.times[j.typ], usecs, HISTORY)],
       lastResultTime := now,
       workInProgress := w.workInProgress - {jobID})
  }

  function Answered(r: Request, index: nat, value: string): Request
    requires index < |r.results|
  {
    r.(results := r.results[index := value], nDone := r.nDone + 1)
  }

  function ReceiveResult(s: State, worker: string, jobID: string, value: string, now: int): (State, seq<Message>)
    requires ResultExpected(s, worker, jobID)
  {
    if worker !in s.workers then (s, [])
    else
      var j := s.workers[worker].workInProgress[jobID];
      var r := Answered(s.requests[j.requesterID], j.requesterIndex, value);
      var workers := s.workers[worker := FinishJob(s.workers[worker], jobID, now)];
      if r.nDone == |r.jobTypes|
      then (s.(workers := workers, requests := s.requests - {j.requesterID}), [Message(r.address, RESULT, r.results)])
      else (s.(workers := workers, requests := s.requests[j.requesterID := r]), [])
  }

  // --------------------------------------------------------------- estimates

  function Total(times: seq<nat>): nat {
    if times == [] then 0 else Total(times[..|times| - 1]) + times[|times| - 1]
  }

  /** The floored mean, with the source's guess where nothing is remembered. */
  function Mean(total: nat, size: nat): nat { if size > 0 then total / size else 5 }

  /** timeForJob: the mean of the remembered durations in unsigned 32-bit arithmetic. */
  function TimeForJob(w: Worker, typ: nat): nat
    requires typ in w.times
  {
    Mean(Total(w.times[typ]) % UINT_RANGE, HISTORY)
  }

  predicate Timed(w: Worker) {
    forall id | id in w.workInProgress :: w.workInProgress[id].typ in w.times
  }

  ghost function TimeForJobs(w: Worker, ids: seq<string>): nat
    requires Timed(w) && forall id | id in ids :: id in w.workInProgress
  {
    if ids == [] then 0 else TimeForJob(w, w.workInProgress[ids[0]].typ) + TimeForJobs(w, ids[1..])
  }

  /** usTillDone: the estimate for everything in progress and one more job. */
  ghost function UsTillDone(w: Worker, typ: nat): nat
    requires Timed(w) && typ in w.times
  {
    (TimeForJobs(w, InKeyOrder(w.workInProgress.Keys)) + TimeForJob(w, typ)) % UINT_RANGE
  }

  // -------------------------------------------------------------- bestWorker

  /** What holds of every worker record: a duration history for each offered type, and at most ten jobs, all offered. */
  ghost predicate WorkerOk(w: Worker) {
    && (forall t :: t in w.times <==> w.first <= t < w.second)
    && (forall id | id in w.workInProgress ::
          w.workInProgress[id].id == id && w.first <= w.workInProgress[id].typ < w.second)
    && |w.workInProgress| <= MAX_JOBS
  }

  ghost predicate WorkersOk(workers: map<string, Worker>) { forall w | w in workers :: WorkerOk(workers[w]) }

  predicate Eligible(w: Worker, typ: nat, maxJobs: nat) {
    w.first <= typ < w.second && |w.workInProgress| < maxJobs
  }

  /** `best` is the worker that bestWorker must pick from `keys`: least estimate, then first key. */
  ghost predicate BestAmong(workers: map<string, Worker>, keys: set<string>, typ: nat, maxJobs: nat, best: Option<string>)
    requires WorkersOk(workers) && keys <= workers.Keys
  {
    match best
    case None => forall k | k in keys && Eligible(workers[k], typ, maxJobs) :: UsTillDone(workers[k], typ) >= UINT_MAX
    case Some(b) =>
      && b in keys && Eligible(workers[b], typ, maxJobs) && UsTillDone(workers[b], typ) < UINT_MAX
      && forall k | k in keys && Eligible(workers[k], typ, maxJobs) :: NotWorse(workers, typ, b, k)
  }

  ghost predicate NotWorse(workers: map<string, Worker>, typ: nat, b: string, k: string)
    requires WorkersOk(workers) && b in workers && k in workers
    requires typ in workers[b].times && typ in workers[k].times
  {
    || UsTillDone(workers[b], typ) < UsTillDone(workers[k], typ)
    || (UsTillDone(workers[b], typ) == UsTillDone(workers[k], typ) && (b == k || StringLess(b, k)))
  }

  lemma BestUnique(workers: map<string, Worker>, keys: set<string>, typ: nat, maxJobs: nat, a: Option<string>, b: Option<string>)
    requires WorkersOk(workers) && keys <= workers.Keys
    requires BestAmong(workers, keys, typ, maxJobs, a) && BestAmong(workers, keys, typ, maxJobs, b)
    ensures a == b
  {
    if a.Some? && b.Some? && a != b {
      assert NotWorse(workers, typ, a.value, b.value) && NotWorse(workers, typ, b.value, a.value);
      StringLessIrreflexive(a.value);
      if StringLess(a.value, b.value) && StringLess(b.value, a.value) {
        StringLessTransitive(a.value, b.value, a.value);
      }
    }
  }

  lemma {:induction false} BestExists(workers: map<string, Worker>, keys: set<string>, typ: nat, maxJobs: nat)
    requires WorkersOk(workers) && keys <= workers.Keys
    ensures exists b :: BestAmong(workers, keys, typ, maxJobs, b)
    decreases |keys|
  {
    if keys == {} {
      assert BestAmong(workers, keys, typ, maxJobs, None);
    } else {
      var x :| x in keys;
      BestExists(workers, keys - {x}, typ, maxJobs);
      var b :| BestAmong(workers, keys - {x}, typ, maxJobs, b);
      BestExtends(workers, keys - {x}, x, typ, maxJobs, b);
      assert keys - {x} + {x} == keys;
    }
  }

  /** Looking at one more worker. */
  ghost function Better(workers: map<string, Worker>, typ: nat, maxJobs: nat, best: Option<string>, x: string): Option<string>
    requires WorkersOk(workers) && x in workers && (best.Some? ==> best.value in workers)
    requires best.Some? ==> Eligible(workers[best.value], typ, maxJobs)
  {
    if !Eligible(workers[x], typ, maxJobs) || UsTillDone(workers[x], typ) >= UINT_MAX then best
    else if best.None? || !NotWorse(workers, typ, best.value, x) then Some(x)
    else best
  }

  lemma BestExtends(workers: map<string, Worker>, keys: set<string>, x: string, typ: nat, maxJobs: nat, best: Option<string>)
    requires WorkersOk(workers) && keys <= workers.Keys && x in workers && x !in keys
    requires BestAmong(workers, keys, typ, maxJobs, best)
    ensures BestAmong(workers, keys + {x}, typ, maxJobs, Better(workers, typ, maxJobs, best, x))
  {
    hide UsTillDone, StringLess;
    if best.Some? && Better(workers, typ, maxJobs, best, x) == Some(x) {
      forall k | k in keys + {x} && Eligible(workers[k], typ, maxJobs)
        ensures NotWorse(workers, typ, x, k)
      {
        if k != x {
          assert NotWorse(workers, typ, best.value, k);
          BetterStill(workers, typ, best.value, x, k);
        }
      }
    }
    hide NotWorse;
  }

  lemma BetterStill(workers: map<string, Worker>, typ: nat, b: string, x: string, k: string)
    requires WorkersOk(workers) && b in workers && x in workers && k in workers
    requires typ in workers[b].times && typ in workers[x].times && typ in workers[k].times
    requires !NotWorse(workers, typ, b, x) && NotWorse(workers, typ, b, k)
    ensures NotWorse(workers, typ, x, k)
  {
    hide UsTillDone, StringLess, WorkersOk;
    StringLessTotal(b, x);
    if StringLess(x, b) && StringLess(b, k) {
      StringLessTransitive(x, b, k);
    }
  }

  ghost function BestWorker(workers: map<string, Worker>, typ: nat, maxJobs: nat): (best: Option<string>)
    requires WorkersOk(workers)
    ensures BestAmong(workers, workers.Keys, typ, maxJobs, best)
  {
    BestExists(workers, workers.Keys, typ, maxJobs);
    var best :| BestAmong(workers, workers.Keys, typ, maxJobs, best);
    best
  }

  // ------------------------------------------------------------------ onPoll

  predicate QueueKnown(s: State) {
    forall j | j in s.jobQueue :: j.requesterID in s.requests
  }

  predicate QueueFresh(s: State) {
    forall j, w | j in s.jobQueue && w in s.workers :: j.id !in s.workers[w].workInProgress
  }

  function JobMessage(w: Worker, j: Job, data: string): Message {
    Message(w.address, JOB, [ToString(j.typ), j.id, data])
  }

  function Started(w: Worker, j: Job, now: int): Worker {
    w.(workInProgress := w.workInProgress[j.id := j.(startTime := now)])
  }

  /** Handing the i-th queued job to a worker. */
  function Dispatch(s: State, i: nat, worker: string, now: int): State
    requires i < |s.jobQueue| && worker in s.workers
  {
    s.(workers := s.workers[worker := Started(s.workers[worker], s.jobQueue[i], now)],
       jobQueue := s.jobQueue[..i] + s.jobQueue[i + 1..])
  }

  ghost predicate PollReady(s: State) { WorkersOk(s.workers) && QueueKnown(s) && QueueFresh(s) && DistinctIds(s.jobQueue) }

  predicate DistinctIds(q: seq<Job>) { forall i, j | 0 <= i < j < |q| :: q[i].id != q[j].id }

  lemma DispatchReady(s: State, i: nat, worker: string, now: int)
    requires PollReady(s) && i < |s.jobQueue| && worker in s.workers
    requires Eligible(s.workers[worker], s.jobQueue[i].typ, MAX_JOBS)
    ensures PollReady(Dispatch(s, i, worker, now))
  {
    var w, j := s.workers[worker], s.jobQueue[i];
    assert j in s.jobQueue;
    StartedOk(w, j, now);
    DistinctAfter(s.jobQueue, i);
    hide WorkerOk, Eligible, DistinctIds;
    forall k | k in Dispatch(s, i, worker, now).jobQueue
      ensures k in s.jobQueue && k.id != j.id
    {
      StillQueued(s.jobQueue, i, k);
    }
    DispatchFresh(s, i, worker, now);
  }

  lemma GrownSize<K, V>(m: map<K, V>, k: K, v: V)
    ensures |m[k := v]| <= |m| + 1
  {
    assert m[k := v].Keys == m.Keys + {k};
  }

  lemma StartedOk(w: Worker, j: Job, now: int)
    requires WorkerOk(w) && Eligible(w, j.typ, MAX_JOBS)
    ensures WorkerOk(Started(w, j, now))
  {
    GrownSize(w.workInProgress, j.id, j.(startTime := now));
  }

  lemma DispatchFresh(s: State, i: nat, worker: string, now: int)
    requires QueueFresh(s) && i < |s.jobQueue| && worker in s.workers
    requires forall k | k in Dispatch(s, i, worker, now).jobQueue :: k in s.jobQueue && k.id != s.jobQueue[i].id
    ensures QueueFresh(Dispatch(s, i, worker, now))
  {
  }

  lemma StillQueued(queue: seq<Job>, i: nat, k: Job)
    requires i < |queue| && DistinctIds(queue) && k in queue[..i] + queue[i + 1..]
    ensures k in queue && k.id != queue[i].id
  {
  }

  lemma DistinctAfter(queue: seq<Job>, i: nat)
    requires i < |queue| && DistinctIds(queue)
    ensures DistinctIds(queue[..i] + queue[i + 1..])
  {
  }

  /** onPoll from position i of the queue on: the messages sent and the state left. */
  ghost function PollFrom(s: State, i: nat, now: int): (r: (State, seq<Message>))
    requires PollReady(s)
    ensures PollReady(r.0)
    decreases |s.jobQueue| - i
  {
    if i >= |s.jobQueue| then (s, []) else
      var j := s.jobQueue[i];
      match BestWorker(s.workers, j.typ, MAX_JOBS)
      case None => PollFrom(s, i + 1, now)
      case Some(w) =>
        assert j in s.jobQueue;
        DispatchReady(s, i, w, now);
        var (s', sent) := PollFrom(Dispatch(s, i, w, now), i, now);
        (s', [JobMessage(s.workers[w], j, s.requests[j.requesterID].data)] + sent)
  }

  ghost function OnPoll(s: State, now: int): (State, seq<Message>)
    requires PollReady(s)
  {
    PollFrom(s, 0, now)
  }

  // ----------------------------------------------------------------- GOODBYE

  function JobsNamed(w: Worker, ids: seq<string>): (jobs: seq<Job>)
    requires forall id | id in ids :: id in w.workInProgress
    ensures |jobs| == |ids|
  {
    seq(|ids|, i requires 0 <= i < |ids| => w.workInProgress[ids[i]])
  }

  /** A lost worker's jobs, each pushed to the front of the queue in key order. */
  ghost function Requeued(w: Worker): seq<Job> {
    Reverse(JobsNamed(w, InKeyOrder(w.workInProgress.Keys)))
  }

  ghost function DisconnectWorker(s: State, worker: string): State {
    if worker !in s.workers then s
    else s.(jobQueue := Requeued(s.workers[worker]) + s.jobQueue,
            workers := s.workers - {worker},
            workerCount := s.workerCount - 1)
  }
}
