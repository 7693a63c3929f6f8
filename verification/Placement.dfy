/** Where the outstanding jobs are: each in the queue or with exactly one worker, and what every handler of the delegator
    does to that. Together with Accounting this is the delegator's invariant. */
module Placement {
  import opened Text
  import opened Messages
  import opened Ordering
  import opened Requesters
  import opened CircularBuffers
  import opened DelegatorStates
  import opened Accounting

  ghost predicate OneHolder(workers: map<string, Worker>) {
    forall w, v, id | w in workers && v in workers
                      && id in workers[w].workInProgress && id in workers[v].workInProgress :: w == v
  }

  ghost predicate Placed(s: State) {
    WorkersOk(s.workers) && DistinctIds(s.jobQueue) && QueueFresh(s) && OneHolder(s.workers)
  }

  function WorkerJobs(w: Worker): set<Job> { set id | id in w.workInProgress :: Core(w.workInProgress[id]) }

  function HeldJobs(workers: map<string, Worker>): set<Job> {
    set w, id | w in workers && id in workers[w].workInProgress :: Core(workers[w].workInProgress[id])
  }

  function Outstanding(s: State): set<Job> { Cores(s.jobQueue) + HeldJobs(s.workers) }

  /** The invariant of the delegator: every outstanding job is in exactly one place, and the books are right. */
  ghost predicate DelegatorInv(s: State, f: Likelihood) {
    Placed(s) && Accounted(s.requests, Outstanding(s), s.nextJobId, f)
  }

  // ---------------------------------------------------------- set arithmetic

  lemma HeldHas(workers: map<string, Worker>, w: string, id: string)
    requires w in workers && id in workers[w].workInProgress
    ensures Core(workers[w].workInProgress[id]) in HeldJobs(workers)
  {
  }

  lemma HeldSplit(workers: map<string, Worker>, w: string)
    requires w in workers
    ensures HeldJobs(workers) == HeldJobs(workers - {w}) + WorkerJobs(workers[w])
  {
    forall j | j in HeldJobs(workers)
      ensures j in HeldJobs(workers - {w}) + WorkerJobs(workers[w])
    {
      var v, id :| v in workers && id in workers[v].workInProgress && Core(workers[v].workInProgress[id]) == j;
      if v != w {
        HeldHas(workers - {w}, v, id);
      }
    }
    forall j | j in HeldJobs(workers - {w})
      ensures j in HeldJobs(workers)
    {
      var v, id :| v in workers - {w} && id in workers[v].workInProgress && Core(workers[v].workInProgress[id]) == j;
      HeldHas(workers, v, id);
    }
    forall j | j in WorkerJobs(workers[w])
      ensures j in HeldJobs(workers)
    {
      var id :| id in workers[w].workInProgress && Core(workers[w].workInProgress[id]) == j;
      HeldHas(workers, w, id);
    }
  }

  lemma HeldUpdate(workers: map<string, Worker>, w: string, rec: Worker)
    ensures HeldJobs(workers[w := rec]) == HeldJobs(workers - {w}) + WorkerJobs(rec)
  {
    var workers' := workers[w := rec];
    HeldSplit(workers', w);
    assert workers' - {w} == workers - {w};
  }

  lemma CoresAppend(a: seq<Job>, b: seq<Job>)
    ensures Cores(a + b) == Cores(a) + Cores(b)
  {
  }

  /** A job somebody holds is not among the jobs that anybody else holds, nor in the queue. */
  lemma HeldOnce(s: State, w: string, id: string)
    requires Placed(s) && w in s.workers && id in s.workers[w].workInProgress
    ensures Core(s.workers[w].workInProgress[id]) !in HeldJobs(s.workers - {w})
    ensures Core(s.workers[w].workInProgress[id]) !in Cores(s.jobQueue)
  {
  }

  // ------------------------------------------------------------------- HELLO

  lemma ConnectKeeps(s: State, id: string, address: Address, first: nat, second: nat, now: int, f: Likelihood)
    requires DelegatorInv(s, f) && id !in s.workers
    ensures DelegatorInv(ConnectWorker(s, id, NewWorker(address, first, second, now)), f)
    ensures Outstanding(ConnectWorker(s, id, NewWorker(address, first, second, now))) == Outstanding(s)
  {
    var w := NewWorker(address, first, second, now);
    assert WorkerOk(w) by {
      assert w.workInProgress == map[];
    }
    hide Accounted, Placed, HeldJobs, Outstanding, NewWorker, WorkerOk, ConnectWorker;
    ConnectOutstanding(s, id, w);
    ConnectPlaced(s, id, w);
    ConnectRequests(s, id, w);
  }

  lemma ConnectOutstanding(s: State, id: string, w: Worker)
    requires id !in s.workers && w.workInProgress == map[]
    ensures Outstanding(ConnectWorker(s, id, w)) == Outstanding(s)
  {
    hide HeldJobs, Cores;
    assert WorkerJobs(w) == {};
    HeldUpdate(s.workers, id, w);
    assert s.workers - {id} == s.workers;
  }

  lemma ConnectRequests(s: State, id: string, w: Worker)
    requires id !in s.workers
    ensures ConnectWorker(s, id, w).requests == s.requests && ConnectWorker(s, id, w).nextJobId == s.nextJobId
  {
  }

  lemma ConnectPlaced(s: State, id: string, w: Worker)
    requires Placed(s) && id !in s.workers && WorkerOk(w) && w.workInProgress == map[]
    ensures Placed(ConnectWorker(s, id, w))
  {
  }

  // ----------------------------------------------------------------- REQUEST

  lemma RequestKeeps(s: State, address: Address, typeStrs: set<string>, data: string, f: Likelihood)
    requires DelegatorInv(s, f)
    requires address != [] && AllParse(typeStrs) && |typeStrs| == |ParsedTypes(typeStrs)|
    requires Join(address, ':') !in s.requests
    ensures DelegatorInv(ReceiveRequest(s, address, typeStrs, data), f)
  {
    var id := Join(address, ':');
    var types := InTypeOrder(ParsedTypes(typeStrs));
    var new_ := NewJobs(types, id, s.nextJobId);
    var s' := ReceiveRequest(s, address, typeStrs, data);
    assert JobsOk(Outstanding(s), s.requests, s.nextJobId);
    hide Accounted, JobsOk, Placed;
    RequestKeepsAccounted(s.requests, Outstanding(s), s.nextJobId, f, address, typeStrs, data);
    CoresAppend(s.jobQueue, new_);
    assert Outstanding(s') == Outstanding(s) + Cores(new_);
    NewJobsPlaced(s, types, id);
    SamePlaces(s.(jobQueue := s.jobQueue + new_), s');
  }

  /** One job for each type, ascending, with index and id counted on. */
  ghost predicate QueuedInOrder(added: seq<Job>, types: set<nat>, id: string, nextJobId: nat) {
    && |added| == |types|
    && (forall i | 0 <= i < |added| ::
          added[i].typ in types && added[i].id == ToString(nextJobId + i)
          && added[i].requesterID == id && added[i].requesterIndex == i)
    && (forall i, k | 0 <= i < k < |added| :: added[i].typ < added[k].typ)
  }

  lemma NewJobsInOrder(types: set<nat>, id: string, nextJobId: nat)
    ensures QueuedInOrder(NewJobs(InTypeOrder(types), id, nextJobId), types, id, nextJobId)
  {
    hide ToString, InTypeOrder;
    TypeOrderAscends(types);
    var order := InTypeOrder(types);
    forall i | 0 <= i < |order|
      ensures order[i] in types
    {
      assert order[i] in order;
    }
  }

  /** A request queues its jobs behind all the others. */
  lemma RequestQueues(s: State, address: Address, typeStrs: set<string>, data: string)
    requires address != [] && AllParse(typeStrs)
    ensures var (s', types) := (ReceiveRequest(s, address, typeStrs, data), ParsedTypes(typeStrs));
            && |s.jobQueue| <= |s'.jobQueue| && s'.jobQueue[..|s.jobQueue|] == s.jobQueue
            && s'.nextJobId == s.nextJobId + |types| && s'.workers == s.workers
            && QueuedInOrder(s'.jobQueue[|s.jobQueue|..], types, Join(address, ':'), s.nextJobId)
  {
    var types := ParsedTypes(typeStrs);
    var added := NewJobs(InTypeOrder(types), Join(address, ':'), s.nextJobId);
    hide QueuedInOrder, NewJobs, ParsedTypes, AllParse, Join, InTypeOrder, NewRequest;
    NewJobsInOrder(types, Join(address, ':'), s.nextJobId);
    assert (s.jobQueue + added)[|s.jobQueue|..] == added;
  }

  lemma SamePlaces(s: State, s': State)
    requires Placed(s) && s'.workers == s.workers && s'.jobQueue == s.jobQueue
    ensures Placed(s') && Outstanding(s') == Outstanding(s)
  {
  }

  lemma NewJobsPlaced(s: State, types: seq<nat>, id: string)
    requires Placed(s) && JobsOk(Outstanding(s), s.requests, s.nextJobId)
    ensures Placed(s.(jobQueue := s.jobQueue + NewJobs(types, id, s.nextJobId)))
  {
    var new_ := NewJobs(types, id, s.nextJobId);
    NewJobsFacts(types, id, s.nextJobId);
    forall j | j in s.jobQueue
      ensures Number(j.id) < s.nextJobId
    {
      assert Core(j) in Outstanding(s);
    }
    forall w, k | w in s.workers && k in s.workers[w].workInProgress
      ensures Number(k) < s.nextJobId
    {
      HeldHas(s.workers, w, k);
      assert Core(s.workers[w].workInProgress[k]) in Outstanding(s);
      assert WorkerOk(s.workers[w]);
    }
    var q := s.jobQueue + new_;
    forall i, k | 0 <= i < k < |q|
      ensures q[i].id != q[k].id
    {
      assert i < |s.jobQueue| ==> q[i] in s.jobQueue;
      assert k >= |s.jobQueue| ==> q[k] == new_[k - |s.jobQueue|];
      assert i >= |s.jobQueue| ==> q[i] == new_[i - |s.jobQueue|];
    }
  }

  // ------------------------------------------------------------------ RESULT

  lemma FinishPlaced(s: State, worker: string, jobID: string, now: int)
    requires Placed(s) && worker in s.workers && jobID in s.workers[worker].workInProgress
    requires s.workers[worker].workInProgress[jobID].typ in s.workers[worker].times
    ensures var s' := s.(workers := s.workers[worker := FinishJob(s.workers[worker], jobID, now)]);
            Placed(s') && Outstanding(s') == Outstanding(s) - {Core(s.workers[worker].workInProgress[jobID])}
  {
    var (w, w') := (s.workers[worker], FinishJob(s.workers[worker], jobID, now));
    FinishOk(w, jobID, now);
    hide FinishJob, WorkerOk;
    FewerPlaced(s, worker, w');
    FewerOutstanding(s, worker, w', jobID);
  }

  lemma FinishOk(w: Worker, jobID: string, now: int)
    requires WorkerOk(w) && jobID in w.workInProgress && w.workInProgress[jobID].typ in w.times
    ensures WorkerOk(FinishJob(w, jobID, now)) && FinishJob(w, jobID, now).workInProgress == w.workInProgress - {jobID}
  {
    hide Duration;
    assert (w.workInProgress - {jobID}).Keys == w.workInProgress.Keys - {jobID};
  }

  lemma FewerPlaced(s: State, worker: string, w': Worker)
    requires Placed(s) && worker in s.workers && WorkerOk(w')
    requires w'.workInProgress.Keys <= s.workers[worker].workInProgress.Keys
    ensures Placed(s.(workers := s.workers[worker := w']))
  {
    hide WorkerOk;
  }

  lemma FewerOutstanding(s: State, worker: string, w': Worker, jobID: string)
    requires Placed(s) && worker in s.workers && jobID in s.workers[worker].workInProgress
    requires w'.workInProgress == s.workers[worker].workInProgress - {jobID}
    ensures Outstanding(s.(workers := s.workers[worker := w'])) == Outstanding(s) - {Core(s.workers[worker].workInProgress[jobID])}
  {
    HeldSplit(s.workers, worker);
    HeldUpdate(s.workers, worker, w');
    HeldOnce(s, worker, jobID);
    WorkerJobsWithout(s.workers[worker], w', jobID);
    hide Placed, HeldJobs, WorkerJobs, Cores, Core;
  }

  lemma WorkerJobsWithout(w: Worker, w': Worker, jobID: string)
    requires WorkerOk(w) && jobID in w.workInProgress && w'.workInProgress == w.workInProgress - {jobID}
    ensures WorkerJobs(w') == WorkerJobs(w) - {Core(w.workInProgress[jobID])}
  {
    forall j | j in WorkerJobs(w) && j != Core(w.workInProgress[jobID])
      ensures j in WorkerJobs(w')
    {
      var id :| id in w.workInProgress && Core(w.workInProgress[id]) == j;
      assert id in w'.workInProgress;
    }
    forall j | j in WorkerJobs(w')
      ensures j in WorkerJobs(w) && j != Core(w.workInProgress[jobID])
    {
      var id :| id in w'.workInProgress && Core(w'.workInProgress[id]) == j;
      assert id in w.workInProgress;
    }
  }

  /** The answer that a pending request must get. */
  ghost predicate IsAnswer(s: State, m: Message, f: Likelihood) {
    && m.address != []
    && Join(m.address, ':') in s.requests
    && var r := s.requests[Join(m.address, ':')];
       m == Message(r.address, RESULT, Expected(r.jobTypes, r.data, f))
  }

  /** A worker's result for a job it holds, with the right value. */
  ghost predicate RightResult(s: State, worker: string, jobID: string, value: string, f: Likelihood) {
    && worker in s.workers
    && jobID in s.workers[worker].workInProgress
    && var j := s.workers[worker].workInProgress[jobID];
       j.requesterID in s.requests && value == f(j.typ, s.requests[j.requesterID].data)
  }

  /** What sending a batch of answers does to the set of pending requests. */
  ghost predicate Answers(s: State, s': State, sent: seq<Message>, f: Likelihood) {
    if sent == [] then s'.requests.Keys == s.requests.Keys
    else
      && |sent| == 1 && IsAnswer(s, sent[0], f)
      && s'.requests.Keys == s.requests.Keys - {Join(sent[0].address, ':')}
  }

  lemma ResultUnderstood(s: State, worker: string, jobID: string, value: string, f: Likelihood)
    requires DelegatorInv(s, f) && RightResult(s, worker, jobID, value, f)
    ensures ResultExpected(s, worker, jobID)
    ensures var j := s.workers[worker].workInProgress[jobID];
            && Core(j) in Outstanding(s)
            && JobOk(Core(j), s.requests, s.nextJobId)
            && RequestOk(j.requesterID, s.requests[j.requesterID], Outstanding(s), f)
            && j.requesterIndex < |s.requests[j.requesterID].results|
  {
    assert WorkerOk(s.workers[worker]);
    var j := s.workers[worker].workInProgress[jobID];
    HeldHas(s.workers, worker, jobID);
    assert JobOk(Core(j), s.requests, s.nextJobId);
    assert RequestOk(j.requesterID, s.requests[j.requesterID], Outstanding(s), f);
  }

  /** The right result of a job that its worker holds keeps the invariant: the source's look-ups find what they name, and
      a request that this completes is sent exactly its expected answer, once, and is no longer pending. */
  lemma ResultKeeps(s: State, worker: string, jobID: string, value: string, now: int, f: Likelihood)
    requires DelegatorInv(s, f) && RightResult(s, worker, jobID, value, f)
    ensures ResultExpected(s, worker, jobID)
    ensures var (s', sent) := ReceiveResult(s, worker, jobID, value, now);
            DelegatorInv(s', f) && Answers(s, s', sent, f)
  {
    ResultUnderstood(s, worker, jobID, value, f);
    hide Accounted, Placed, JobOk, RequestOk, Outstanding;
    var j := s.workers[worker].workInProgress[jobID];
    var r := Answered(s.requests[j.requesterID], j.requesterIndex, value);
    FinishPlaced(s, worker, jobID, now);
    AnswerKeepsAccounted(s.requests, Outstanding(s), s.nextJobId, f, Core(j), r);
    var (s', sent) := ReceiveResult(s, worker, jobID, value, now);
    var t := s.(workers := s.workers[worker := FinishJob(s.workers[worker], jobID, now)]);
    SamePlaces(t, s');
    RequestKey(j.requesterID, s.requests[j.requesterID], Outstanding(s), f);
  }

  lemma RequestKey(id: string, r: Request, jobs: set<Job>, f: Likelihood)
    requires RequestOk(id, r, jobs, f)
    ensures r.address != [] && Join(r.address, ':') == id
  {
  }

  // ------------------------------------------------------------------ onPoll

  lemma PlacedPollReady(s: State, f: Likelihood)
    requires DelegatorInv(s, f)
    ensures PollReady(s)
  {
  }

  lemma DispatchKeeps(s: State, i: nat, worker: string, now: int)
    requires Placed(s) && i < |s.jobQueue| && worker in s.workers
    requires Eligible(s.workers[worker], s.jobQueue[i].typ, MAX_JOBS)
    ensures Placed(Dispatch(s, i, worker, now))
    ensures Outstanding(Dispatch(s, i, worker, now)) == Outstanding(s)
  {
    var w, j := s.workers[worker], s.jobQueue[i];
    assert j in s.jobQueue && WorkerOk(w);
    StartedOk(w, j, now);
    hide WorkerOk, Eligible;
    DispatchPlaced(s, i, worker, now);
    DispatchOutstanding(s, i, worker, now);
  }

  lemma DispatchOutstanding(s: State, i: nat, worker: string, now: int)
    requires i < |s.jobQueue| && worker in s.workers && DistinctIds(s.jobQueue)
    requires s.jobQueue[i].id !in s.workers[worker].workInProgress
    ensures Outstanding(Dispatch(s, i, worker, now)) == Outstanding(s)
  {
    var w, j := s.workers[worker], s.jobQueue[i];
    QueueWithout(s.jobQueue, i);
    HeldSplit(s.workers, worker);
    HeldUpdate(s.workers, worker, Started(w, j, now));
    WorkerJobsWith(w, j, now);
    hide HeldJobs, WorkerJobs, Cores, Core, Started, DistinctIds;
  }

  lemma QueueWithout(q: seq<Job>, i: nat)
    requires i < |q| && DistinctIds(q)
    ensures var q' := q[..i] + q[i + 1..];
            && DistinctIds(q') && Cores(q') + {Core(q[i])} == Cores(q)
            && (forall k | k in q' :: k in q && k.id != q[i].id)
  {
  }

  lemma DispatchPlaced(s: State, i: nat, worker: string, now: int)
    requires Placed(s) && i < |s.jobQueue| && worker in s.workers
    requires WorkerOk(Started(s.workers[worker], s.jobQueue[i], now))
    requires s.jobQueue[i] in s.jobQueue
    ensures Placed(Dispatch(s, i, worker, now))
  {
    QueueWithout(s.jobQueue, i);
    hide WorkerOk, Cores, Core, DistinctIds;
    DispatchFresh(s, i, worker, now);
    OneHolderStarted(s.workers, worker, s.jobQueue[i], now);
  }

  lemma OneHolderStarted(workers: map<string, Worker>, worker: string, j: Job, now: int)
    requires OneHolder(workers) && worker in workers && forall v | v in workers :: j.id !in workers[v].workInProgress
    ensures OneHolder(workers[worker := Started(workers[worker], j, now)])
  {
  }

  lemma WorkerJobsWith(w: Worker, j: Job, now: int)
    requires j.id !in w.workInProgress
    ensures WorkerJobs(Started(w, j, now)) == WorkerJobs(w) + {Core(j)}
  {
    var w' := Started(w, j, now);
    forall k | k in WorkerJobs(w) + {Core(j)}
      ensures k in WorkerJobs(w')
    {
      if k == Core(j) {
        assert j.id in w'.workInProgress && Core(w'.workInProgress[j.id]) == k;
      } else {
        var id :| id in w.workInProgress && Core(w.workInProgress[id]) == k;
        assert id in w'.workInProgress && w'.workInProgress[id] == w.workInProgress[id];
      }
    }
  }

  /** A poll moves jobs from the queue to workers and neither loses nor copies one. */
  lemma {:induction false} PollKeeps(s: State, i: nat, now: int, f: Likelihood)
    requires DelegatorInv(s, f) && PollReady(s)
    ensures DelegatorInv(PollFrom(s, i, now).0, f)
    ensures Outstanding(PollFrom(s, i, now).0) == Outstanding(s)
    ensures PollFrom(s, i, now).0.requests == s.requests
    decreases |s.jobQueue| - i
  {
    hide Accounted, Placed, Outstanding;
    if i < |s.jobQueue| {
      match BestWorker(s.workers, s.jobQueue[i].typ, MAX_JOBS) {
        case None => PollKeeps(s, i + 1, now, f);
        case Some(w) =>
          DispatchKeeps(s, i, w, now);
          PlacedPollReady(Dispatch(s, i, w, now), f);
          PollKeeps(Dispatch(s, i, w, now), i, now, f);
      }
    }
  }

  // ----------------------------------------------------------------- GOODBYE

  lemma RequeuedAt(w: Worker)
    ensures var ids := InKeyOrder(w.workInProgress.Keys);
            && |Requeued(w)| == |ids|
            && (forall i | 0 <= i < |ids| :: ids[i] in w.workInProgress)
            && (forall i | 0 <= i < |ids| :: Requeued(w)[i] == w.workInProgress[ids[|ids| - 1 - i]])
  {
    var ids := InKeyOrder(w.workInProgress.Keys);
    forall i | 0 <= i < |ids|
      ensures ids[i] in w.workInProgress
    {
      assert ids[i] in ids;
    }
    var jobs := JobsNamed(w, ids);
    hide InKeyOrder, JobsNamed;
    forall i | 0 <= i < |ids|
      ensures Requeued(w)[i] == jobs[|ids| - 1 - i]
    {
      ReverseAt(jobs, i);
    }
  }

  lemma RequeuedIds(w: Worker)
    requires WorkerOk(w)
    ensures var (q, ids) := (Requeued(w), InKeyOrder(w.workInProgress.Keys));
            && |q| == |ids|
            && (forall i | 0 <= i < |q| :: q[i].id == ids[|ids| - 1 - i])
            && (forall i | 0 <= i < |q| :: q[i].id in w.workInProgress && w.workInProgress[q[i].id] == q[i])
  {
    RequeuedAt(w);
    hide Requeued, InKeyOrder;
  }

  lemma RequeuedFacts(w: Worker)
    requires WorkerOk(w)
    ensures Cores(Requeued(w)) == WorkerJobs(w)
    ensures DistinctIds(Requeued(w))
    ensures forall j | j in Requeued(w) :: j.id in w.workInProgress
  {
    var ids := InKeyOrder(w.workInProgress.Keys);
    var q := Requeued(w);
    RequeuedIds(w);
    KeyOrderDistinct(w.workInProgress.Keys);
    hide Requeued, InKeyOrder;
    forall j | j in WorkerJobs(w)
      ensures j in Cores(q)
    {
      var id :| id in w.workInProgress && Core(w.workInProgress[id]) == j;
      assert id in ids;
      var n :| 0 <= n < |ids| && ids[n] == id;
      assert q[|ids| - 1 - n] in q;
    }
  }

  /** A lost worker's jobs come before all the others, the greatest id first. */
  lemma DisconnectQueues(s: State, worker: string)
    requires worker in s.workers && WorkerOk(s.workers[worker])
    ensures var (s', jobs) := (DisconnectWorker(s, worker), s.workers[worker].workInProgress);
            && s'.workers == s.workers - {worker} && s'.requests == s.requests && s'.nextJobId == s.nextJobId
            && |jobs| <= |s'.jobQueue| && s'.jobQueue[|jobs|..] == s.jobQueue
            && RequeuedInOrder(s'.jobQueue[..|jobs|], jobs)
  {
    var q := Requeued(s.workers[worker]);
    RequeuedIsInOrder(s.workers[worker]);
    assert DisconnectWorker(s, worker).jobQueue == q + s.jobQueue;
    hide Requeued, DisconnectWorker, RequeuedInOrder;
    assert (q + s.jobQueue)[..|q|] == q && (q + s.jobQueue)[|q|..] == s.jobQueue;
  }

  /** All the jobs in progress, in descending order of their ids. */
  ghost predicate RequeuedInOrder(q: seq<Job>, jobs: map<string, Job>) {
    && |q| == |jobs|
    && (forall i | 0 <= i < |q| :: q[i].id in jobs && jobs[q[i].id] == q[i])
    && (forall i, k | 0 <= i < k < |q| :: StringLess(q[k].id, q[i].id))
  }

  lemma RequeuedIsInOrder(w: Worker)
    requires WorkerOk(w)
    ensures RequeuedInOrder(Requeued(w), w.workInProgress) && |Requeued(w)| == |w.workInProgress|
  {
    hide Requeued, StringLess, InKeyOrder, Ascending, WorkerOk;
    RequeuedIds(w);
    KeyOrderAscends(w.workInProgress.Keys);
    Descends(Requeued(w), InKeyOrder(w.workInProgress.Keys));
  }

  lemma Descends(q: seq<Job>, ids: seq<string>)
    requires Ascending(ids, StringLess) && |q| == |ids|
    requires forall i | 0 <= i < |q| :: q[i].id == ids[|ids| - 1 - i]
    ensures forall i, k | 0 <= i < k < |q| :: StringLess(q[k].id, q[i].id)
  {
    hide StringLess;
  }

  /** Losing a worker puts its jobs back into the queue and neither loses nor copies one. */
  lemma DisconnectKeeps(s: State, worker: string, f: Likelihood)
    requires DelegatorInv(s, f)
    ensures DelegatorInv(DisconnectWorker(s, worker), f)
    ensures Outstanding(DisconnectWorker(s, worker)) == Outstanding(s)
  {
    if worker in s.workers {
      assert WorkerOk(s.workers[worker]);
      hide Accounted, Placed, Outstanding, WorkerOk, Requeued;
      DisconnectOutstanding(s, worker);
      RequeuedFacts(s.workers[worker]);
      DisconnectPlaced(s, worker);
    }
  }

  lemma DisconnectOutstanding(s: State, worker: string)
    requires worker in s.workers && WorkerOk(s.workers[worker])
    ensures Outstanding(DisconnectWorker(s, worker)) == Outstanding(s)
  {
    hide HeldJobs, Cores, WorkerJobs, Requeued, WorkerOk;
    var w := s.workers[worker];
    RequeuedFacts(w);
    HeldSplit(s.workers, worker);
    CoresAppend(Requeued(w), s.jobQueue);
  }

  lemma DisconnectPlaced(s: State, worker: string)
    requires Placed(s) && worker in s.workers
    requires DistinctIds(Requeued(s.workers[worker]))
    requires forall j | j in Requeued(s.workers[worker]) :: j.id in s.workers[worker].workInProgress
    ensures Placed(DisconnectWorker(s, worker))
  {
    var front := Requeued(s.workers[worker]);
    var q := front + s.jobQueue;
    forall i, k | 0 <= i < k < |q|
      ensures q[i].id != q[k].id
    {
      assert i < |front| ==> q[i] in front;
      assert k >= |front| ==> q[k] in s.jobQueue;
    }
    forall j, v | j in q && v in s.workers - {worker}
      ensures j.id !in s.workers[v].workInProgress
    {
      if j in front {
        assert j.id in s.workers[worker].workInProgress;
      } else {
        assert j in s.jobQueue;
      }
    }
  }
}
