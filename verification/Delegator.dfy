/** The delegator as the source runs it: handlers that update its maps and its queue in place (comms/delegator.cpp).
    Each handler is proved to do what DelegatorStates says. The sockets are fields that collect what is sent. */
module Delegators {
  import opened Text
  import opened Messages
  import opened Ordering
  import opened CircularBuffers
  import opened Requesters
  import opened DelegatorStates

  lemma KeyOrderStep(rest: set<string>)
    requires rest != {}
    ensures InKeyOrder(rest)[0] in rest
    ensures InKeyOrder(rest) == [InKeyOrder(rest)[0]] + InKeyOrder(rest - {InKeyOrder(rest)[0]})
    ensures forall y | y in rest :: y == InKeyOrder(rest)[0] || StringLess(InKeyOrder(rest)[0], y)
  {
  }

  lemma TypeOrderStep(rest: set<nat>)
    requires rest != {}
    ensures InTypeOrder(rest)[0] in rest
    ensures InTypeOrder(rest) == [InTypeOrder(rest)[0]] + InTypeOrder(rest - {InTypeOrder(rest)[0]})
  {
  }

  lemma NextInOrder<T>(order: seq<T>, n: nat, x: T, rest: seq<T>)
    requires n <= |order| && order[n..] == [x] + rest
    ensures n < |order| && order[n] == x && order[n + 1..] == rest
  {
  }

  lemma NewJobsPrefix(types: seq<nat>, id: string, nextJobId: nat, n: nat)
    requires n <= |types|
    ensures n == 0 ==> NewJobs(types[..n], id, nextJobId) == []
    ensures n > 0 ==> NewJobs(types[..n], id, nextJobId)
                      == NewJobs(types[..n - 1], id, nextJobId) + [Job(types[n - 1], ToString(nextJobId + n - 1), id, n - 1, 0)]
  {
    hide ToString;
    if n > 0 {
      var (longer, shorter) := (NewJobs(types[..n], id, nextJobId), NewJobs(types[..n - 1], id, nextJobId));
      forall i | 0 <= i < n - 1
        ensures longer[i] == shorter[i]
      {
      }
      assert longer[n - 1] == Job(types[n - 1], ToString(nextJobId + n - 1), id, n - 1, 0);
    }
  }

  lemma JobsNamedPrefix(w: Worker, ids: seq<string>, n: nat)
    requires n <= |ids| && forall id | id in ids :: id in w.workInProgress
    ensures n == 0 ==> JobsNamed(w, ids[..n]) == []
    ensures n > 0 ==> JobsNamed(w, ids[..n]) == JobsNamed(w, ids[..n - 1]) + [w.workInProgress[ids[n - 1]]]
  {
  }

  lemma PushedNext(w: Worker, ids: seq<string>, n: nat)
    requires n < |ids| && forall id | id in ids :: id in w.workInProgress
    ensures Reverse(JobsNamed(w, ids[..n + 1])) == [w.workInProgress[ids[n]]] + Reverse(JobsNamed(w, ids[..n]))
  {
    JobsNamedPrefix(w, ids, n + 1);
    ReverseAppend(JobsNamed(w, ids[..n]), w.workInProgress[ids[n]]);
  }

  lemma ReverseNothing()
    ensures Reverse<Job>([]) == []
  {
  }

  lemma AppendAssociates<T>(a: seq<T>, b: seq<T>, c: seq<T>)
    ensures (a + b) + c == a + (b + c)
  {
  }

  lemma FirstTime(w: Worker, id: string, ids: seq<string>)
    requires Timed(w) && id in w.workInProgress && forall k | k in ids :: k in w.workInProgress
    ensures TimeForJobs(w, [id] + ids)
            == DelegatorStates.TimeForJob(w, w.workInProgress[id].typ) + TimeForJobs(w, ids)
  {
    assert ([id] + ids)[1..] == ids;
  }

  lemma NoTime(w: Worker)
    requires Timed(w)
    ensures TimeForJobs(w, InKeyOrder({})) == 0
  {
    assert InKeyOrder({}) == [];
  }

  lemma TotalNext(times: seq<nat>, i: nat)
    requires i < |times|
    ensures Total(times[..i + 1]) == Total(times[..i]) + times[i]
  {
    assert times[..i + 1][..i] == times[..i];
  }

  lemma WrapThenAdd(total: nat, x: nat)
    ensures (total % UINT_RANGE + x) % UINT_RANGE == (total + x) % UINT_RANGE
  {
  }

  lemma AddWrapped(t: nat, x: nat, rest: nat)
    ensures ((t + x) % UINT_RANGE + rest) % UINT_RANGE == (t + (x + rest)) % UINT_RANGE
  {
  }

  lemma SameRemainder(a: nat, b: nat, x: nat)
    requires a % UINT_RANGE == b % UINT_RANGE
    ensures (a + x) % UINT_RANGE == (b + x) % UINT_RANGE
  {
  }

  /** Visiting keys in ascending order, only a strictly smaller estimate displaces the best so far. */
  lemma KeepFirst(workers: map<string, Worker>, typ: nat, maxJobs: nat, best: Option<string>, bestTime: nat, k: string)
    requires WorkersOk(workers) && k in workers
    requires best.None? ==> bestTime == UINT_MAX
    requires best.Some? ==> best.value in workers && Eligible(workers[best.value], typ, maxJobs)
    requires best.Some? ==> StringLess(best.value, k)
    requires best.Some? ==> bestTime == UsTillDone(workers[best.value], typ) < UINT_MAX
    ensures Better(workers, typ, maxJobs, best, k)
            == if Eligible(workers[k], typ, maxJobs) && UsTillDone(workers[k], typ) < bestTime then Some(k) else best
  {
  }

  lemma BestIsTheOne(workers: map<string, Worker>, typ: nat, maxJobs: nat, best: Option<string>)
    requires WorkersOk(workers) && BestAmong(workers, workers.Keys, typ, maxJobs, best)
    ensures maxJobs == MAX_JOBS ==> best == BestWorker(workers, typ, MAX_JOBS)
  {
    if maxJobs == MAX_JOBS {
      BestUnique(workers, workers.Keys, typ, maxJobs, best, BestWorker(workers, typ, MAX_JOBS));
    }
  }

  lemma OffersMeanHistory(w: Worker, typ: nat)
    requires WorkerOk(w) && w.first <= typ < w.second
    ensures Timed(w) && typ in w.times
  {
  }

  /** What the loop of bestWorker has found when the workers in `rest` are still to be looked at. */
  ghost predicate Seen(workers: map<string, Worker>, rest: set<string>, typ: nat, maxJobs: nat, best: Option<string>,
                       bestTime: nat)
    requires WorkersOk(workers)
  {
    && rest <= workers.Keys
    && BestAmong(workers, workers.Keys - rest, typ, maxJobs, best)
    && (best.None? ==> bestTime == UINT_MAX)
    && (best.Some? ==>
         && best.value in workers && Eligible(workers[best.value], typ, maxJobs)
         && bestTime == UsTillDone(workers[best.value], typ) < UINT_MAX
         && forall k | k in rest :: StringLess(best.value, k))
  }

  lemma SeenNext(workers: map<string, Worker>, rest: set<string>, typ: nat, maxJobs: nat, best: Option<string>, bestTime: nat,
                 k: string, best': Option<string>, bestTime': nat)
    requires WorkersOk(workers) && Seen(workers, rest, typ, maxJobs, best, bestTime) && rest != {} && k == InKeyOrder(rest)[0]
    requires k in workers
    requires if Eligible(workers[k], typ, maxJobs) && UsTillDone(workers[k], typ) < bestTime
             then best' == Some(k) && bestTime' == UsTillDone(workers[k], typ) else best' == best && bestTime' == bestTime
    ensures Seen(workers, rest - {k}, typ, maxJobs, best', bestTime')
  {
    hide InKeyOrder, UsTillDone, StringLess, BestAmong, WorkersOk, Better;
    KeyOrderStep(rest);
    assert workers.Keys - rest + {k} == workers.Keys - (rest - {k});
    BestExtends(workers, workers.Keys - rest, k, typ, maxJobs, best);
    KeepFirst(workers, typ, maxJobs, best, bestTime, k);
  }

  lemma SeenAll(workers: map<string, Worker>, typ: nat, maxJobs: nat, best: Option<string>, bestTime: nat)
    requires WorkersOk(workers) && Seen(workers, {}, typ, maxJobs, best, bestTime)
    ensures BestAmong(workers, workers.Keys, typ, maxJobs, best)
  {
  }

  lemma PollReadyMeans(s: State, i: nat)
    requires PollReady(s) && i < |s.jobQueue|
    ensures WorkersOk(s.workers) && s.jobQueue[i].requesterID in s.requests
  {
  }

  lemma PollEnds(s: State, i: nat, now: int)
    requires PollReady(s) && i >= |s.jobQueue|
    ensures PollFrom(s, i, now) == (s, [])
  {
  }

  /** The two things that onPoll does with a queued job. */
  lemma PollSkips(s: State, i: nat, now: int)
    requires PollReady(s) && i < |s.jobQueue| && BestWorker(s.workers, s.jobQueue[i].typ, MAX_JOBS) == None
    ensures PollFrom(s, i, now) == PollFrom(s, i + 1, now)
  {
  }

  lemma PollSends(s: State, i: nat, worker: string, now: int)
    requires PollReady(s) && i < |s.jobQueue| && BestWorker(s.workers, s.jobQueue[i].typ, MAX_JOBS) == Some(worker)
    ensures worker in s.workers && s.jobQueue[i].requesterID in s.requests && PollReady(Dispatch(s, i, worker, now))
    ensures var j := s.jobQueue[i];
            var (s', sent) := PollFrom(Dispatch(s, i, worker, now), i, now);
            PollFrom(s, i, now) == (s', [JobMessage(s.workers[worker], j, s.requests[j.requesterID].data)] + sent)
  {
    hide WorkersOk, QueueKnown, QueueFresh, DistinctIds;
    PollReadyMeans(s, i);
    assert BestAmong(s.workers, s.workers.Keys, s.jobQueue[i].typ, MAX_JOBS, Some(worker));
    DispatchReady(s, i, worker, now);
    hide PollReady, BestAmong, Dispatch;
  }

  class Delegator {
    var workers: map<string, Worker>
    var requests: map<string, Request>
    var jobQueue: seq<Job>
    var nextJobId: nat
    var workerCount: int
    const nJobTypes: nat

    // what went out on the three sockets, oldest first
    var requester: seq<Message>
    var heartbeat: seq<Message>
    var network: seq<Message>

    constructor (nJobTypes: nat)
      ensures Abstract() == State(map[], map[], [], 0, 0)
      ensures this.nJobTypes == nJobTypes && requester == heartbeat == network == []
    {
      workers, requests, jobQueue, nextJobId, workerCount := map[], map[], [], 0, 0;
      this.nJobTypes := nJobTypes;
      requester, heartbeat, network := [], [], [];
    }

    ghost function Abstract(): State
      reads this
    {
      State(workers, requests, jobQueue, nextJobId, workerCount)
    }

    /** std::accumulate in 32 bits, then the mean. */
    static method TimeForJob(w: Worker, typ: nat) returns (avg: nat)
      requires typ in w.times
      ensures avg == DelegatorStates.TimeForJob(w, typ)
    {
      var times := w.times[typ];
      var totalTime := 0;
      for i := 0 to |times|
        invariant totalTime == Total(times[..i]) % UINT_RANGE
      {
        TotalNext(times, i);
        WrapThenAdd(Total(times[..i]), times[i]);
        hide Total, Mean;
        totalTime := (totalTime + times[i]) % UINT_RANGE;
      }
      assert times[..|times|] == times;
      avg := Mean(totalTime, HISTORY);
    }

    static method UsTillDone(w: Worker, typ: nat) returns (t: nat)
      requires Timed(w) && typ in w.times
      ensures t == DelegatorStates.UsTillDone(w, typ)
    {
      hide InKeyOrder, DelegatorStates.TimeForJob, TimeForJobs;
      t := 0;
      var rest := w.workInProgress.Keys;
      ghost var whole := TimeForJobs(w, InKeyOrder(rest));
      while rest != {}
        invariant rest <= w.workInProgress.Keys
        invariant forall id | id in InKeyOrder(rest) :: id in w.workInProgress
        invariant (t + TimeForJobs(w, InKeyOrder(rest))) % UINT_RANGE == whole % UINT_RANGE
      {
        var i := FirstKey(rest);
        KeyOrderStep(rest);
        var x := TimeForJob(w, w.workInProgress[i].typ);
        FirstTime(w, i, InKeyOrder(rest - {i}));
        AddWrapped(t, x, TimeForJobs(w, InKeyOrder(rest - {i})));
        t := (t + x) % UINT_RANGE;
        rest := rest - {i};
      }
      var next := TimeForJob(w, typ);
      NoTime(w);
      SameRemainder(t, whole, next);
      t := (t + next) % UINT_RANGE;
    }

    method ConnectWorker(msg: Message, now: int)
      requires msg.address != [] && msg.data != [] && OfferedRange(msg.data[0], nJobTypes).Some?
      requires msg.address[0] !in workers
      modifies this`workers, this`workerCount
      ensures var range := OfferedRange(msg.data[0], nJobTypes).value;
              Abstract() == DelegatorStates.ConnectWorker(old(Abstract()), msg.address[0],
                                                          NewWorker(msg.address, range.0, range.1, now))
    {
      var first, second := 0, nJobTypes;
      if msg.data[0] != "" {
        var jobTypes := SplitStr([], msg.data[0], ':');
        assert jobTypes == Split(msg.data[0], ':');
        first := StoI(jobTypes[0]).value;
        second := StoI(jobTypes[1]).value;
      }
      var times: map<nat, seq<nat>> := map[];
      var i := first;
      while i < second
        invariant first <= i
        invariant i <= second || i == first
        invariant times == Histories(first, i)
      {
        times := times[i := Filled(0, HISTORY)];
        i := i + 1;
      }
      HistoriesEmpty(first, second);
      var w := Worker(msg.address, first, second, map[], times, now);
      var id := w.address[0];
      workers := workers[id := w];
      workerCount := workerCount + 1;
    }

    /** The handler of HELLO: the heartbeat thread hears of every one, the worker is entered once. */
    method NewWorkerSaysHello(m: Message, now: int)
      requires m.address != [] && m.data != [] && OfferedRange(m.data[0], nJobTypes).Some?
      modifies this`workers, this`workerCount, this`heartbeat
      ensures heartbeat == old(heartbeat) + [m]
      ensures var range := OfferedRange(m.data[0], nJobTypes).value;
              Abstract() == if m.address[0] in old(workers) then old(Abstract())
                            else DelegatorStates.ConnectWorker(old(Abstract()), m.address[0],
                                                               NewWorker(m.address, range.0, range.1, now))
    {
      heartbeat := heartbeat + [m];
      if m.address[0] !in workers {
        ConnectWorker(m, now);
      }
    }

    method ReceiveRequest(msg: Message)
      requires msg.address != [] && |msg.data| >= 2 && AllParse(TypeStrings(msg))
      modifies this`requests, this`jobQueue, this`nextJobId
      ensures Abstract() == DelegatorStates.ReceiveRequest(old(Abstract()), msg.address, TypeStrings(msg), msg.data[1])
    {
      GlueIsJoin(msg.address, ':');
      var id := JoinStr(msg.address, ":");
      var jobTypes := SplitStrSet(msg.data[0], ':');
      var jobTypesInt := TransformTypes(jobTypes);
      var r := Request(msg.address, jobTypesInt, msg.data[1], seq(|jobTypes|, _ => ""), 0);
      if id !in requests {
        requests := requests[id := r];
      }
      QueueJobs(jobTypesInt, id);
    }

    /** The std::transform of receiveRequest. */
    static method TransformTypes(jobTypes: set<string>) returns (jobTypesInt: set<nat>)
      requires AllParse(jobTypes)
      ensures jobTypesInt == ParsedTypes(jobTypes)
    {
      jobTypesInt := {};
      var left := jobTypes;
      while left != {}
        invariant left <= jobTypes
        invariant jobTypesInt == ParsedTypes(jobTypes - left)
      {
        var x :| x in left;
        assert jobTypes - (left - {x}) == (jobTypes - left) + {x};
        jobTypesInt := jobTypesInt + {StoI(x).value};
        left := left - {x};
      }
      assert jobTypes - left == jobTypes;
    }

    /** The loop of receiveRequest over the std::set of types. */
    method QueueJobs(types: set<nat>, id: string)
      modifies this`jobQueue, this`nextJobId
      ensures jobQueue == old(jobQueue) + NewJobs(InTypeOrder(types), id, old(nextJobId))
      ensures nextJobId == old(nextJobId) + |InTypeOrder(types)|
    {
      hide InTypeOrder, NewJobs;
      var idx := 0;
      var rest := types;
      ghost var order := InTypeOrder(types);
      NewJobsPrefix(order, id, nextJobId, 0);
      while rest != {}
        invariant idx <= |order| && order[idx..] == InTypeOrder(rest)
        invariant nextJobId == old(nextJobId) + idx
        invariant jobQueue == old(jobQueue) + NewJobs(order[..idx], id, old(nextJobId))
        decreases rest
      {
        var t := FirstType(rest);
        TypeOrderStep(rest);
        NextInOrder(order, idx, t, InTypeOrder(rest - {t}));
        NewJobsPrefix(order, id, old(nextJobId), idx + 1);
        var j := Job(t, ToString(nextJobId), id, idx, 0);
        jobQueue := jobQueue + [j];
        nextJobId := nextJobId + 1;
        idx := idx + 1;
        rest := rest - {t};
      }
      assert order[..idx] == order;
    }

    /** The handler of RESULT at time `now`. */
    method ReceiveResult(msg: Message, now: int)
      requires msg.address != [] && |msg.data| >= 2
      requires ResultExpected(Abstract(), msg.address[0], msg.data[0])
      modifies this`workers, this`requests, this`requester
      ensures var (s', sent) := DelegatorStates.ReceiveResult(old(Abstract()), msg.address[0], msg.data[0], msg.data[1], now);
              Abstract() == s' && requester == old(requester) + sent
    {
      var workerId := msg.address[0];
      if workerId !in workers {
        return;
      }
      var jobID := msg.data[0];
      var worker := workers[workerId];
      var j := worker.workInProgress[jobID];
      var elapsed := now - (if j.startTime < worker.lastResultTime then worker.lastResultTime else j.startTime);
      var usecs: nat := elapsed % UINT_RANGE;
      worker := worker.(times := worker.times[j.typ := Push(worker.times[j.typ], usecs, HISTORY)]);
      worker := worker.(lastResultTime := now);
      var r := requests[j.requesterID];
      r := r.(results := r.results[j.requesterIndex := msg.data[1]]);
      r := r.(nDone := r.nDone + 1);
      requests := requests[j.requesterID := r];
      if r.nDone == |r.jobTypes| {
        requester := requester + [Message(r.address, RESULT, r.results)];
        requests := requests - {j.requesterID};
        assert requests == old(requests) - {j.requesterID};
      }
      worker := worker.(workInProgress := worker.workInProgress - {jobID});
      workers := workers[workerId := worker];
    }

    /** The first worker in key order with the least estimate among those that may take the job. */
    method BestWorker(jobType: nat, maxJobs: nat) returns (best: Option<string>)
      requires WorkersOk(workers)
      ensures BestAmong(workers, workers.Keys, jobType, maxJobs, best)
      ensures maxJobs == MAX_JOBS ==> best == DelegatorStates.BestWorker(workers, jobType, MAX_JOBS)
    {
      assert Seen(workers, workers.Keys, jobType, maxJobs, None, UINT_MAX);
      hide InKeyOrder, DelegatorStates.UsTillDone, DelegatorStates.BestWorker, BestAmong, StringLess, WorkerOk, Timed, Seen;
      best := None;
      var bestTime := UINT_MAX;
      var rest := workers.Keys;
      while rest != {}
        invariant rest <= workers.Keys && Seen(workers, rest, jobType, maxJobs, best, bestTime)
        decreases rest
      {
        var k := FirstKey(rest);
        ghost var (before, beforeTime) := (best, bestTime);
        var w := workers[k];
        if jobType >= w.first && jobType < w.second && |w.workInProgress| < maxJobs {
          OffersMeanHistory(w, jobType);
          var t := UsTillDone(w, jobType);
          if t < bestTime {
            best := Some(k);
            bestTime := t;
          }
        }
        SeenNext(workers, rest, jobType, maxJobs, before, beforeTime, k, best, bestTime);
        rest := rest - {k};
      }
      SeenAll(workers, jobType, maxJobs, best, bestTime);
      BestIsTheOne(workers, jobType, maxJobs, best);
    }

    /** One pass over the queue at time `now`, erasing from it on the way. */
    method OnPoll(now: int)
      requires PollReady(Abstract())
      modifies this`workers, this`jobQueue, this`network
      ensures var (s', sent) := DelegatorStates.OnPoll(old(Abstract()), now);
              Abstract() == s' && network == old(network) + sent
    {
      ghost var (end, sent) := PollFrom(Abstract(), 0, now);
      assert (end, sent) == DelegatorStates.OnPoll(Abstract(), now);
      hide PollReady, DelegatorStates.BestWorker, BestAmong, PollFrom, Dispatch, JobMessage;
      var i := 0;
      while i != |jobQueue|
        invariant 0 <= i <= |jobQueue|
        invariant PollReady(Abstract())
        invariant PollFrom(Abstract(), i, now).0 == end
        invariant network + PollFrom(Abstract(), i, now).1 == old(network) + sent
        decreases |jobQueue| - i
      {
        PollReadyMeans(Abstract(), i);
        var worker := BestWorker(jobQueue[i].typ, MAX_JOBS);
        if worker == None {
          PollSkips(Abstract(), i, now);
          i := i + 1;
          continue;
        }
        PollSends(Abstract(), i, worker.value, now);
        ghost var (queued, rest) := (network, PollFrom(Dispatch(Abstract(), i, worker.value, now), i, now).1);
        SendJob(i, worker.value, now);
        AppendAssociates(queued, network[|queued|..], rest);
      }
      PollEnds(Abstract(), i, now);
    }

    /** What onPoll does with a job that has a worker. */
    method SendJob(i: nat, worker: string, now: int)
      requires i < |jobQueue| && worker in workers && jobQueue[i].requesterID in requests
      modifies this`workers, this`jobQueue, this`network
      ensures Abstract() == Dispatch(old(Abstract()), i, worker, now) && |jobQueue| == |old(jobQueue)| - 1
      ensures var j := old(jobQueue)[i];
              network == old(network) + [JobMessage(old(workers)[worker], j, requests[j.requesterID].data)]
    {
      var j := jobQueue[i];
      var w := workers[worker];
      var data := requests[j.requesterID].data;
      network := network + [Message(w.address, JOB, [ToString(j.typ), j.id, data])];
      w := w.(workInProgress := w.workInProgress[j.id := j.(startTime := now)]);
      workers := workers[worker := w];
      jobQueue := jobQueue[..i] + jobQueue[i + 1..];
    }

    method DisconnectWorker(goodbye: Message)
      requires goodbye.address != []
      modifies this`workers, this`jobQueue, this`workerCount
      ensures Abstract() == DelegatorStates.DisconnectWorker(old(Abstract()), goodbye.address[0])
    {
      var workerId := goodbye.address[0];
      if workerId !in workers {
        return;
      }
      var w := workers[workerId];
      PushFront(w);
      workers := workers - {workerId};
      workerCount := workerCount - 1;
    }

    /** The loop of disconnectWorker over the worker's jobs. */
    method PushFront(w: Worker)
      modifies this`jobQueue
      ensures jobQueue == Requeued(w) + old(jobQueue)
    {
      hide InKeyOrder, JobsNamed, Reverse;
      ReverseNothing();
      var rest := w.workInProgress.Keys;
      ghost var order := InKeyOrder(rest);
      ghost var done := 0;
      JobsNamedPrefix(w, order, 0);
      while rest != {}
        invariant rest <= w.workInProgress.Keys
        invariant done <= |order| && order[done..] == InKeyOrder(rest)
        invariant forall id | id in order :: id in w.workInProgress
        invariant jobQueue == Reverse(JobsNamed(w, order[..done])) + old(jobQueue)
        decreases rest
      {
        var id := FirstKey(rest);
        KeyOrderStep(rest);
        NextInOrder(order, done, id, InKeyOrder(rest - {id}));
        var j := w.workInProgress[id];
        PushedNext(w, order, done);
        AppendAssociates([j], Reverse(JobsNamed(w, order[..done])), old(jobQueue));
        jobQueue := [j] + jobQueue;
        done := done + 1;
        rest := rest - {id};
      }
      assert order[..done] == order;
    }

    /** The handler of GOODBYE from the network: passed on to the heartbeat thread, then the worker is dropped. */
    method ForwardAndDisconnect(m: Message)
      requires m.address != []
      modifies this`workers, this`jobQueue, this`workerCount, this`heartbeat
      ensures heartbeat == old(heartbeat) + [m]
      ensures Abstract() == DelegatorStates.DisconnectWorker(old(Abstract()), m.address[0])
    {
      heartbeat := heartbeat + [m];
      DisconnectWorker(m);
    }
  }

  lemma HistoriesEmpty(first: nat, second: nat)
    ensures first >= second ==> Histories(first, second) == Histories(first, first) == map[]
  {
  }
}
