/** What the greedy dispatch of onPoll achieves. */
module Scheduling {
  import opened Text
  import opened Messages
  import opened Ordering
  import opened CircularBuffers
  import opened DelegatorStates

  // ----------------------------------------------------------- the estimates

  /** The largest mean of ten durations that unsigned 32-bit arithmetic can produce. */
  const LONGEST: nat := UINT_MAX / HISTORY

  lemma TimeForJobBound(w: Worker, typ: nat)
    requires typ in w.times
    ensures TimeForJob(w, typ) <= LONGEST
  {
  }

  lemma {:induction false} TimeForJobsBound(w: Worker, ids: seq<string>)
    requires Timed(w) && forall id | id in ids :: id in w.workInProgress
    ensures TimeForJobs(w, ids) <= |ids| * LONGEST
  {
    if ids == [] {
    } else {
      TimeForJobBound(w, w.workInProgress[ids[0]].typ);
      TimeForJobsBound(w, ids[1..]);
    }
  }

  /** For a worker that may take another job the estimate neither wraps around nor reaches the initial best time, whatever
      durations were recorded. */
  lemma EstimateInRange(w: Worker, typ: nat)
    requires WorkerOk(w) && Eligible(w, typ, MAX_JOBS)
    ensures UsTillDone(w, typ) == TimeForJobs(w, InKeyOrder(w.workInProgress.Keys)) + TimeForJob(w, typ) < UINT_MAX
  {
    var ids := InKeyOrder(w.workInProgress.Keys);
    assert |ids| < MAX_JOBS;
    hide InKeyOrder, TimeForJobs, TimeForJob;
    TimeForJobsBound(w, ids);
    TimeForJobBound(w, typ);
    BelowUintMax(|ids|, TimeForJobs(w, ids), TimeForJob(w, typ));
  }

  lemma BelowUintMax(n: nat, held: nat, next: nat)
    requires n < MAX_JOBS && held <= n * LONGEST && next <= LONGEST
    ensures held + next < UINT_MAX && (held + next) % UINT_RANGE == held + next
  {
  }

  /** The estimate of a worker without jobs is the time for the new one. */
  lemma IdleEstimate(w: Worker, typ: nat)
    requires WorkerOk(w) && Eligible(w, typ, MAX_JOBS) && w.workInProgress == map[]
    ensures UsTillDone(w, typ) == TimeForJob(w, typ)
  {
    EstimateInRange(w, typ);
    assert w.workInProgress.Keys == {};
    assert InKeyOrder({}) == [];
  }

  /** A job more in progress adds its own time, so that the estimate is the sum over all of them, in whatever order. */
  lemma EstimateGrows(w: Worker, j: Job, now: int, typ: nat)
    requires WorkerOk(w) && j.id !in w.workInProgress && w.first <= j.typ < w.second
    requires Eligible(Started(w, j, now), typ, MAX_JOBS)
    ensures Eligible(w, typ, MAX_JOBS)
    ensures UsTillDone(Started(w, j, now), typ) == UsTillDone(w, typ) + TimeForJob(w, j.typ)
  {
    var w' := Started(w, j, now);
    StartedEligible(w, j, now, typ);
    EstimateInRange(w, typ);
    EstimateInRange(w', typ);
    SameTime(w, w', j.typ);
    SameTime(w, w', typ);
    var k := KeyOrderWith(w.workInProgress.Keys, j.id);
    hide UsTillDone, TimeForJob, TimeForJobs, InKeyOrder, WorkerOk, Eligible;
    TimeForJobsWithout(w', InKeyOrder(w'.workInProgress.Keys), k);
    SameTimes(w, w', InKeyOrder(w.workInProgress.Keys));
  }

  lemma StartedEligible(w: Worker, j: Job, now: int, typ: nat)
    requires WorkerOk(w) && j.id !in w.workInProgress && w.first <= j.typ < w.second
    requires Eligible(Started(w, j, now), typ, MAX_JOBS)
    ensures Eligible(w, typ, MAX_JOBS) && WorkerOk(Started(w, j, now)) && typ in w.times && j.typ in w.times
    ensures Timed(w) && Timed(Started(w, j, now))
    ensures Started(w, j, now).workInProgress.Keys == w.workInProgress.Keys + {j.id}
    ensures forall id | id in w.workInProgress :: Started(w, j, now).workInProgress[id] == w.workInProgress[id]
  {
    var w' := Started(w, j, now);
    assert w'.workInProgress.Keys == w.workInProgress.Keys + {j.id};
    assert |w'.workInProgress.Keys| == |w.workInProgress.Keys| + 1;
  }

  lemma SameTime(w: Worker, w': Worker, typ: nat)
    requires w'.times == w.times && typ in w.times
    ensures TimeForJob(w', typ) == TimeForJob(w, typ)
  {
  }

  lemma {:induction false} SameTimes(w: Worker, w': Worker, ids: seq<string>)
    requires Timed(w) && Timed(w') && w'.times == w.times
    requires forall id | id in ids :: id in w.workInProgress && id in w'.workInProgress
    requires forall id | id in ids :: w'.workInProgress[id].typ == w.workInProgress[id].typ
    ensures TimeForJobs(w', ids) == TimeForJobs(w, ids)
  {
    hide TimeForJob;
    if ids != [] {
      SameTime(w, w', w.workInProgress[ids[0]].typ);
      SameTimes(w, w', ids[1..]);
    }
  }

  lemma {:induction false} TimeForJobsWithout(w: Worker, ids: seq<string>, k: nat)
    requires Timed(w) && k < |ids| && forall id | id in ids :: id in w.workInProgress
    ensures TimeForJobs(w, ids)
            == TimeForJobs(w, ids[..k] + ids[k + 1..]) + TimeForJob(w, w.workInProgress[ids[k]].typ)
  {
    hide TimeForJob;
    var rest := ids[..k] + ids[k + 1..];
    if k == 0 {
      assert rest == ids[1..];
    } else {
      TimeForJobsWithout(w, ids[1..], k - 1);
      assert rest[0] == ids[0] && rest[1..] == ids[1..][..k - 1] + ids[1..][k..];
    }
  }

  /** Where a new key comes in the order. */
  lemma KeyOrderWith(keys: set<string>, x: string) returns (k: nat)
    requires x !in keys
    ensures var r := InKeyOrder(keys + {x});
            k < |r| && r[k] == x && r[..k] + r[k + 1..] == InKeyOrder(keys)
  {
    var r := InKeyOrder(keys + {x});
    StringLessStrictTotal();
    KeyOrderAscends(keys + {x});
    k :| 0 <= k < |r| && r[k] == x;
    KeyOrderDistinct(keys + {x});
    assert InKeyOrder(keys) == Sorted(keys, StringLess);
    hide StrictTotal, StringLess, InKeyOrder, Sorted;
    AscendingWithout(r, k);
    WithoutOne(r, keys, k);
    AscendingUnique(r[..k] + r[k + 1..], keys, StringLess);
  }

  lemma AscendingWithout(r: seq<string>, k: nat)
    requires Ascending(r, StringLess) && k < |r|
    ensures Ascending(r[..k] + r[k + 1..], StringLess)
  {
  }

  lemma WithoutOne(r: seq<string>, keys: set<string>, k: nat)
    requires k < |r| && r[k] !in keys && (forall x :: x in r <==> x in keys + {r[k]})
    requires forall i, j | 0 <= i < j < |r| :: r[i] != r[j]
    ensures forall x :: x in r[..k] + r[k + 1..] <==> x in keys
  {
    var rest := r[..k] + r[k + 1..];
    forall x
      ensures x in rest <==> x in keys
    {
      if x in keys {
        assert x in keys + {r[k]} && x in r;
        var i :| 0 <= i < |r| && r[i] == x;
        assert rest[if i < k then i else i - 1] == x;
      }
      if x in rest {
        var i :| 0 <= i < |rest| && rest[i] == x;
        assert r[if i < k then i else i + 1] == x && x in r;
        assert x in keys + {r[k]};
      }
    }
  }

  /** A result moves the sum of the ten durations of its type by the new one and the oldest, and no other type's. */
  lemma TotalMoves(w: Worker, id: string, now: int)
    requires id in w.workInProgress && w.workInProgress[id].typ in w.times
    requires |w.times[w.workInProgress[id].typ]| == HISTORY
    ensures var (t, w') := (w.workInProgress[id].typ, FinishJob(w, id, now));
            && w'.times == w.times[t := w'.times[t]]
            && Total(w'.times[t]) == Total(w.times[t]) - w.times[t][0] + Duration(w, id, now) % UINT_RANGE
  {
    var times, usecs: nat := w.times[w.workInProgress[id].typ], Duration(w, id, now) % UINT_RANGE;
    var grown := times + [usecs];
    assert grown[..HISTORY] == times && Push(times, usecs, HISTORY) == grown[1..];
    TotalFirst(grown);
  }

  lemma {:induction false} TotalFirst(times: seq<nat>)
    requires times != []
    ensures Total(times) == times[0] + Total(times[1..])
  {
    var init := times[..|times| - 1];
    if init != [] {
      TotalFirst(init);
      assert times[1..][..|times| - 2] == init[1..];
    }
  }

  /** bestWorker finds a worker exactly when there is one that may take the job. */
  lemma BestFoundIff(workers: map<string, Worker>, typ: nat)
    requires WorkersOk(workers)
    ensures BestWorker(workers, typ, MAX_JOBS).Some? <==>
            exists w :: w in workers && Eligible(workers[w], typ, MAX_JOBS)
  {
    forall w | w in workers && Eligible(workers[w], typ, MAX_JOBS)
      ensures UsTillDone(workers[w], typ) < UINT_MAX
    {
      EstimateInRange(workers[w], typ);
    }
  }

  // --------------------------------------------------------- work conservation

  ghost predicate NoTaker(workers: map<string, Worker>, typ: nat) {
    forall w | w in workers :: !Eligible(workers[w], typ, MAX_JOBS)
  }

  lemma NoneTakes(workers: map<string, Worker>, typ: nat)
    requires WorkersOk(workers) && BestWorker(workers, typ, MAX_JOBS) == None
    ensures NoTaker(workers, typ)
  {
    BestFoundIff(workers, typ);
    hide WorkersOk, Eligible;
  }

  lemma DispatchTakesNoRoomBack(s: State, i: nat, worker: string, now: int, typ: nat)
    requires PollReady(s) && i < |s.jobQueue| && worker in s.workers
    requires NoTaker(s.workers, typ)
    ensures NoTaker(Dispatch(s, i, worker, now).workers, typ)
  {
  }

  /** The first job that has a taker, and the best worker for it. */
  ghost predicate BestFirst(s: State, i: nat, w: string)
    requires PollReady(s)
  {
    && i < |s.jobQueue| && BestAmong(s.workers, s.workers.Keys, s.jobQueue[i].typ, MAX_JOBS, Some(w))
    && s.jobQueue[i].requesterID in s.requests
    && forall k | 0 <= k < i :: NoTaker(s.workers, s.jobQueue[k].typ)
  }

  ghost predicate SentFirst(s: State, i: nat, w: string, m: Message)
    requires PollReady(s) && BestFirst(s, i, w)
  {
    var j := s.jobQueue[i];
    m.address == s.workers[w].address && m.subject == JOB && m.data == [ToString(j.typ), j.id, s.requests[j.requesterID].data]
  }

  /** From s, one job after the other goes to the best worker of that moment, until no job has a taker. */
  ghost predicate Dispatches(s: State, now: int, s': State, sent: seq<Message>)
    requires PollReady(s)
    decreases |sent|
  {
    if sent == [] then s' == s && forall j | j in s.jobQueue :: NoTaker(s.workers, j.typ)
    else exists i, w :: BestFirst(s, i, w) && SentFirst(s, i, w, sent[0]) && PollReady(Dispatch(s, i, w, now))
                        && Dispatches(Dispatch(s, i, w, now), now, s', sent[1..])
  }

  lemma {:induction false} PollFromDispatches(s: State, i: nat, now: int)
    requires PollReady(s) && i <= |s.jobQueue|
    requires forall k | 0 <= k < i :: NoTaker(s.workers, s.jobQueue[k].typ)
    ensures Dispatches(s, now, PollFrom(s, i, now).0, PollFrom(s, i, now).1)
    decreases |s.jobQueue| - i
  {
    assert WorkersOk(s.workers);
    hide PollReady, WorkersOk, Eligible, SentFirst, BestFirst, Dispatches, BestAmong;
    if i < |s.jobQueue| {
      match BestWorker(s.workers, s.jobQueue[i].typ, MAX_JOBS) {
        case None =>
          NoneTakes(s.workers, s.jobQueue[i].typ);
          PollFromDispatches(s, i + 1, now);
        case Some(w) =>
          BestSent(s, i, w, now);
          NoTakersBefore(s, i, w, now);
          var t := Dispatch(s, i, w, now);
          PollFromDispatches(t, i, now);
          var (s', rest) := PollFrom(t, i, now);
          var data := s.requests[s.jobQueue[i].requesterID].data;
          assert PollFrom(s, i, now).1 == [JobMessage(s.workers[w], s.jobQueue[i], data)] + rest;
          OneMore(s, now, i, w, PollFrom(s, i, now).1, s');
      }
    } else {
      NoneLeft(s, now);
    }
  }

  lemma NoneLeft(s: State, now: int)
    requires PollReady(s) && forall k | 0 <= k < |s.jobQueue| :: NoTaker(s.workers, s.jobQueue[k].typ)
    ensures Dispatches(s, now, s, [])
  {
    hide NoTaker;
  }

  lemma OneMore(s: State, now: int, i: nat, w: string, sent: seq<Message>, s': State)
    requires PollReady(s) && BestFirst(s, i, w) && sent != [] && SentFirst(s, i, w, sent[0])
    requires PollReady(Dispatch(s, i, w, now)) && Dispatches(Dispatch(s, i, w, now), now, s', sent[1..])
    ensures Dispatches(s, now, s', sent)
  {
  }

  lemma BestSent(s: State, i: nat, w: string, now: int)
    requires PollReady(s) && i < |s.jobQueue| && BestWorker(s.workers, s.jobQueue[i].typ, MAX_JOBS) == Some(w)
    requires forall k | 0 <= k < i :: NoTaker(s.workers, s.jobQueue[k].typ)
    ensures w in s.workers && PollReady(Dispatch(s, i, w, now)) && BestFirst(s, i, w)
    ensures SentFirst(s, i, w, JobMessage(s.workers[w], s.jobQueue[i], s.requests[s.jobQueue[i].requesterID].data))
  {
    assert s.jobQueue[i] in s.jobQueue;
    assert BestAmong(s.workers, s.workers.Keys, s.jobQueue[i].typ, MAX_JOBS, Some(w));
    DispatchReady(s, i, w, now);
    hide DistinctIds, QueueFresh, NoTaker;
  }

  lemma NoTakersBefore(s: State, i: nat, w: string, now: int)
    requires PollReady(s) && i < |s.jobQueue| && w in s.workers
    requires forall k | 0 <= k < i :: NoTaker(s.workers, s.jobQueue[k].typ)
    ensures var t := Dispatch(s, i, w, now);
            forall k | 0 <= k < i :: NoTaker(t.workers, t.jobQueue[k].typ)
  {
    forall k | 0 <= k < i
      ensures NoTaker(Dispatch(s, i, w, now).workers, Dispatch(s, i, w, now).jobQueue[k].typ)
    {
      DispatchTakesNoRoomBack(s, i, w, now, s.jobQueue[k].typ);
    }
  }

  /** A poll sends one job after the other: the first that some worker can take, to the worker with the least estimate among
      those that can, until there is none. */
  lemma PollDispatches(s: State, now: int)
    requires PollReady(s)
    ensures Dispatches(s, now, OnPoll(s, now).0, OnPoll(s, now).1)
  {
    PollFromDispatches(s, 0, now);
  }

  lemma {:induction false} DispatchesLeaveNone(s: State, now: int, s': State, sent: seq<Message>)
    requires PollReady(s) && Dispatches(s, now, s', sent)
    ensures forall j | j in s'.jobQueue :: NoTaker(s'.workers, j.typ)
    decreases |sent|
  {
    if sent != [] {
      var i, w :| BestFirst(s, i, w) && SentFirst(s, i, w, sent[0]) && PollReady(Dispatch(s, i, w, now))
                  && Dispatches(Dispatch(s, i, w, now), now, s', sent[1..]);
      DispatchesLeaveNone(Dispatch(s, i, w, now), now, s', sent[1..]);
    }
  }

  /** After a poll no job waits that some connected worker could take. */
  lemma PollConservesWork(s: State, now: int)
    requires PollReady(s)
    ensures var s' := OnPoll(s, now).0;
            forall j, w | j in s'.jobQueue && w in s'.workers :: !Eligible(s'.workers[w], j.typ, MAX_JOBS)
  {
    var (s', sent) := OnPoll(s, now);
    PollDispatches(s, now);
    DispatchesLeaveNone(s, now, s', sent);
    forall j, w | j in s'.jobQueue && w in s'.workers
      ensures !Eligible(s'.workers[w], j.typ, MAX_JOBS)
    {
      assert NoTaker(s'.workers, j.typ);
    }
  }

  // ------------------------------------------------ what moved, and what was sent

  ghost predicate Subsequence<T>(a: seq<T>, b: seq<T>) {
    if a == [] then true
    else if b == [] then false
    else if a[0] == b[0] && Subsequence(a[1..], b[1..]) then true
    else Subsequence(a, b[1..])
  }

  lemma {:induction false} SubsequenceLonger<T>(a: seq<T>, x: T, b: seq<T>)
    requires Subsequence(a, b)
    ensures Subsequence(a, [x] + b) && Subsequence([x] + a, [x] + b)
  {
  }

  ghost predicate KeptFrom(q: seq<Job>, before: seq<Job>, i: nat) {
    && i <= |q| && i <= |before|
    && q[..i] == before[..i] && Subsequence(q[i..], before[i..])
  }

  lemma KeptSkipping(q: seq<Job>, before: seq<Job>, i: nat)
    requires KeptFrom(q, before, i + 1)
    ensures KeptFrom(q, before, i)
  {
    var x := before[i];
    assert q[..i + 1][i] == before[..i + 1][i];
    assert q[i..] == [x] + q[i + 1..] && before[i..] == [x] + before[i + 1..];
    assert q[..i] == q[..i + 1][..i] && before[..i] == before[..i + 1][..i];
    SubsequenceLonger(q[i + 1..], x, before[i + 1..]);
  }

  lemma KeptRemoving(q: seq<Job>, before: seq<Job>, i: nat)
    requires i < |before| && KeptFrom(q, before[..i] + before[i + 1..], i)
    ensures KeptFrom(q, before, i)
  {
    var shorter := before[..i] + before[i + 1..];
    assert shorter[..i] == before[..i] && shorter[i..] == before[i + 1..];
    assert before[i..] == [before[i]] + before[i + 1..];
    SubsequenceLonger(q[i..], before[i], before[i + 1..]);
  }

  /** A poll from position i keeps the first i jobs, and of the others an ordered selection. */
  lemma {:induction false} PollKeepsOrder(s: State, i: nat, now: int)
    requires PollReady(s) && i <= |s.jobQueue|
    ensures KeptFrom(PollFrom(s, i, now).0.jobQueue, s.jobQueue, i)
    decreases |s.jobQueue| - i
  {
    assert WorkersOk(s.workers);
    hide PollReady, KeptFrom, WorkersOk;
    if i == |s.jobQueue| {
      KeptWhole(s.jobQueue);
    } else {
      match BestWorker(s.workers, s.jobQueue[i].typ, MAX_JOBS) {
        case None =>
          PollKeepsOrder(s, i + 1, now);
          KeptSkipping(PollFrom(s, i, now).0.jobQueue, s.jobQueue, i);
        case Some(w) =>
          DispatchReady(s, i, w, now);
          PollKeepsOrder(Dispatch(s, i, w, now), i, now);
          KeptRemoving(PollFrom(s, i, now).0.jobQueue, s.jobQueue, i);
      }
    }
  }

  lemma KeptWhole(q: seq<Job>)
    ensures KeptFrom(q, q, |q|)
  {
  }

  function Ids(q: seq<Job>): (ids: seq<string>)
    ensures |ids| == |q|
  {
    seq(|q|, i requires 0 <= i < |q| => q[i].id)
  }

  /** The job named by a JOB message is with the worker the message goes to, under its type and with its request's data. */
  ghost predicate SentRightly(s: State, m: Message) {
    exists w, id :: SentFor(s, m, w, id)
  }

  ghost predicate SentFor(s: State, m: Message, w: string, id: string) {
    && w in s.workers && id in s.workers[w].workInProgress
    && var j := s.workers[w].workInProgress[id];
       j.id == id && j.requesterID in s.requests && m == JobMessage(s.workers[w], j, s.requests[j.requesterID].data)
  }

  function SentIds(sent: seq<Message>): (ids: seq<string>)
    requires forall m | m in sent :: |m.data| == 3
    ensures |ids| == |sent|
  {
    seq(|sent|, i requires 0 <= i < |sent| => assert sent[i] in sent; sent[i].data[1])
  }

  lemma DispatchKeepsSent(s: State, i: nat, worker: string, now: int, m: Message)
    requires PollReady(s) && i < |s.jobQueue| && worker in s.workers
    requires SentRightly(s, m)
    ensures SentRightly(Dispatch(s, i, worker, now), m)
  {
    var w, id :| SentFor(s, m, w, id);
    assert s.jobQueue[i] in s.jobQueue;
    assert SentFor(Dispatch(s, i, worker, now), m, w, id);
  }

  lemma {:induction false} PollKeepsSent(s: State, i: nat, now: int, m: Message)
    requires PollReady(s) && SentRightly(s, m)
    ensures SentRightly(PollFrom(s, i, now).0, m)
    decreases |s.jobQueue| - i
  {
    hide SentRightly, WorkersOk, QueueKnown, QueueFresh, DistinctIds;
    if i < |s.jobQueue| {
      match BestWorker(s.workers, s.jobQueue[i].typ, MAX_JOBS) {
        case None => PollKeepsSent(s, i + 1, now, m);
        case Some(w) =>
          DispatchReady(s, i, w, now);
          DispatchKeepsSent(s, i, w, now, m);
          PollKeepsSent(Dispatch(s, i, w, now), i, now, m);
      }
    }
  }

  lemma IdsWithout(q: seq<Job>, i: nat)
    requires i < |q|
    ensures multiset(Ids(q)) == multiset(Ids(q[..i] + q[i + 1..])) + multiset{q[i].id}
  {
    var q' := q[..i] + q[i + 1..];
    assert Ids(q) == Ids(q[..i]) + [q[i].id] + Ids(q[i + 1..]);
    assert Ids(q') == Ids(q[..i]) + Ids(q[i + 1..]);
  }

  lemma DispatchSends(s: State, i: nat, w: string, now: int)
    requires i < |s.jobQueue| && w in s.workers && s.jobQueue[i].requesterID in s.requests
    ensures var j := s.jobQueue[i];
            SentRightly(Dispatch(s, i, w, now), JobMessage(s.workers[w], j, s.requests[j.requesterID].data))
  {
    var j := s.jobQueue[i];
    assert SentFor(Dispatch(s, i, w, now), JobMessage(s.workers[w], j, s.requests[j.requesterID].data), w, j.id);
  }

  /** Every message of a poll is a JOB for the worker that now holds that job, with the data of its own request. */
  lemma {:induction false} PollSends(s: State, i: nat, now: int)
    requires PollReady(s)
    ensures var (s', sent) := PollFrom(s, i, now);
            forall m | m in sent :: |m.data| == 3 && SentRightly(s', m)
    decreases |s.jobQueue| - i
  {
    if i < |s.jobQueue| {
      var j := s.jobQueue[i];
      match BestWorker(s.workers, j.typ, MAX_JOBS) {
        case None => PollSends(s, i + 1, now);
        case Some(w) =>
          assert j in s.jobQueue;
          DispatchReady(s, i, w, now);
          DispatchSends(s, i, w, now);
          hide SentRightly, PollReady, Dispatch;
          PollSends(Dispatch(s, i, w, now), i, now);
          PollKeepsSent(Dispatch(s, i, w, now), i, now, JobMessage(s.workers[w], j, s.requests[j.requesterID].data));
      }
    }
  }

  /** All messages name a job. */
  ghost predicate Naming(sent: seq<Message>) { forall m | m in sent :: |m.data| == 3 }

  /** The jobs that waited are the jobs still waiting and the jobs sent, each once. */
  ghost predicate Partition(before: seq<Job>, after: seq<Job>, sent: seq<Message>) {
    Naming(sent) && multiset(Ids(before)) == multiset(Ids(after)) + multiset(SentIds(sent))
  }

  lemma PartitionSending(before: seq<Job>, i: nat, after: seq<Job>, m: Message, rest: seq<Message>)
    requires i < |before| && |m.data| == 3 && m.data[1] == before[i].id
    requires Partition(before[..i] + before[i + 1..], after, rest)
    ensures Partition(before, after, [m] + rest)
  {
    IdsWithout(before, i);
    assert SentIds([m] + rest) == [m.data[1]] + SentIds(rest);
  }

  lemma {:induction false} PollSendsOnce(s: State, i: nat, now: int)
    requires PollReady(s)
    ensures Partition(s.jobQueue, PollFrom(s, i, now).0.jobQueue, PollFrom(s, i, now).1)
    decreases |s.jobQueue| - i
  {
    assert WorkersOk(s.workers);
    hide PollReady, WorkersOk;
    if i < |s.jobQueue| {
      hide Partition;
      var j := s.jobQueue[i];
      match BestWorker(s.workers, j.typ, MAX_JOBS) {
        case None => PollSendsOnce(s, i + 1, now);
        case Some(w) =>
          var t := Dispatch(s, i, w, now);
          DispatchReady(s, i, w, now);
          PollSendsOnce(t, i, now);
          var (s', rest) := PollFrom(t, i, now);
          PartitionSending(s.jobQueue, i, s'.jobQueue, PollFrom(s, i, now).1[0], rest);
      }
    }
  }
}
