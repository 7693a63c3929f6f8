/** The delegator's worker records over whole runs: what the scheduler may rely on, and what its estimates mean. */
module Records {
  import opened Text
  import opened Messages
  import opened Ordering
  import opened CircularBuffers
  import opened DelegatorStates
  import opened Accounting
  import opened Placement
  import opened Requesters
  import opened Workers
  import opened Protocol
  import opened Pipeline
  import opened Refinement

  // ------------------------------------------------------------ whole runs

  /** Every duration history is full, and the count of workers is right. */
  ghost predicate Kept(s: State) {
    && s.workerCount == |s.workers|
    && forall w | w in s.workers :: Full(s.workers[w])
  }

  ghost predicate Full(w: DelegatorStates.Worker) { forall t | t in w.times :: |w.times[t]| == HISTORY }

  lemma ConnectKept(s: State, id: string, address: Address, first: nat, second: nat, now: int)
    requires Kept(s) && id !in s.workers
    ensures Kept(ConnectWorker(s, id, NewWorker(address, first, second, now)))
  {
    var s' := ConnectWorker(s, id, NewWorker(address, first, second, now));
    assert s'.workers.Keys == s.workers.Keys + {id};
  }

  lemma DisconnectKept(s: State, id: string)
    requires Kept(s)
    ensures Kept(DisconnectWorker(s, id))
  {
    if id in s.workers {
      assert s.workers.Keys == (s.workers - {id}).Keys + {id};
    }
  }

  lemma ResultKept(s: State, worker: string, jobID: string, value: string, now: int)
    requires Kept(s) && ResultExpected(s, worker, jobID)
    ensures Kept(ReceiveResult(s, worker, jobID, value, now).0)
  {
    var s' := ReceiveResult(s, worker, jobID, value, now).0;
    assert s'.workers.Keys == s.workers.Keys;
  }

  lemma {:induction false} PollKept(s: State, i: nat, now: int)
    requires PollReady(s) && Kept(s)
    ensures Kept(PollFrom(s, i, now).0)
    decreases |s.jobQueue| - i
  {
    hide WorkersOk, QueueKnown, QueueFresh, DistinctIds, BestAmong, Full;
    if i < |s.jobQueue| {
      match BestWorker(s.workers, s.jobQueue[i].typ, MAX_JOBS) {
        case None => PollKept(s, i + 1, now);
        case Some(w) =>
          DispatchReadyHere(s, i, w, now);
          DispatchKept(s, i, w, now);
          PollKept(Dispatch(s, i, w, now), i, now);
      }
    }
  }

  lemma DispatchReadyHere(s: State, i: nat, worker: string, now: int)
    requires PollReady(s) && i < |s.jobQueue| && BestWorker(s.workers, s.jobQueue[i].typ, MAX_JOBS) == Some(worker)
    ensures worker in s.workers && PollReady(Dispatch(s, i, worker, now))
  {
    assert BestAmong(s.workers, s.workers.Keys, s.jobQueue[i].typ, MAX_JOBS, Some(worker));
    DispatchReady(s, i, worker, now);
  }

  lemma DispatchKept(s: State, i: nat, worker: string, now: int)
    requires Kept(s) && i < |s.jobQueue| && worker in s.workers
    ensures Kept(Dispatch(s, i, worker, now))
  {
    assert Dispatch(s, i, worker, now).workers.Keys == s.workers.Keys;
  }

  lemma KeptStep(s: System, e: Event, s': System, eval: Eval)
    requires Step(s, e, s', eval) && Kept(s.del)
    ensures Kept(s'.del)
  {
    hide Kept, PollReady, ResultExpected;
    match e {
      case Admit(i) =>
        var m := RouterIn(s.reqIn[i].0, s.reqIn[i].1);
        RequestKept(s.del, s'.del);
      case Poll(now) => PollKept(s.del, 0, now);
      case FromWorker(w, i, now) =>
        var m := s.peers[w].fromWorker[i];
        match m.subject {
          case HELLO =>
            var range := OfferedRange(m.data[0], s.nJobTypes).value;
            if w !in s.del.workers {
              ConnectKept(s.del, w, RouterIn(w, m).address, range.0, range.1, now);
            }
          case RESULT => ResultKept(s.del, w, m.data[0], m.data[1], now);
          case GOODBYE => DisconnectKept(s.del, w);
          case _ =>
        }
      case Timeout(w) => DisconnectKept(s.del, w);
      case _ =>
    }
  }

  lemma RequestKept(s: State, s': State)
    requires Kept(s) && s'.workers == s.workers && s'.workerCount == s.workerCount
    ensures Kept(s')
  {
  }

  lemma {:induction false} RunKept(r: Run, eval: Eval, n: nat)
    requires IsRun(r, eval) && n < |r.states|
    ensures Kept(r.states[n].del)
  {
    if n > 0 {
      RunKept(r, eval, n - 1);
      KeptStep(r.states[n - 1], r.events[n - 1], r.states[n], eval);
    }
  }

  /** In every reachable state every worker has at most ten jobs, all of types it offered, and a full duration history for
      exactly the offered types; and the count of workers is their number. */
  lemma WorkersInBounds(r: Run, eval: Eval, n: nat)
    requires IsRun(r, eval) && n < |r.states|
    ensures var s := r.states[n].del;
            && s.workerCount == |s.workers|
            && forall id | id in s.workers ::
                 var w := s.workers[id];
                 && |w.workInProgress| <= MAX_JOBS
                 && (forall j | j in w.workInProgress :: w.first <= w.workInProgress[j].typ < w.second)
                 && (forall t :: t in w.times <==> w.first <= t < w.second)
                 && (forall t | t in w.times :: |w.times[t]| == HISTORY)
  {
    RunKeeps(r, eval, n);
    RunKept(r, eval, n);
    var s := r.states[n].del;
    assert WorkersOk(s.workers);
    forall id | id in s.workers
      ensures WorkerOk(s.workers[id]) && Full(s.workers[id])
    {
    }
    hide Placed, Accounted, SystemInv;
  }

  /** In every reachable state the books of every pending request balance: each slot is empty with a job of its type
      outstanding, or holds the right answer, and both kinds together are all its slots. */
  lemma BooksBalance(r: Run, eval: Eval, n: nat, id: string)
    requires IsRun(r, eval) && n < |r.states| && id in r.states[n].del.requests
    ensures var (s, q) := (r.states[n].del, r.states[n].del.requests[id]);
            var types := InTypeOrder(q.jobTypes);
            && q.nDone + |OfRequest(Outstanding(s), id)| == |types| == |q.results|
            && forall i | 0 <= i < |types| ::
                 if Open(Outstanding(s), id, i)
                 then q.results[i] == ""
                      && forall j | j in OfRequest(Outstanding(s), id) && j.requesterIndex == i :: j.typ == types[i]
                 else q.results[i] == OnData(eval)(types[i], q.data)
  {
    RunKeeps(r, eval, n);
    var (s, q) := (r.states[n].del, r.states[n].del.requests[id]);
    assert RequestOk(id, q, Outstanding(s), OnData(eval));
    forall j | j in OfRequest(Outstanding(s), id)
      ensures JobOk(j, s.requests, s.nextJobId)
    {
    }
    hide SystemInv, DelegatorInv, Placed, Outstanding, OnData, InTypeOrder;
  }

  ghost predicate QueuedAt(s: State, id: string, i: nat) { i < |s.jobQueue| && s.jobQueue[i].id == id }

  ghost predicate HeldBy(s: State, id: string, w: string) { w in s.workers && id in s.workers[w].workInProgress }

  /** And every outstanding job is once in the queue, or with one worker, and not both. */
  lemma EachJobOnce(r: Run, eval: Eval, n: nat, j: Job)
    requires IsRun(r, eval) && n < |r.states| && j in Outstanding(r.states[n].del)
    ensures var s := r.states[n].del;
            && (exists i :: QueuedAt(s, j.id, i)) != (exists w :: HeldBy(s, j.id, w))
            && (forall i, k | QueuedAt(s, j.id, i) && QueuedAt(s, j.id, k) :: i == k)
            && (forall w, v | HeldBy(s, j.id, w) && HeldBy(s, j.id, v) :: w == v)
  {
    RunKeeps(r, eval, n);
    hide IsRun, Accounted, Outstanding;
    SomePlace(r.states[n].del, j);
    OnlyPlace(r.states[n].del, j.id);
  }

  lemma SomePlace(s: State, j: Job)
    requires WorkersOk(s.workers) && j in Outstanding(s)
    ensures (exists i :: QueuedAt(s, j.id, i)) || exists w :: HeldBy(s, j.id, w)
  {
    if j in HeldJobs(s.workers) {
      var w, id :| w in s.workers && id in s.workers[w].workInProgress && Core(s.workers[w].workInProgress[id]) == j;
      assert WorkerOk(s.workers[w]);
      assert HeldBy(s, j.id, w);
    } else {
      var i: nat :| i < |s.jobQueue| && Core(s.jobQueue[i]) == j;
      assert QueuedAt(s, j.id, i);
    }
  }

  lemma OnlyPlace(s: State, id: string)
    requires Placed(s)
    ensures forall i: nat, w | QueuedAt(s, id, i) :: !HeldBy(s, id, w)
    ensures forall i, k | QueuedAt(s, id, i) && QueuedAt(s, id, k) :: i == k
    ensures forall w, v | HeldBy(s, id, w) && HeldBy(s, id, v) :: w == v
  {
    forall i: nat, w | QueuedAt(s, id, i)
      ensures !HeldBy(s, id, w)
    {
      assert s.jobQueue[i] in s.jobQueue;
    }
  }

  // -------------------------------------------------- what workers are promised

  /** The job names on a link, in its JOB and RESULT messages. */
  function LinkNames(link: seq<Message>): (names: seq<string>)
    requires forall m | m in link :: (m.subject == JOB ==> |m.data| >= 2) && (m.subject == RESULT ==> |m.data| >= 1)
  {
    if link == [] then [] else
      (match link[0].subject
       case JOB => [link[0].data[1]]
       case RESULT => [link[0].data[0]]
       case _ => []) + LinkNames(link[1..])
  }

  function HandNames(h: Hand): seq<string> { if h.Busy? then [h.job] else [] }

  /** All job names between the delegator's socket and the results that come back to it. */
  ghost function Names(p: Peer): seq<string>
    requires Shaped(p)
  {
    LinkNames(p.toWorker) + LinkNames(p.feeder.queue) + LinkNames(p.toMinion) + HandNames(p.hand)
    + LinkNames(p.fromMinion) + LinkNames(p.fromWorker)
  }

  lemma {:induction false} LinkNamesCount(link: seq<Message>, id: string)
    requires forall m | m in link :: (m.subject == JOB ==> |m.data| >= 2) && (m.subject == RESULT ==> |m.data| >= 1)
    ensures multiset(LinkNames(link))[id] == LinkCount(link, Named(id))
  {
    if link != [] {
      LinkNamesCount(link[1..], id);
    }
  }

  lemma NamesCount(p: Peer, id: string)
    requires Shaped(p)
    ensures multiset(Names(p))[id] == Count(p, Named(id))
  {
    LinkNamesCount(p.toWorker, id);
    LinkNamesCount(p.feeder.queue, id);
    LinkNamesCount(p.toMinion, id);
    LinkNamesCount(p.fromMinion, id);
    LinkNamesCount(p.fromWorker, id);
    hide LinkNames, LinkCount;
  }

  lemma OnceEach(names: seq<string>, i: nat, j: nat)
    requires i < j < |names| && multiset(names)[names[i]] <= 1
    ensures names[i] != names[j]
  {
    assert names == names[..j] + [names[j]] + names[j + 1..];
    assert names[i] == names[..j][i] && names[..j][i] in names[..j];
  }

  /** In every reachable state the job names in a connected worker's pipeline, on the link to it, in its queue, at its minion
      and in results on their way back, are pairwise distinct and all in progress with it. */
  lemma PipelineNamesInProgress(r: Run, eval: Eval, n: nat, w: string)
    requires IsRun(r, eval) && n < |r.states| && w in r.states[n].del.workers
    ensures var s := r.states[n];
            && w in s.peers && Shaped(s.peers[w])
            && var names := Names(s.peers[w]);
               && (forall i, j | 0 <= i < j < |names| :: names[i] != names[j])
               && (forall id | id in names :: id in s.del.workers[w].workInProgress)
  {
    RunKeeps(r, eval, n);
    var s := r.states[n];
    assert PeerInv(s.del, w, s.peers[w], eval);
    hide IsRun, SystemInv, DelegatorInv, PeerInv, Names, Shaped;
    PipelineNames(s.del, w, s.peers[w], eval);
  }

  lemma PipelineNames(del: State, w: string, p: Peer, eval: Eval)
    requires PeerInv(del, w, p, eval) && w in del.workers
    ensures Shaped(p)
    ensures var names := Names(p);
            && (forall i, j | 0 <= i < j < |names| :: names[i] != names[j])
            && (forall id | id in names :: id in del.workers[w].workInProgress)
  {
    var names := Names(p);
    hide Names, Shaped, Count, PeerGood;
    forall id | id in names
      ensures id in del.workers[w].workInProgress && multiset(names)[id] <= 1
    {
      NamesCount(p, id);
      NamesAreKnown(del, w, p, eval, id);
    }
    forall i, j | 0 <= i < j < |names|
      ensures names[i] != names[j]
    {
      OnceEach(names, i, j);
    }
  }

  // --------------------------------------------------------- recorded durations

  /** The duration that an event records for a worker and a type, if it does. */
  ghost function Measured(s: System, e: Event, w: string, t: nat): seq<nat> {
    if e.FromWorker? && e.w == w && w in s.peers && e.i < |s.peers[w].fromWorker| && w in s.del.workers then
      var m := s.peers[w].fromWorker[e.i];
      var rec := s.del.workers[w];
      if m.subject == RESULT && m.data != [] && m.data[0] in rec.workInProgress && rec.workInProgress[m.data[0]].typ == t
      then [Duration(rec, m.data[0], e.now) % UINT_RANGE] else []
    else []
  }

  /** All of them, since the worker last connected. */
  ghost function Recorded(r: Run, n: nat, w: string, t: nat): seq<nat>
    requires n < |r.states| == |r.events| + 1
  {
    if n == 0 || w !in r.states[n - 1].del.workers then [] else
      Recorded(r, n - 1, w, t) + Measured(r.states[n - 1], r.events[n - 1], w, t)
  }

  lemma {:induction false} PollKeepsTimes(s: State, i: nat, now: int, w: string)
    requires PollReady(s) && w in s.workers
    ensures var s' := PollFrom(s, i, now).0;
            w in s'.workers && s'.workers[w].times == s.workers[w].times
    decreases |s.jobQueue| - i
  {
    hide WorkersOk, QueueKnown, QueueFresh, DistinctIds, BestAmong;
    if i < |s.jobQueue| {
      match BestWorker(s.workers, s.jobQueue[i].typ, MAX_JOBS) {
        case None => PollKeepsTimes(s, i + 1, now, w);
        case Some(v) =>
          DispatchReadyHere(s, i, v, now);
          PollKeepsTimes(Dispatch(s, i, v, now), i, now, w);
      }
    }
  }

  lemma {:induction false} PollKeepsWorkers(s: State, i: nat, now: int, w: string)
    requires PollReady(s) && w !in s.workers
    ensures w !in PollFrom(s, i, now).0.workers
    decreases |s.jobQueue| - i
  {
    hide WorkersOk, QueueKnown, QueueFresh, DistinctIds, BestAmong;
    if i < |s.jobQueue| {
      match BestWorker(s.workers, s.jobQueue[i].typ, MAX_JOBS) {
        case None => PollKeepsWorkers(s, i + 1, now, w);
        case Some(v) =>
          DispatchReadyHere(s, i, v, now);
          PollKeepsWorkers(Dispatch(s, i, v, now), i, now, w);
      }
    }
  }

  /** What one step does to a worker's history for a type: nothing, or one more duration, or a fresh start. */
  ghost predicate HistoryMoves(before: State, after: State, w: string, t: nat, measured: seq<nat>) {
    w in after.workers && t in after.workers[w].times ==>
      if w !in before.workers then after.workers[w].times[t] == Filled<nat>(0, HISTORY)
      else && t in before.workers[w].times && |measured| <= 1
           && after.workers[w].times[t]
              == if measured == [] then before.workers[w].times[t]
                 else Push<nat>(before.workers[w].times[t], measured[0], HISTORY)
  }

  lemma ReadMoves(s: System, v: string, i: nat, now: int, s': System, eval: Eval, w: string, t: nat)
    requires Step(s, FromWorker(v, i, now), s', eval)
    ensures HistoryMoves(s.del, s'.del, w, t, Measured(s, FromWorker(v, i, now), w, t))
  {
    hide OfferedRange, RouterIn, Routed, Without, DisconnectWorker;
    var m := s.peers[v].fromWorker[i];
    match m.subject {
      case HELLO =>
      case RESULT => ResultMoves(s.del, v, m.data[0], m.data[1], now, w, t);
      case GOODBYE => DisconnectMoves(s.del, v, w, t);
      case _ =>
    }
  }

  lemma ResultMoves(s: State, v: string, jobID: string, value: string, now: int, w: string, t: nat)
    requires ResultExpected(s, v, jobID)
    ensures var measured: seq<nat> := if v == w && w in s.workers && s.workers[w].workInProgress[jobID].typ == t
                            then [Duration(s.workers[w], jobID, now) % UINT_RANGE] else [];
            HistoryMoves(s, ReceiveResult(s, v, jobID, value, now).0, w, t, measured)
  {
    hide Push, Duration;
    if v in s.workers {
      var (s', rec, j) := (ReceiveResult(s, v, jobID, value, now).0, s.workers[v], s.workers[v].workInProgress[jobID]);
      assert s'.workers == s.workers[v := FinishJob(rec, jobID, now)];
      var usecs: nat := Duration(rec, jobID, now) % UINT_RANGE;
      assert FinishJob(rec, jobID, now).times == rec.times[j.typ := Push<nat>(rec.times[j.typ], usecs, HISTORY)];
      hide ReceiveResult, FinishJob;
    }
  }

  lemma EventMoves(s: System, e: Event, s': System, eval: Eval, w: string, t: nat)
    requires Step(s, e, s', eval)
    ensures HistoryMoves(s.del, s'.del, w, t, Measured(s, e, w, t))
  {
    hide HistoryMoves, PollReady, AllParse, ResultExpected, ReceiveRequest, OnPoll, DisconnectWorker;
    if e.FromWorker? {
      hide Step, Measured;
      ReadMoves(s, e.w, e.i, e.now, s', eval, w, t);
    } else if e.Poll? {
      PollMoves(s.del, e.now, w, t);
    } else if e.Timeout? {
      DisconnectMoves(s.del, e.w, w, t);
    } else {
      if e.Admit? {
        var m := RouterIn(s.reqIn[e.i].0, s.reqIn[e.i].1);
        RequestMoves(s.del, m.address, TypeStrings(m), m.data[1]);
      }
      NothingMoves(s.del, s'.del, w, t);
    }
  }

  lemma NothingMoves(before: State, after: State, w: string, t: nat)
    requires after.workers == before.workers
    ensures HistoryMoves(before, after, w, t, [])
  {
  }

  lemma RequestMoves(s: State, address: Address, typeStrs: set<string>, data: string)
    requires address != [] && AllParse(typeStrs)
    ensures ReceiveRequest(s, address, typeStrs, data).workers == s.workers
  {
  }

  lemma DisconnectMoves(s: State, v: string, w: string, t: nat)
    ensures HistoryMoves(s, DisconnectWorker(s, v), w, t, [])
  {
    hide Requeued;
  }

  lemma PollMoves(s: State, now: int, w: string, t: nat)
    requires PollReady(s)
    ensures HistoryMoves(s, OnPoll(s, now).0, w, t, [])
  {
    hide PollReady;
    if w in s.workers {
      PollKeepsTimes(s, 0, now, w);
    } else {
      PollKeepsWorkers(s, 0, now, w);
    }
  }

  lemma WindowGrows(recorded: seq<nat>, measured: seq<nat>)
    requires |measured| <= 1
    ensures Window<nat>(0, recorded + measured, HISTORY)
            == if measured == [] then Window<nat>(0, recorded, HISTORY) else Push<nat>(Window<nat>(0, recorded, HISTORY), measured[0], HISTORY)
  {
    if measured == [] {
      assert recorded + measured == recorded;
    } else {
      PushAllIsWindow<nat>(0, recorded, HISTORY);
      PushAllIsWindow<nat>(0, recorded + measured, HISTORY);
      assert (recorded + measured)[..|recorded|] == recorded;
      hide Push, Window;
    }
  }

  lemma NothingRecorded()
    ensures Window<nat>(0, [], HISTORY) == Filled<nat>(0, HISTORY)
  {
  }

  /** In every reachable state a worker's history for a type is exactly its last ten durations recorded for that type since
      it connected, with zeros before them while there are fewer. */
  lemma {:induction false} HistoryIsWindow(r: Run, eval: Eval, n: nat, w: string, t: nat)
    requires IsRun(r, eval) && n < |r.states|
    decreases n
    ensures var s := r.states[n].del;
            w in s.workers && t in s.workers[w].times ==> s.workers[w].times[t] == Window<nat>(0, Recorded(r, n, w, t), HISTORY)
  {
    hide Window, Push, Measured, Step, HistoryMoves;
    if n == 0 {
      assert r.states[0].del.workers == map[];
    } else {
      var (s, e) := (r.states[n - 1], r.events[n - 1]);
      assert Step(s, e, r.states[n], eval);
      HistoryIsWindow(r, eval, n - 1, w, t);
      EventMoves(s, e, r.states[n], eval, w, t);
      hide IsRun, Init;
      MovedWindow(s.del, r.states[n].del, w, t, Measured(s, e, w, t), Recorded(r, n - 1, w, t), Recorded(r, n, w, t));
    }
  }

  lemma MovedWindow(before: State, after: State, w: string, t: nat, measured: seq<nat>, earlier: seq<nat>, recorded: seq<nat>)
    requires HistoryMoves(before, after, w, t, measured)
    requires recorded == if w in before.workers then earlier + measured else []
    requires w in before.workers && t in before.workers[w].times ==> before.workers[w].times[t] == Window<nat>(0, earlier, HISTORY)
    ensures w in after.workers && t in after.workers[w].times ==> after.workers[w].times[t] == Window<nat>(0, recorded, HISTORY)
  {
    hide Window, Push, Filled;
    NothingRecorded();
    if |measured| <= 1 {
      WindowGrows(earlier, measured);
    }
  }

  // ---------------------------------------------------------- what is measured

  /** The estimate for a type is the floor of the mean of its ten durations exactly when their sum fits in 32 bits. */
  lemma EstimateIsMeanIff(w: DelegatorStates.Worker, typ: nat)
    requires typ in w.times
    ensures TimeForJob(w, typ) == Total(w.times[typ]) / HISTORY <==> Total(w.times[typ]) < UINT_RANGE
  {
    var total := Total(w.times[typ]);
    if total >= UINT_RANGE {
      assert total % UINT_RANGE <= total - UINT_RANGE;
    }
  }

  /** The range that a HELLO offers is half-open: its upper end is the first type that the worker is not given. */
  lemma OfferIsHalfOpen(first: nat, second: nat, nJobTypes: nat, address: Address, now: int, typ: nat)
    requires first <= INT_MAX && second <= INT_MAX
    ensures var range := OfferedRange(Hello(Some((first, second))).data[0], nJobTypes);
            && range == Some((first, second))
            && (Eligible(NewWorker(address, first, second, now), typ, MAX_JOBS) <==> first <= typ < second)
  {
    OfferRoundTrip(first, second);
  }

  /** A HELLO that offers nothing in particular offers all the types there are. */
  lemma DefaultOffer(nJobTypes: nat, address: Address, now: int, typ: nat)
    ensures var range := OfferedRange(Hello(None).data[0], nJobTypes);
            && range.Some?
            && (Eligible(NewWorker(address, range.value.0, range.value.1, now), typ, MAX_JOBS) <==> typ < nJobTypes)
  {
  }
}
