/** Every handler of the delegator keeps the pipeline invariant. */
module PipelineHandlers {
  import opened Text
  import opened Messages
  import opened Ordering
  import opened Requesters
  import opened DelegatorStates
  import opened Accounting
  import opened Placement
  import opened Workers
  import opened Protocol
  import opened Pipeline
  import opened PipelineSteps

  /** A change that only looks at other workers, and keeps what is known of all jobs that stay. */
  lemma PipelinesKept(del: State, del': State, peers: map<string, Peer>, eval: Eval)
    requires Pipelines(del, peers, eval)
    requires forall w | w in del'.workers :: w in del.workers && del'.workers[w].address == del.workers[w].address
    requires forall w, id | w in del'.workers :: StillKnown(del, del', w, id)
    ensures Pipelines(del', peers, eval)
  {
    forall w | w in peers
      ensures PeerInv(del', w, peers[w], eval)
    {
      if w in del'.workers {
        assert AllStillKnown(del, del', w, peers[w]);
      }
      PeerKept(del, del', w, peers[w], eval);
    }
  }

  // ------------------------------------------------------------ one peer moves

  /** A step inside one worker's pipeline. */
  lemma OnePeer(del: State, peers: map<string, Peer>, w: string, p: Peer, eval: Eval)
    requires Pipelines(del, peers, eval) && PeerInv(del, w, p, eval)
    ensures Pipelines(del, peers[w := p], eval)
  {
  }

  // --------------------------------------------------------- REQUEST and GOODBYE

  lemma RequestPipelines(del: State, address: Address, typeStrs: set<string>, data: string, peers: map<string, Peer>, eval: Eval)
    requires Pipelines(del, peers, eval) && address != [] && AllParse(typeStrs)
    ensures Pipelines(ReceiveRequest(del, address, typeStrs, data), peers, eval)
  {
    var del' := ReceiveRequest(del, address, typeStrs, data);
    RequestView(del, address, typeStrs, data);
    hide ReceiveRequest, Pipelines;
    PipelinesKept(del, del', peers, eval);
  }

  lemma RequestView(del: State, address: Address, typeStrs: set<string>, data: string)
    requires address != [] && AllParse(typeStrs)
    ensures var del' := ReceiveRequest(del, address, typeStrs, data);
            && del'.workers == del.workers
            && forall w, id | w in del'.workers :: StillKnown(del, del', w, id)
  {
    hide NewJobs, NewRequest, AllParse, ParsedTypes, InTypeOrder, Join;
  }

  lemma DisconnectPipelines(del: State, worker: string, peers: map<string, Peer>, eval: Eval)
    requires Pipelines(del, peers, eval)
    ensures Pipelines(DisconnectWorker(del, worker), peers, eval)
  {
    PipelinesKept(del, DisconnectWorker(del, worker), peers, eval);
  }

  // -------------------------------------------------------------------- HELLO

  /** A worker that greets has an empty pipeline, so connecting it promises nothing yet. */
  lemma ConnectPipelines(del: State, w: string, first: nat, second: nat, now: int, peers: map<string, Peer>, p: Peer, eval: Eval)
    requires Pipelines(del, peers, eval) && w in peers && w !in del.workers
    requires Shaped(p) && forall t :: Count(p, t) == 0
    ensures Pipelines(ConnectWorker(del, w, NewWorker([w], first, second, now)), peers[w := p], eval)
  {
    var rec := NewWorker([w], first, second, now);
    var del' := ConnectWorker(del, w, rec);
    assert rec.address == [w];
    hide NewWorker, Count, Shaped, AllStillKnown, PeerInv;
    NothingMentioned(del', w, p, eval);
    forall v | v in peers && v != w
      ensures PeerInv(del', v, peers[v], eval)
    {
      assert PeerInv(del, v, peers[v], eval);
      ConnectOthers(del, w, rec, v, peers[v]);
      hide ConnectWorker, Pipelines;
      ConnectedBefore(del, w, rec, v);
      PeerKept(del, del', v, peers[v], eval);
    }
  }

  lemma ConnectedBefore(del: State, w: string, rec: DelegatorStates.Worker, v: string)
    requires w !in del.workers && v != w
    ensures v in ConnectWorker(del, w, rec).workers ==> v in del.workers
  {
  }

  lemma ConnectOthers(del: State, w: string, rec: DelegatorStates.Worker, v: string, p: Peer)
    requires w !in del.workers && v != w
    ensures AllStillKnown(del, ConnectWorker(del, w, rec), v, p)
  {
  }

  lemma NothingMentioned(del: State, w: string, p: Peer, eval: Eval)
    requires Shaped(p) && forall t :: Count(p, t) == 0
    ensures PeerInv(del, w, p, eval)
  {
    NoNames(del, w, p.toWorker, p, eval);
    NoNames(del, w, p.feeder.queue, p, eval);
    NoNames(del, w, p.toMinion, p, eval);
    NoNames(del, w, p.fromMinion, p, eval);
    NoNames(del, w, p.fromWorker, p, eval);
    if p.hand.Busy? {
      assert Count(p, Named(p.hand.job)) == 0;
    }
  }

  lemma NoNames(del: State, w: string, link: seq<Message>, p: Peer, eval: Eval)
    requires forall t :: LinkCount(link, t) <= Count(p, t) == 0
    requires forall m | m in link :: JobShaped(m) || BackShaped(m)
    ensures LinkGood(del, w, link, eval)
  {
    forall m | m in link
      ensures m.subject != JOB && m.subject != RESULT
    {
      assert JobShaped(m) || BackShaped(m);
      if m.subject == JOB {
        LinkCountHas(link, m, Named(m.data[1]));
      }
      if m.subject == RESULT {
        LinkCountHas(link, m, Named(m.data[0]));
      }
    }
  }

  // ------------------------------------------------------------------- RESULT

  /** A connected worker's RESULT names a job it holds and carries the right answer: the source's look-ups find it. */
  lemma ResultIsRight(del: State, w: string, p: Peer, m: Message, eval: Eval)
    requires PeerInv(del, w, p, eval) && w in del.workers && m in p.fromWorker && m.subject == RESULT
    ensures RightResult(del, w, m.data[0], m.data[1], OnData(eval))
  {
  }

  /** After a result is entered, everything else is known as before. */
  lemma RightWorker(del: State, w: string, jobID: string, value: string, f: Likelihood)
    requires RightResult(del, w, jobID, value, f)
    ensures w in del.workers
  {
  }

  lemma OthersStillKnown(del: State, w: string, jobID: string, value: string, now: int, v: string, id: string, f: Likelihood)
    requires DelegatorInv(del, f) && RightResult(del, w, jobID, value, f)
    requires v != w || id != jobID
    ensures ResultExpected(del, w, jobID)
    ensures StillKnown(del, ReceiveResult(del, w, jobID, value, now).0, v, id)
  {
    hide DelegatorInv, RightResult, ReceiveResult, Answers;
    ResultKeeps(del, w, jobID, value, now, f);
    var del' := ReceiveResult(del, w, jobID, value, now).0;
    if Known(del, v, id) {
      RightWorker(del, w, jobID, value, f);
      ResultView(del, w, jobID, value, now, v, id);
      KnownRequestStays(del', v, id, f);
    }
  }

  /** Entering a result changes no other job and no request's data. */
  lemma ResultView(del: State, w: string, jobID: string, value: string, now: int, v: string, id: string)
    requires w in del.workers && ResultExpected(del, w, jobID)
    requires v in del.workers && id in del.workers[v].workInProgress && (v != w || id != jobID)
    ensures var del' := ReceiveResult(del, w, jobID, value, now).0;
            && v in del'.workers && id in del'.workers[v].workInProgress
            && del'.workers[v].workInProgress[id] == del.workers[v].workInProgress[id]
            && (forall k | k in del'.requests :: k in del.requests && del'.requests[k].data == del.requests[k].data)
  {
  }

  lemma KnownRequestStays(del: State, v: string, id: string, f: Likelihood)
    requires DelegatorInv(del, f) && v in del.workers && id in del.workers[v].workInProgress
    ensures Known(del, v, id)
  {
    HeldHas(del.workers, v, id);
    var j := Core(del.workers[v].workInProgress[id]);
    assert j in Outstanding(del);
    assert JobOk(j, del.requests, del.nextJobId);
  }

  lemma ResultPipelines(del: State, w: string, i: nat, m: Message, now: int, peers: map<string, Peer>, eval: Eval)
    requires DelegatorInv(del, OnData(eval)) && Pipelines(del, peers, eval)
    requires w in del.workers && w in peers && i < |peers[w].fromWorker| && peers[w].fromWorker[i] == m
    requires m.subject == RESULT && |m.data| == 2
    ensures RightResult(del, w, m.data[0], m.data[1], OnData(eval)) && ResultExpected(del, w, m.data[0])
    ensures Pipelines(ReceiveResult(del, w, m.data[0], m.data[1], now).0,
                      peers[w := peers[w].(fromWorker := Without(peers[w].fromWorker, i))], eval)
  {
    var p := peers[w];
    assert m in p.fromWorker;
    assert PeerInv(del, w, p, eval);
    ResultIsRight(del, w, p, m, eval);
    ReadOnce(p, i, m.data[0]);
    hide DelegatorInv, PeerInv, RightResult, Count, Without;
    ResultKeeps(del, w, m.data[0], m.data[1], now, OnData(eval));
    LoseFromWorkerKeeps(del, w, p, i, eval);
    hide ResultExpected, ReceiveResult;
    ResultAllPeers(del, w, m.data[0], m.data[1], now, peers, p.(fromWorker := Without(p.fromWorker, i)), eval);
  }

  lemma ReadOnce(p: Peer, i: nat, id: string)
    requires Once(p) && i < |p.fromWorker|
    requires p.fromWorker[i].subject == RESULT && |p.fromWorker[i].data| == 2 && p.fromWorker[i].data[0] == id
    ensures Count(p.(fromWorker := Without(p.fromWorker, i)), Named(id)) == 0
  {
    LinkCountWithout(p.fromWorker, i, Named(id));
    assert Count(p, Named(id)) <= 1;
  }

  lemma ResultAllPeers(del: State, w: string, jobID: string, value: string, now: int,
                       peers: map<string, Peer>, p': Peer, eval: Eval)
    requires DelegatorInv(del, OnData(eval)) && RightResult(del, w, jobID, value, OnData(eval))
    requires ResultExpected(del, w, jobID) && w in del.workers
    requires Pipelines(del, peers, eval) && PeerInv(del, w, p', eval) && Count(p', Named(jobID)) == 0
    ensures Pipelines(ReceiveResult(del, w, jobID, value, now).0, peers[w := p'], eval)
  {
    hide DelegatorInv, PeerInv, RightResult, Count;
    var del' := ReceiveResult(del, w, jobID, value, now).0;
    ResultAddresses(del, w, jobID, value, now);
    hide ResultExpected, ReceiveResult;
    forall v | v in peers || v == w
      ensures PeerInv(del', v, if v == w then p' else peers[v], eval)
    {
      ResultPeer(del, w, jobID, value, now, v, if v == w then p' else peers[v], eval);
    }
  }

  lemma ResultAddresses(del: State, w: string, jobID: string, value: string, now: int)
    requires w in del.workers && ResultExpected(del, w, jobID)
    ensures var del' := ReceiveResult(del, w, jobID, value, now).0;
            && del'.workers.Keys == del.workers.Keys
            && forall v | v in del.workers :: del'.workers[v].address == del.workers[v].address
  {
  }

  lemma ResultPeer(del: State, w: string, jobID: string, value: string, now: int, v: string, p: Peer, eval: Eval)
    requires DelegatorInv(del, OnData(eval)) && RightResult(del, w, jobID, value, OnData(eval))
    requires ResultExpected(del, w, jobID)
    requires PeerInv(del, v, p, eval) && (v == w ==> Count(p, Named(jobID)) == 0)
    ensures PeerInv(ReceiveResult(del, w, jobID, value, now).0, v, p, eval)
  {
    var del' := ReceiveResult(del, w, jobID, value, now).0;
    if v in del.workers {
      forall id | Count(p, Named(id)) > 0
        ensures StillKnown(del, del', v, id)
      {
        OthersStillKnown(del, w, jobID, value, now, v, id, OnData(eval));
      }
      assert AllStillKnown(del, del', v, p);
    }
    hide DelegatorInv, RightResult, ResultExpected, Shaped, PeerGood, Count, StillKnown;
    PeerKept(del, del', v, p, eval);
  }

  // --------------------------------------------------------------------- poll

  ghost predicate TypesFit(del: State) {
    forall id | id in del.requests :: forall t | t in del.requests[id].jobTypes :: t <= INT_MAX
  }

  /** What a dispatched job looks like on the wire. */
  lemma DispatchedJob(del: State, i: nat, w: string, now: int, f: Likelihood)
    requires DelegatorInv(del, f) && PollReady(del) && TypesFit(del)
    requires i < |del.jobQueue| && w in del.workers && del.workers[w].address == [w]
    requires del.jobQueue[i].requesterID in del.requests
    ensures var j := del.jobQueue[i];
            var (to, m) := RouterOut(JobMessage(del.workers[w], j, del.requests[j.requesterID].data));
            && to == w && JobShaped(m) && m.data[1] == j.id
            && JobGood(Dispatch(del, i, w, now), w, m)
            && !Known(del, w, j.id)
  {
    var j := del.jobQueue[i];
    assert j in del.jobQueue;
    QueuedType(del, i, f);
    StoIRoundTrip(j.typ);
    NotHeld(del, i, w);
    hide DelegatorInv, PollReady, TypesFit, Placed, Accounted;
    DispatchedGood(del, i, w, now);
  }

  lemma QueuedType(del: State, i: nat, f: Likelihood)
    requires DelegatorInv(del, f) && TypesFit(del) && i < |del.jobQueue| && del.jobQueue[i].requesterID in del.requests
    ensures del.jobQueue[i].typ <= INT_MAX
  {
    var j := del.jobQueue[i];
    assert j in del.jobQueue;
    assert Core(j) in Outstanding(del);
    assert JobOk(Core(j), del.requests, del.nextJobId);
    hide Placed, Accounted, Outstanding, InTypeOrder;
    assert j.typ in InTypeOrder(del.requests[j.requesterID].jobTypes);
  }

  lemma NotHeld(del: State, i: nat, w: string)
    requires QueueFresh(del) && i < |del.jobQueue| && w in del.workers
    ensures del.jobQueue[i].id !in del.workers[w].workInProgress
  {
    assert del.jobQueue[i] in del.jobQueue;
  }

  lemma DispatchedGood(del: State, i: nat, w: string, now: int)
    requires i < |del.jobQueue| && w in del.workers && del.workers[w].address == [w]
    requires del.jobQueue[i].requesterID in del.requests && StoI(ToString(del.jobQueue[i].typ)) == Some(del.jobQueue[i].typ)
    ensures var j := del.jobQueue[i];
            var (to, m) := RouterOut(JobMessage(del.workers[w], j, del.requests[j.requesterID].data));
            to == w && JobShaped(m) && m.data[1] == j.id && JobGood(Dispatch(del, i, w, now), w, m)
  {
    hide StoI, ToString;
  }

  lemma DispatchPipelines(del: State, i: nat, w: string, now: int, peers: map<string, Peer>, eval: Eval)
    requires DelegatorInv(del, OnData(eval)) && PollReady(del) && TypesFit(del) && Pipelines(del, peers, eval)
    requires i < |del.jobQueue| && w in del.workers && del.jobQueue[i].requesterID in del.requests
    ensures var j := del.jobQueue[i];
            var m := JobMessage(del.workers[w], j, del.requests[j.requesterID].data);
            m.address != [] && Pipelines(Dispatch(del, i, w, now), Forwarded(peers, m), eval)
  {
    var j := del.jobQueue[i];
    var full := JobMessage(del.workers[w], j, del.requests[j.requesterID].data);
    var (to, m) := RouterOut(full);
    var del' := Dispatch(del, i, w, now);
    DispatchedJob(del, i, w, now, OnData(eval));
    assert w in peers && PeerInv(del, w, peers[w], eval);
    NotMentioned(del, w, peers[w], eval, j.id);
    DispatchStillKnown(del, i, w, now);
    DispatchAddresses(del, i, w, now);
    hide JobGood, JobShaped, Count, PeerInv, DelegatorInv, PollReady, TypesFit, Known, StillKnown, Dispatch, JobMessage;
    PipelinesKept(del, del', peers, eval);
    SentKeeps(del', w, peers[w], m, eval);
    OnePeer(del', peers, w, peers[w].(toWorker := peers[w].toWorker + [m]), eval);
  }

  lemma DispatchAddresses(del: State, i: nat, w: string, now: int)
    requires i < |del.jobQueue| && w in del.workers
    ensures var del' := Dispatch(del, i, w, now);
            && del'.workers.Keys == del.workers.Keys
            && forall v | v in del.workers :: del'.workers[v].address == del.workers[v].address
  {
  }

  lemma NotMentioned(del: State, w: string, p: Peer, eval: Eval, id: string)
    requires w in del.workers && PeerInv(del, w, p, eval) && !Known(del, w, id)
    ensures Count(p, Named(id)) == 0
  {
    hide Count, Shaped, Once, OnlyGreeting, Known;
    if Count(p, Named(id)) > 0 {
      NamesAreKnown(del, w, p, eval, id);
    }
  }

  lemma DispatchStillKnown(del: State, i: nat, w: string, now: int)
    requires i < |del.jobQueue| && w in del.workers && !Known(del, w, del.jobQueue[i].id)
    ensures var del' := Dispatch(del, i, w, now);
            forall v, id | v in del'.workers :: StillKnown(del, del', v, id)
  {
  }

  /** A whole poll, with its messages put on the links. */
  lemma {:induction false} PollPipelines(del: State, i: nat, now: int, peers: map<string, Peer>, eval: Eval)
    requires DelegatorInv(del, OnData(eval)) && PollReady(del) && TypesFit(del) && Pipelines(del, peers, eval)
    ensures var (del', sent) := PollFrom(del, i, now);
            && (forall m | m in sent :: m.address != [])
            && Pipelines(del', ForwardedAll(peers, sent), eval)
            && ForwardedAll(peers, sent).Keys == peers.Keys
    decreases |del.jobQueue| - i
  {
    assert WorkersOk(del.workers) && QueueKnown(del);
    hide DelegatorInv, PollReady, Pipelines, TypesFit;
    if i < |del.jobQueue| {
      match BestWorker(del.workers, del.jobQueue[i].typ, MAX_JOBS) {
        case None => PollPipelines(del, i + 1, now, peers, eval);
        case Some(w) =>
          var j := del.jobQueue[i];
          assert j in del.jobQueue;
          var m := JobMessage(del.workers[w], j, del.requests[j.requesterID].data);
          var t := Dispatch(del, i, w, now);
          DispatchReady(del, i, w, now);
          DispatchPipelines(del, i, w, now, peers, eval);
          DispatchInv(del, i, w, now, OnData(eval));
          DispatchTypesFit(del, i, w, now);
          ForwardedKeys(del, peers, m, w, eval);
          var rest := PollFrom(t, i, now).1;
          assert PollFrom(del, i, now).1 == [m] + rest;
          hide PollFrom, Dispatch, Forwarded, BestWorker, WorkersOk;
          PollPipelines(t, i, now, Forwarded(peers, m), eval);
          assert ([m] + rest)[1..] == rest;
      }
    }
  }

  lemma DispatchTypesFit(del: State, i: nat, w: string, now: int)
    requires TypesFit(del) && i < |del.jobQueue| && w in del.workers
    ensures TypesFit(Dispatch(del, i, w, now))
  {
  }

  lemma ForwardedKeys(del: State, peers: map<string, Peer>, m: Message, w: string, eval: Eval)
    requires Pipelines(del, peers, eval) && w in del.workers && m.address == del.workers[w].address
    ensures m.address != [] && Forwarded(peers, m).Keys == peers.Keys
  {
  }

  lemma DispatchInv(del: State, i: nat, w: string, now: int, f: Likelihood)
    requires DelegatorInv(del, f) && i < |del.jobQueue| && w in del.workers
    requires Eligible(del.workers[w], del.jobQueue[i].typ, MAX_JOBS)
    ensures DelegatorInv(Dispatch(del, i, w, now), f)
  {
    hide Placed, Accounted, Outstanding;
    DispatchKeeps(del, i, w, now);
  }
}
