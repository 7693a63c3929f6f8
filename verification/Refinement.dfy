/** The theorem about the job protocol: in every run, under any interleaving, delay, reordering and loss of network
    messages, and any disconnection of workers, requesters see exactly a sequential map of the likelihood. */
module Refinement {
  import opened Text
  import opened Messages
  import opened Ordering
  import opened Requesters
  import opened DelegatorStates
  import opened Accounting
  import opened Placement
  import opened Workers
  import opened Protocol
  import opened Pipeline
  import opened PipelineSteps
  import opened PipelineHandlers
  import opened Batches

  ghost predicate SystemInv(s: System, eval: Eval) {
    && DelegatorInv(s.del, OnData(eval))
    && Pipelines(s.del, s.peers, eval)
    && BatchInv(s.asked, s.reqIn, s.reqOut, s.del.requests, eval)
  }

  lemma InitHolds(s: System, eval: Eval)
    requires Init(s)
    ensures SystemInv(s, eval)
  {
    assert Outstanding(s.del) == {};
  }

  // ------------------------------------------------------- the requesters' steps

  lemma TypesFitHere(s: System, eval: Eval)
    requires BatchInv(s.asked, s.reqIn, s.reqOut, s.del.requests, eval)
    ensures TypesFit(s.del)
  {
  }

  lemma RequestStep(s: System, i: nat, s': System, eval: Eval)
    requires SystemInv(s, eval) && Step(s, Admit(i), s', eval)
    ensures SystemInv(s', eval)
  {
    RequestIsNew(s.asked, s.reqIn, s.reqOut, s.del.requests, i, eval);
    var e := s.reqIn[i];
    RequestRead(s.asked, e);
    var m := RouterIn(e.0, e.1);
    var r := NewRequest(m.address, TypeStrings(m), m.data[1]);
    hide DelegatorInv, Pipelines, BatchInv, Asking;
    RequestKeeps(s.del, m.address, TypeStrings(m), m.data[1], OnData(eval));
    RequestPipelines(s.del, m.address, TypeStrings(m), m.data[1], s.peers, eval);
    AskedSample(s.asked, e);
    RequestBatches(s.asked, s.reqIn, s.reqOut, s.del.requests, i, r, eval);
  }

  lemma AskedSample(asked: map<Key, Batch>, e: (string, Message))
    requires Asking(asked, e)
    ensures e.1.address != [] && KeyOf(e) in asked && asked[KeyOf(e)].sample != []
  {
  }

  // ----------------------------------------------------------- the delegator reads

  lemma ReadHello(s: System, w: string, i: nat, now: int, s': System, eval: Eval)
    requires w in s.peers && i < |s.peers[w].fromWorker| && s.peers[w].fromWorker[i].subject == HELLO
    requires SystemInv(s, eval) && Step(s, FromWorker(w, i, now), s', eval)
    ensures SystemInv(s', eval)
  {
    var p := s.peers[w];
    var p' := p.(fromWorker := Without(p.fromWorker, i));
    assert PeerInv(s.del, w, p, eval);
    GreetingRead(s.del, w, p, i, eval);
    hide DelegatorInv, Pipelines, BatchInv, PeerInv, Count, Shaped;
    HelloConnects(s, w, i, now, s', eval);
    hide Step;
    var range := OfferedRange(p.fromWorker[i].data[0], s.nJobTypes).value;
    ConnectKeeps(s.del, w, [w], range.0, range.1, now, OnData(eval));
    ConnectPipelines(s.del, w, range.0, range.1, now, s.peers, p', eval);
  }

  /** What reading a HELLO of an unknown worker comes to. */
  lemma HelloConnects(s: System, w: string, i: nat, now: int, s': System, eval: Eval)
    requires w in s.peers && i < |s.peers[w].fromWorker| && w !in s.del.workers
    requires Step(s, FromWorker(w, i, now), s', eval)
    requires s.peers[w].fromWorker[i].subject == HELLO && s.peers[w].fromWorker[i].address == []
    ensures var p := s.peers[w];
            var m := p.fromWorker[i];
            && m.data != [] && OfferedRange(m.data[0], s.nJobTypes).Some?
            && var range := OfferedRange(m.data[0], s.nJobTypes).value;
               s' == s.(peers := s.peers[w := p.(fromWorker := Without(p.fromWorker, i))],
                        del := ConnectWorker(s.del, w, NewWorker([w], range.0, range.1, now)))
  {
    hide Without, OfferedRange, NewWorker, ConnectWorker;
    assert RouterIn(w, s.peers[w].fromWorker[i]).address == [w];
  }

  lemma GreetingRead(del: State, w: string, p: Peer, i: nat, eval: Eval)
    requires PeerInv(del, w, p, eval) && i < |p.fromWorker| && p.fromWorker[i].subject == HELLO
    ensures w !in del.workers && p.fromWorker[i].address == []
    ensures var p' := p.(fromWorker := Without(p.fromWorker, i));
            Shaped(p') && forall t :: Count(p', t) == 0
  {
    assert p.fromWorker[i] in p.fromWorker && BackShaped(p.fromWorker[i]);
    var p' := p.(fromWorker := Without(p.fromWorker, i));
    LinkCountWithout(p.fromWorker, i, Greeting);
    assert forall m | m in p'.fromWorker :: m in p.fromWorker;
    forall t
      ensures Count(p', t) == 0
    {
      LinkCountWithout(p.fromWorker, i, t);
      match t {
        case Greeting =>
        case Named(id) => assert Count(p, Named(id)) == 0;
      }
    }
  }

  lemma ReadResult(s: System, w: string, i: nat, now: int, s': System, eval: Eval)
    requires w in s.peers && i < |s.peers[w].fromWorker| && s.peers[w].fromWorker[i].subject == RESULT
    requires SystemInv(s, eval) && Step(s, FromWorker(w, i, now), s', eval)
    ensures SystemInv(s', eval)
  {
    var p := s.peers[w];
    var m := p.fromWorker[i];
    assert m in p.fromWorker;
    assert PeerInv(s.del, w, p, eval) && BackShaped(m);
    hide DelegatorInv, BatchInv, PeerInv, BackShaped;
    ResultReceived(s, w, i, now, s', eval);
    hide Step;
    if w in s.del.workers {
      hide Pipelines, ReceiveResult;
      ResultPipelines(s.del, w, i, m, now, s.peers, eval);
      ResultKeeps(s.del, w, m.data[0], m.data[1], now, OnData(eval));
      ResultBatches(s, w, m.data[0], m.data[1], now, eval);
    } else {
      GoodbyeRead(s, w, i, eval);
      NothingRouted(s.reqOut);
    }
  }

  lemma NothingRouted(link: seq<(string, Message)>)
    ensures link + Routed([]) == link
  {
  }

  /** What reading a RESULT comes to. */
  lemma ResultReceived(s: System, w: string, i: nat, now: int, s': System, eval: Eval)
    requires w in s.peers && i < |s.peers[w].fromWorker|
    requires Step(s, FromWorker(w, i, now), s', eval) && s.peers[w].fromWorker[i].subject == RESULT
    ensures var p := s.peers[w];
            var m := p.fromWorker[i];
            && |m.data| >= 2 && ResultExpected(s.del, w, m.data[0])
            && var (del', sent) := ReceiveResult(s.del, w, m.data[0], m.data[1], now);
               && (forall r | r in sent :: r.address != [])
               && s' == s.(peers := s.peers[w := p.(fromWorker := Without(p.fromWorker, i))], del := del',
                           reqOut := s.reqOut + Routed(sent))
  {
  }

  lemma ResultBatches(s: System, w: string, jobID: string, value: string, now: int, eval: Eval)
    requires BatchInv(s.asked, s.reqIn, s.reqOut, s.del.requests, eval)
    requires w in s.del.workers && RightResult(s.del, w, jobID, value, OnData(eval)) && ResultExpected(s.del, w, jobID)
    requires DelegatorInv(s.del, OnData(eval))
    ensures var (del', sent) := ReceiveResult(s.del, w, jobID, value, now);
            && (forall m | m in sent :: m.address != [])
            && BatchInv(s.asked, s.reqIn, s.reqOut + Routed(sent), del'.requests, eval)
  {
    var (del', sent) := ReceiveResult(s.del, w, jobID, value, now);
    ResultOutcome(s.del, w, jobID, value, now, OnData(eval));
    var id, r :| Outcome(s.del.requests, del'.requests, sent, id, r, OnData(eval));
    hide DelegatorInv, RightResult, ReceiveResult, BatchInv;
    OutcomeBatches(s, del'.requests, sent, id, r, eval);
  }

  /** What a result does to the requests: it fills a slot, or completes the request and answers it. */
  ghost predicate Outcome(requests: map<string, DelegatorStates.Request>, requests': map<string, DelegatorStates.Request>,
                          sent: seq<Message>, id: string, r: DelegatorStates.Request, f: Likelihood) {
    && id in requests && requests[id].address != []
    && r.address == requests[id].address && r.jobTypes == requests[id].jobTypes && r.data == requests[id].data
    && if sent == [] then requests' == requests[id := r]
       else sent == [Message(r.address, RESULT, Expected(r.jobTypes, r.data, f))] && requests' == requests - {id}
  }

  lemma ResultOutcome(del: State, w: string, jobID: string, value: string, now: int, f: Likelihood)
    requires DelegatorInv(del, f) && RightResult(del, w, jobID, value, f) && ResultExpected(del, w, jobID)
    ensures var (del', sent) := ReceiveResult(del, w, jobID, value, now);
            exists id, r :: Outcome(del.requests, del'.requests, sent, id, r, f)
  {
    var j := del.workers[w].workInProgress[jobID];
    var id := j.requesterID;
    var r := Answered(del.requests[id], j.requesterIndex, value);
    ResultUnderstood(del, w, jobID, value, f);
    RequestKey(id, del.requests[id], Outstanding(del), f);
    ResultKeeps(del, w, jobID, value, now, f);
    ReceivedRequests(del, w, jobID, value, now);
    var (del', sent) := ReceiveResult(del, w, jobID, value, now);
    hide DelegatorInv, RequestOk, JobOk, Outstanding, ReceiveResult, ResultExpected, RightResult, Outcome;
    AnsweredOutcome(del, del', sent, id, j.requesterIndex, value, r, f);
  }

  lemma AnsweredOutcome(del: State, del': State, sent: seq<Message>, id: string, index: nat, value: string,
                        r: DelegatorStates.Request, f: Likelihood)
    requires id in del.requests && index < |del.requests[id].results| && r == Answered(del.requests[id], index, value)
    requires del.requests[id].address != [] && Join(r.address, ':') == id && Answers(del, del', sent, f)
    requires if r.nDone == |r.jobTypes|
             then del'.requests == del.requests - {id} && sent == [Message(r.address, RESULT, r.results)]
             else del'.requests == del.requests[id := r] && sent == []
    ensures Outcome(del.requests, del'.requests, sent, id, r, f)
  {
    hide Join, Expected;
  }

  /** What a result does to the requests: its own gets the answer, and leaves when that was the last. */
  lemma ReceivedRequests(del: State, w: string, jobID: string, value: string, now: int)
    requires w in del.workers && ResultExpected(del, w, jobID)
    ensures var j := del.workers[w].workInProgress[jobID];
            var r := Answered(del.requests[j.requesterID], j.requesterIndex, value);
            var (del', sent) := ReceiveResult(del, w, jobID, value, now);
            if r.nDone == |r.jobTypes|
            then del'.requests == del.requests - {j.requesterID} && sent == [Message(r.address, RESULT, r.results)]
            else del'.requests == del.requests[j.requesterID := r] && sent == []
  {
    hide FinishJob, Answered;
  }

  lemma OutcomeBatches(s: System, requests': map<string, DelegatorStates.Request>, sent: seq<Message>,
                       id: string, r: DelegatorStates.Request, eval: Eval)
    requires BatchInv(s.asked, s.reqIn, s.reqOut, s.del.requests, eval)
    requires Outcome(s.del.requests, requests', sent, id, r, OnData(eval))
    ensures forall m | m in sent :: m.address != []
    ensures BatchInv(s.asked, s.reqIn, s.reqOut + Routed(sent), requests', eval)
  {
    hide BatchInv;
    if sent == [] {
      ProgressBatches(s.asked, s.reqIn, s.reqOut, s.del.requests, id, r, eval);
      assert s.reqOut + Routed(sent) == s.reqOut;
    } else {
      AnswerBatches(s.asked, s.reqIn, s.reqOut, s.del.requests, id, eval);
      assert Routed(sent) == [RouterOut(sent[0])];
    }
  }

  lemma ReadGoodbye(s: System, w: string, i: nat, now: int, s': System, eval: Eval)
    requires w in s.peers && i < |s.peers[w].fromWorker| && s.peers[w].fromWorker[i].subject !in {HELLO, RESULT}
    requires SystemInv(s, eval) && Step(s, FromWorker(w, i, now), s', eval)
    ensures SystemInv(s', eval)
  {
    OtherwiseDisconnected(s, w, i, now, s', eval);
    GoodbyeRead(s, w, i, eval);
    hide Step, DelegatorInv, BatchInv, Pipelines, DisconnectWorker;
    DisconnectKeeps(s.del, w, OnData(eval));
    DisconnectPipelines(s.del, w, s'.peers, eval);
    DisconnectRequests(s.del, w);
  }

  /** What is neither HELLO nor RESULT is taken off the link, and a GOODBYE drops the worker. */
  lemma OtherwiseDisconnected(s: System, w: string, i: nat, now: int, s': System, eval: Eval)
    requires w in s.peers && i < |s.peers[w].fromWorker|
    requires Step(s, FromWorker(w, i, now), s', eval) && s.peers[w].fromWorker[i].subject !in {HELLO, RESULT}
    ensures var p := s.peers[w];
            var t := s.(peers := s.peers[w := p.(fromWorker := Without(p.fromWorker, i))]);
            s' == if p.fromWorker[i].subject == GOODBYE then t.(del := DisconnectWorker(s.del, w)) else t
  {
  }

  lemma GoodbyeRead(s: System, w: string, i: nat, eval: Eval)
    requires Pipelines(s.del, s.peers, eval) && w in s.peers && i < |s.peers[w].fromWorker|
    ensures Pipelines(s.del, s.peers[w := s.peers[w].(fromWorker := Without(s.peers[w].fromWorker, i))], eval)
  {
    var p := s.peers[w];
    assert PeerInv(s.del, w, p, eval);
    LoseFromWorkerKeeps(s.del, w, p, i, eval);
    hide PeerInv;
    OnePeer(s.del, s.peers, w, p.(fromWorker := Without(p.fromWorker, i)), eval);
  }

  lemma DisconnectRequests(s: State, w: string)
    ensures DisconnectWorker(s, w).requests == s.requests
  {
  }

  // -------------------------------------------------------------- the other steps

  lemma PollStep(s: System, now: int, s': System, eval: Eval)
    requires SystemInv(s, eval) && Step(s, Poll(now), s', eval)
    ensures SystemInv(s', eval)
  {
    TypesFitHere(s, eval);
    hide DelegatorInv, Pipelines, BatchInv, PollReady, TypesFit;
    PollKeeps(s.del, 0, now, OnData(eval));
    PollPipelines(s.del, 0, now, s.peers, eval);
  }

  lemma PeerStep(s: System, w: string, p: Peer, eval: Eval)
    requires SystemInv(s, eval) && PeerInv(s.del, w, p, eval)
    ensures SystemInv(s.(peers := s.peers[w := p]), eval)
  {
  }

  predicate InsidePeer(e: Event) {
    e.Start? || e.FromMinion? || e.ToWorker? || e.Take? || e.Finish? || e.Leave? || e.LoseToWorker? || e.LoseFromWorker?
  }

  lemma InsidePeerStep(s: System, e: Event, s': System, eval: Eval)
    requires SystemInv(s, eval) && Step(s, e, s', eval) && InsidePeer(e)
    ensures SystemInv(s', eval)
  {
    hide SystemInv, Step;
    match e {
      case Start(w, offer) => StartStep(s, w, offer, s', eval);
      case FromMinion(w) => FromMinionStep(s, w, s', eval);
      case ToWorker(w, i) => ToWorkerStep(s, w, i, s', eval);
      case Take(w) => TakeStep(s, w, s', eval);
      case Finish(w) => FinishStep(s, w, s', eval);
      case Leave(w) => LeaveStep(s, w, s', eval);
      case LoseToWorker(w, i) => LoseToWorkerStep(s, w, i, s', eval);
      case LoseFromWorker(w, i) => LoseFromWorkerStep(s, w, i, s', eval);
    }
  }

  lemma ThatPeer(s: System, w: string, eval: Eval)
    requires SystemInv(s, eval)
    ensures w in s.peers ==> PeerInv(s.del, w, s.peers[w], eval)
    ensures w !in s.peers ==> w !in s.del.workers
  {
    hide DelegatorInv, BatchInv, PeerInv;
  }

  lemma StartStep(s: System, w: string, offer: Option<(nat, nat)>, s': System, eval: Eval)
    requires SystemInv(s, eval) && Step(s, Start(w, offer), s', eval)
    ensures SystemInv(s', eval)
  {
    hide SystemInv, PeerInv, NewPeer;
    ThatPeer(s, w, eval);
    NewPeerHolds(s.del, w, offer, eval);
    PeerStep(s, w, NewPeer(offer), eval);
  }

  lemma FromMinionStep(s: System, w: string, s': System, eval: Eval)
    requires SystemInv(s, eval) && Step(s, FromMinion(w), s', eval)
    ensures SystemInv(s', eval)
  {
    hide SystemInv, PeerInv, WorkerReads;
    ThatPeer(s, w, eval);
    WorkerReadsKeeps(s.del, w, s.peers[w], eval);
    PeerStep(s, w, WorkerReads(s.peers[w]), eval);
  }

  lemma ToWorkerStep(s: System, w: string, i: nat, s': System, eval: Eval)
    requires SystemInv(s, eval) && Step(s, ToWorker(w, i), s', eval)
    ensures SystemInv(s', eval)
  {
    hide SystemInv, PeerInv, JobArrived;
    ThatPeer(s, w, eval);
    JobArrivedKeeps(s.del, w, s.peers[w], i, eval);
    PeerStep(s, w, JobArrived(s.peers[w], i), eval);
  }

  lemma TakeStep(s: System, w: string, s': System, eval: Eval)
    requires SystemInv(s, eval) && Step(s, Take(w), s', eval)
    ensures SystemInv(s', eval)
  {
    hide SystemInv, PeerInv, Taken;
    ThatPeer(s, w, eval);
    TakenKeeps(s.del, w, s.peers[w], eval);
    PeerStep(s, w, Taken(s.peers[w]), eval);
  }

  lemma FinishStep(s: System, w: string, s': System, eval: Eval)
    requires SystemInv(s, eval) && Step(s, Finish(w), s', eval)
    ensures SystemInv(s', eval)
  {
    hide SystemInv, PeerInv, Finished;
    ThatPeer(s, w, eval);
    FinishedKeeps(s.del, w, s.peers[w], eval);
    PeerStep(s, w, Finished(s.peers[w], eval), eval);
  }

  lemma LeaveStep(s: System, w: string, s': System, eval: Eval)
    requires SystemInv(s, eval) && Step(s, Leave(w), s', eval)
    ensures SystemInv(s', eval)
  {
    hide SystemInv, PeerInv;
    ThatPeer(s, w, eval);
    LeaveKeeps(s.del, w, s.peers[w], eval);
    PeerStep(s, w, s'.peers[w], eval);
  }

  lemma LoseToWorkerStep(s: System, w: string, i: nat, s': System, eval: Eval)
    requires SystemInv(s, eval) && Step(s, LoseToWorker(w, i), s', eval)
    ensures SystemInv(s', eval)
  {
    hide SystemInv, PeerInv, Without;
    ThatPeer(s, w, eval);
    LoseToWorkerKeeps(s.del, w, s.peers[w], i, eval);
    PeerStep(s, w, s'.peers[w], eval);
  }

  lemma LoseFromWorkerStep(s: System, w: string, i: nat, s': System, eval: Eval)
    requires SystemInv(s, eval) && Step(s, LoseFromWorker(w, i), s', eval)
    ensures SystemInv(s', eval)
  {
    hide SystemInv, PeerInv, Without;
    ThatPeer(s, w, eval);
    LoseFromWorkerKeeps(s.del, w, s.peers[w], i, eval);
    PeerStep(s, w, s'.peers[w], eval);
  }

  /** Every step keeps the invariant. */
  lemma StepKeeps(s: System, e: Event, s': System, eval: Eval)
    requires SystemInv(s, eval) && Step(s, e, s', eval)
    ensures SystemInv(s', eval)
  {
    if InsidePeer(e) {
      InsidePeerStep(s, e, s', eval);
    } else {
      hide DelegatorInv, Pipelines, BatchInv;
      match e {
        case Submit(k, b) => SubmitKeeps(s.asked, s.reqIn, s.reqOut, s.del.requests, k, b, eval);
        case Retrieve(i) => RetrieveKeeps(s.asked, s.reqIn, s.reqOut, s.del.requests, i, eval);
        case Admit(i) => RequestStep(s, i, s', eval);
        case Poll(now) => PollStep(s, now, s', eval);
        case FromWorker(w, i, now) =>
          if s.peers[w].fromWorker[i].subject == HELLO {
            ReadHello(s, w, i, now, s', eval);
          } else if s.peers[w].fromWorker[i].subject == RESULT {
            ReadResult(s, w, i, now, s', eval);
          } else {
            ReadGoodbye(s, w, i, now, s', eval);
          }
        case Timeout(w) =>
          DisconnectKeeps(s.del, w, OnData(eval));
          DisconnectPipelines(s.del, w, s.peers, eval);
      }
    }
  }

  lemma {:induction false} RunKeeps(r: Run, eval: Eval, n: nat)
    requires IsRun(r, eval) && n < |r.states|
    ensures SystemInv(r.states[n], eval)
  {
    if n == 0 {
      InitHolds(r.states[0], eval);
    } else {
      RunKeeps(r, eval, n - 1);
      StepKeeps(r.states[n - 1], r.events[n - 1], r.states[n], eval);
    }
  }

  // ---------------------------------------------------------------- the theorems

  /** The batch and the results that the n-th event of a run hands to a requester, if it does. */
  ghost predicate AnswersWith(r: Run, n: nat, k: Key, payload: seq<string>) {
    && n < |r.events| && n < |r.states| && r.events[n].Retrieve?
    && var s := r.states[n];
       && r.events[n].i < |s.reqOut| && s.reqOut[r.events[n].i].1.address != []
       && k == KeyOf(s.reqOut[r.events[n].i]) && payload == s.reqOut[r.events[n].i].1.data
  }

  /** The n-th step of a run is a step of the specification, for this batch and these results if it is an answer. */
  ghost predicate Refines(r: Run, n: nat, k: Key, payload: seq<string>, eval: Eval) {
    && n < |r.events| && n + 1 < |r.states|
    && (r.events[n].Retrieve? ==> AnswersWith(r, n, k, payload))
    && SpecStep(r.states[n].asked, r.events[n], payload, r.states[n + 1].asked, k, eval)
  }

  /** Every step of a run is a step of the sequential specification, seen through what the requesters wait for: a batch is
      submitted, or it is answered with the likelihood of each of its types in ascending order, or nothing is seen. */
  lemma RunRefinesMap(r: Run, eval: Eval, n: nat)
    requires IsRun(r, eval) && n < |r.events|
    ensures exists k, payload :: Refines(r, n, k, payload, eval)
  {
    var e := r.events[n];
    hide IsRun, SystemInv, MapTypes, Step;
    if e.Retrieve? {
      AnswerRead(r, eval, n);
      var s := r.states[n];
      var k, payload := KeyOf(s.reqOut[e.i]), s.reqOut[e.i].1.data;
      EveryAnswerIsRight(r, eval, n, k, payload);
      assert Refines(r, n, k, payload, eval);
    } else {
      RunSteps(r, eval, n);
      AskedOnlyBySubmit(r.states[n], e, r.states[n + 1], eval);
      assert Refines(r, n, ("", 0), [], eval);
    }
  }

  lemma RunSteps(r: Run, eval: Eval, n: nat)
    requires IsRun(r, eval) && n < |r.events|
    ensures |r.states| == |r.events| + 1 && Step(r.states[n], r.events[n], r.states[n + 1], eval)
  {
    hide Step;
  }

  lemma AnswerRead(r: Run, eval: Eval, n: nat)
    requires IsRun(r, eval) && n < |r.events| && r.events[n].Retrieve?
    ensures |r.states| == |r.events| + 1
    ensures var (s, e) := (r.states[n], r.events[n]);
            && e.i < |s.reqOut| && s.reqOut[e.i].1.address != []
            && AnswersWith(r, n, KeyOf(s.reqOut[e.i]), s.reqOut[e.i].1.data)
            && r.states[n + 1].asked == s.asked - {KeyOf(s.reqOut[e.i])}
  {
    RunSteps(r, eval, n);
    hide IsRun;
  }

  lemma AskedOnlyBySubmit(s: System, e: Event, s': System, eval: Eval)
    requires Step(s, e, s', eval) && !e.Retrieve?
    ensures if e.Submit? then e.k !in s.asked && s'.asked == s.asked[e.k := e.b] else s'.asked == s.asked
  {
  }

  /** Any answer read in a run is the right one for a batch that its requester waits for. */
  lemma EveryAnswerIsRight(r: Run, eval: Eval, n: nat, k: Key, payload: seq<string>)
    requires IsRun(r, eval) && AnswersWith(r, n, k, payload)
    ensures k in r.states[n].asked && payload == MapTypes(r.states[n].asked[k], eval)
    ensures k !in r.states[n + 1].asked
  {
    RunKeeps(r, eval, n);
    var s, e := r.states[n], r.events[n];
    assert Step(s, e, r.states[n + 1], eval);
    RetrieveKeeps(s.asked, s.reqIn, s.reqOut, s.del.requests, e.i, eval);
  }

  ghost predicate SubmittedBetween(r: Run, m: nat, n: nat, k: Key) {
    exists l :: m < l < n && l < |r.events| && r.events[l].Submit? && r.events[l].k == k
  }

  lemma {:induction false} NotAskedUntilSubmitted(r: Run, eval: Eval, m: nat, n: nat, k: Key)
    requires IsRun(r, eval) && m < n < |r.states|
    requires k !in r.states[m + 1].asked && !SubmittedBetween(r, m, n, k)
    ensures k !in r.states[n].asked
    decreases n
  {
    if n > m + 1 {
      NotAskedUntilSubmitted(r, eval, m, n - 1, k);
      var s, e, s' := r.states[n - 1], r.events[n - 1], r.states[n];
      assert Step(s, e, s', eval);
      if !e.Retrieve? {
        AskedOnlyBySubmit(s, e, s', eval);
      }
    }
  }

  /** A batch is answered at most once for each time it is submitted. */
  lemma AnsweredAtMostOnce(r: Run, eval: Eval, m: nat, n: nat, k: Key, first: seq<string>, second: seq<string>)
    requires IsRun(r, eval) && m < n
    requires AnswersWith(r, m, k, first) && AnswersWith(r, n, k, second)
    ensures SubmittedBetween(r, m, n, k)
  {
    EveryAnswerIsRight(r, eval, m, k, first);
    EveryAnswerIsRight(r, eval, n, k, second);
    if !SubmittedBetween(r, m, n, k) {
      NotAskedUntilSubmitted(r, eval, m, n, k);
    }
  }

  /** What the source relies on when it handles a message: numbers that parse, jobs that the maps hold. */
  ghost predicate Handled(s: System) {
    && PollReady(s.del)
    && (forall e | e in s.reqIn :: |e.1.data| >= 2 && AllParse(TypeStrings(e.1)))
    && (forall e | e in s.reqOut :: e.1.address != [])
    && (forall w, m | w in s.peers && m in s.peers[w].fromWorker :: WorkerMessageHandled(s, w, m))
    && (forall w, m | w in s.peers && m in s.peers[w].toWorker :: m.subject == JOB)
    && (forall w, m | w in s.peers && m in s.peers[w].toMinion :: Readable(m))
  }

  ghost predicate WorkerMessageHandled(s: System, w: string, m: Message) {
    match m.subject
    case HELLO => m.data != [] && OfferedRange(m.data[0], s.nJobTypes).Some? && w !in s.del.workers
    case RESULT => |m.data| >= 2 && ResultExpected(s.del, w, m.data[0])
    case GOODBYE => true
    case _ => false
  }

  /** In every reachable state every handler finds what it looks up: no message fails to parse, the delegator's operator[]
      and at() never miss, and a request that arrives is never pending already. */
  lemma NothingIsMissed(r: Run, eval: Eval, n: nat)
    requires IsRun(r, eval) && n < |r.states|
    ensures var s := r.states[n];
            Handled(s) && forall i | 0 <= i < |s.reqIn| ::
              s.reqIn[i].1.address != [] && NameOf(KeyOf(s.reqIn[i])) !in s.del.requests
  {
    RunKeeps(r, eval, n);
    var s := r.states[n];
    hide IsRun;
    PlacedPollReady(s.del, OnData(eval));
    RequestsHandled(s, eval);
    WorkersHandled(s, eval);
    AnswersAddressed(s, eval);
    hide SystemInv, PollReady, WorkerMessageHandled, AllParse, Readable;
  }

  lemma RequestsHandled(s: System, eval: Eval)
    requires SystemInv(s, eval)
    ensures forall e | e in s.reqIn :: |e.1.data| >= 2 && AllParse(TypeStrings(e.1))
    ensures forall i | 0 <= i < |s.reqIn| ::
              s.reqIn[i].1.address != [] && NameOf(KeyOf(s.reqIn[i])) !in s.del.requests
  {
    hide DelegatorInv, Pipelines, AllParse;
    forall i | 0 <= i < |s.reqIn|
      ensures Asking(s.asked, s.reqIn[i]) && NameOf(KeyOf(s.reqIn[i])) !in s.del.requests
      ensures |s.reqIn[i].1.data| >= 2 && AllParse(TypeStrings(s.reqIn[i].1))
    {
      RequestIsNew(s.asked, s.reqIn, s.reqOut, s.del.requests, i, eval);
      RequestRead(s.asked, s.reqIn[i]);
    }
    hide BatchInv;
  }

  lemma WorkersHandled(s: System, eval: Eval)
    requires SystemInv(s, eval)
    ensures forall w, m | w in s.peers && m in s.peers[w].fromWorker :: WorkerMessageHandled(s, w, m)
    ensures forall w, m | w in s.peers && m in s.peers[w].toWorker :: m.subject == JOB
    ensures forall w, m | w in s.peers && m in s.peers[w].toMinion :: Readable(m)
  {
    hide DelegatorInv, BatchInv, WorkerMessageHandled;
    forall w | w in s.peers
      ensures Shaped(s.peers[w])
      ensures forall m | m in s.peers[w].fromWorker :: WorkerMessageHandled(s, w, m)
    {
      assert PeerInv(s.del, w, s.peers[w], eval);
      forall m | m in s.peers[w].fromWorker
        ensures WorkerMessageHandled(s, w, m)
      {
        MessageHandled(s, w, m, eval);
      }
    }
  }

  lemma AnswersAddressed(s: System, eval: Eval)
    requires BatchInv(s.asked, s.reqIn, s.reqOut, s.del.requests, eval)
    ensures forall e | e in s.reqOut :: e.1.address != []
  {
  }

  lemma MessageHandled(s: System, w: string, m: Message, eval: Eval)
    requires DelegatorInv(s.del, OnData(eval)) && w in s.peers
    requires PeerInv(s.del, w, s.peers[w], eval) && m in s.peers[w].fromWorker
    ensures WorkerMessageHandled(s, w, m)
  {
    var p := s.peers[w];
    assert BackShaped(m);
    if m.subject == HELLO {
      var i :| 0 <= i < |p.fromWorker| && p.fromWorker[i] == m;
      GreetingRead(s.del, w, p, i, eval);
      var offer :| OfferOk(offer) && m == Hello(offer);
      if offer.Some? {
        OfferRoundTrip(offer.value.0, offer.value.1);
      }
    }
    if m.subject == RESULT && w in s.del.workers {
      ResultIsRight(s.del, w, p, m, eval);
      hide DelegatorInv, PeerInv, RightResult;
      ResultKeeps(s.del, w, m.data[0], m.data[1], 0, OnData(eval));
    }
  }

  /** Nothing that was asked is lost: in every reachable state each batch a requester waits for is on its way to the
      delegator, or on its way back, or pending with the jobs of its unanswered slots outstanding; and each such job is in
      the queue or in progress with a connected worker. */
  lemma NothingIsLost(r: Run, eval: Eval, n: nat, k: Key)
    requires IsRun(r, eval) && n < |r.states| && k in r.states[n].asked
    ensures var s := r.states[n];
            || KeyCount(s.reqIn, k) == 1
            || KeyCount(s.reqOut, k) == 1
            || (NameOf(k) in s.del.requests
                && exists j :: j in Outstanding(s.del) && j.requesterID == NameOf(k))
  {
    RunKeeps(r, eval, n);
    var s := r.states[n];
    assert Submittable(k, s.asked[k]);
    assert Places(s.reqIn, s.reqOut, s.del.requests, k) == 1;
    if NameOf(k) in s.del.requests {
      PendingHasJob(s, k, eval);
    }
  }

  lemma PendingHasJob(s: System, k: Key, eval: Eval)
    requires SystemInv(s, eval) && k in s.asked && NameOf(k) in s.del.requests
    ensures exists j :: j in Outstanding(s.del) && j.requesterID == NameOf(k)
  {
    var id := NameOf(k);
    var q :| Pending(s.asked, id, s.del.requests[id], q);
    assert Submittable(q, s.asked[q]);
    assert s.asked[q].types[0] in s.del.requests[id].jobTypes;
    assert RequestOk(id, s.del.requests[id], Outstanding(s.del), OnData(eval));
    var j :| j in OfRequest(Outstanding(s.del), id);
  }
}
