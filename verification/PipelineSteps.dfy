/** Every step inside a worker's pipeline keeps the pipeline invariant. */
module PipelineSteps {
  import opened Text
  import opened Messages
  import opened Requesters
  import opened DelegatorStates
  import opened Accounting
  import opened Workers
  import opened Protocol
  import opened Pipeline

  ghost predicate SameMentions(p: Peer, p': Peer) { forall t :: Count(p', t) == Count(p, t) }

  ghost predicate FewerMentions(p: Peer, p': Peer) { forall t :: Count(p', t) <= Count(p, t) }

  lemma PeerInvFrom(del: State, w: string, p: Peer, p': Peer, eval: Eval)
    requires PeerInv(del, w, p, eval) && Shaped(p')
    requires SameMentions(p, p') || FewerMentions(p, p')
    requires w in del.workers ==> PeerGood(del, w, p', eval)
    ensures PeerInv(del, w, p', eval)
  {
  }

  // ------------------------------------------------------------ ToWorker

  lemma JobArrivedKeeps(del: State, w: string, p: Peer, i: nat, eval: Eval)
    requires PeerInv(del, w, p, eval) && i < |p.toWorker|
    ensures PeerInv(del, w, JobArrived(p, i), eval)
  {
    hide PeerGood, Shaped, Count;
    JobArrivedTokens(p, i);
    JobArrivedGood(del, w, p, i, eval);
    JobArrivedShaped(p, i);
    PeerInvFrom(del, w, p, JobArrived(p, i), eval);
  }

  lemma JobArrivedTokens(p: Peer, i: nat)
    requires i < |p.toWorker|
    ensures SameMentions(p, JobArrived(p, i))
  {
    forall t
      ensures Count(JobArrived(p, i), t) == Count(p, t)
    {
      LinkCountWithout(p.toWorker, i, t);
      LinkCountLast(p.toMinion, p.toWorker[i], t);
      LinkCountLast(p.feeder.queue, p.toWorker[i], t);
      assert p.toMinion + [] == p.toMinion;
    }
  }

  lemma JobArrivedShaped(p: Peer, i: nat)
    requires Shaped(p) && i < |p.toWorker|
    ensures Shaped(JobArrived(p, i))
  {
  }

  lemma JobArrivedGood(del: State, w: string, p: Peer, i: nat, eval: Eval)
    requires i < |p.toWorker|
    ensures PeerGood(del, w, p, eval) ==> PeerGood(del, w, JobArrived(p, i), eval)
  {
  }

  // ---------------------------------------------------------- FromMinion

  lemma WorkerReadsKeeps(del: State, w: string, p: Peer, eval: Eval)
    requires PeerInv(del, w, p, eval) && p.fromMinion != []
    ensures PeerInv(del, w, WorkerReads(p), eval)
  {
    assert p.fromMinion[0] in p.fromMinion && BackShaped(p.fromMinion[0]);
    hide PeerGood, Shaped, Count;
    WorkerReadsTokens(p);
    WorkerReadsGood(del, w, p, eval);
    WorkerReadsShaped(p);
    PeerInvFrom(del, w, p, WorkerReads(p), eval);
  }

  lemma WorkerReadsTokens(p: Peer)
    requires p.fromMinion != [] && p.fromMinion[0].address == []
    ensures SameMentions(p, WorkerReads(p))
  {
    var m := p.fromMinion[0];
    assert m == Message([], m.subject, m.data);
    forall t
      ensures Count(WorkerReads(p), t) == Count(p, t)
    {
      LinkCountHead(p.fromMinion, t);
      LinkCountLast(p.fromWorker, m, t);
      assert p.toMinion + [] == p.toMinion;
      if p.feeder.queue != [] {
        LinkCountHead(p.feeder.queue, t);
        LinkCountLast(p.toMinion, p.feeder.queue[0], t);
      }
    }
  }

  lemma WorkerReadsShaped(p: Peer)
    requires Shaped(p) && p.fromMinion != []
    ensures Shaped(WorkerReads(p))
  {
    assert p.fromMinion[0] in p.fromMinion;
    assert BackShaped(p.fromMinion[0]) && p.fromMinion[0] == Message([], p.fromMinion[0].subject, p.fromMinion[0].data);
    assert p.feeder.queue != [] ==> p.feeder.queue[0] in p.feeder.queue;
    hide JobShaped, BackShaped;
  }

  lemma WorkerReadsGood(del: State, w: string, p: Peer, eval: Eval)
    requires Shaped(p) && p.fromMinion != []
    ensures PeerGood(del, w, p, eval) ==> PeerGood(del, w, WorkerReads(p), eval)
  {
    assert p.fromMinion[0] in p.fromMinion;
    assert BackShaped(p.fromMinion[0]) && p.fromMinion[0] == Message([], p.fromMinion[0].subject, p.fromMinion[0].data);
    assert p.feeder.queue != [] ==> p.feeder.queue[0] in p.feeder.queue;
    hide MessageGood, HandGood, BackShaped, JobShaped;
  }

  // ----------------------------------------------------------------- Take

  lemma TakenKeeps(del: State, w: string, p: Peer, eval: Eval)
    requires PeerInv(del, w, p, eval) && p.toMinion != [] && p.hand == Idle
    ensures Readable(p.toMinion[0]) && PeerInv(del, w, Taken(p), eval)
  {
    var m := p.toMinion[0];
    assert m in p.toMinion && JobShaped(m);
    var p' := Taken(p);
    forall t
      ensures Count(p', t) == Count(p, t)
    {
      LinkCountHead(p.toMinion, t);
    }
    assert Shaped(p');
    if w in del.workers {
      assert MessageGood(del, w, m, eval);
    }
    PeerInvFrom(del, w, p, p', eval);
  }

  // --------------------------------------------------------------- Finish

  lemma FinishedKeeps(del: State, w: string, p: Peer, eval: Eval)
    requires PeerInv(del, w, p, eval) && p.hand.Busy?
    ensures PeerInv(del, w, Finished(p, eval), eval)
  {
    var p' := Finished(p, eval);
    var m := Message([], RESULT, [p.hand.job, eval(p.hand.typ, p.hand.sample)]);
    forall t
      ensures Count(p', t) == Count(p, t)
    {
      LinkCountLast(p.fromMinion, m, t);
    }
    FinishedShaped(p, eval);
    FinishedGood(del, w, p, eval);
    hide PeerGood, Shaped, Count;
    PeerInvFrom(del, w, p, p', eval);
  }

  lemma FinishedShaped(p: Peer, eval: Eval)
    requires Shaped(p) && p.hand.Busy?
    ensures Shaped(Finished(p, eval))
  {
  }

  lemma FinishedGood(del: State, w: string, p: Peer, eval: Eval)
    requires p.hand.Busy?
    ensures PeerGood(del, w, p, eval) ==> PeerGood(del, w, Finished(p, eval), eval)
  {
  }

  // -------------------------------------------------------- Leave and losses

  lemma LeaveKeeps(del: State, w: string, p: Peer, eval: Eval)
    requires PeerInv(del, w, p, eval)
    ensures PeerInv(del, w, p.(fromWorker := p.fromWorker + [Message([], GOODBYE, [])]), eval)
  {
    var m := Message([], GOODBYE, []);
    var p' := p.(fromWorker := p.fromWorker + [m]);
    forall t
      ensures Count(p', t) == Count(p, t)
    {
      LinkCountLast(p.fromWorker, m, t);
    }
    assert BackShaped(m) && MessageGood(del, w, m, eval);
    hide JobShaped, BackShaped, MessageGood, HandGood;
    assert Shaped(p');
    PeerInvFrom(del, w, p, p', eval);
  }

  lemma LoseToWorkerKeeps(del: State, w: string, p: Peer, i: nat, eval: Eval)
    requires PeerInv(del, w, p, eval) && i < |p.toWorker|
    ensures PeerInv(del, w, p.(toWorker := Without(p.toWorker, i)), eval)
  {
    var p' := p.(toWorker := Without(p.toWorker, i));
    LostShapedAndGood(del, w, p.toWorker, i, eval);
    forall t
      ensures Count(p', t) <= Count(p, t)
    {
      LinkCountWithout(p.toWorker, i, t);
    }
    hide JobShaped, BackShaped, LinkGood, HandGood, Count;
    PeerInvFrom(del, w, p, p', eval);
  }

  lemma LostShapedAndGood(del: State, w: string, link: seq<Message>, i: nat, eval: Eval)
    requires i < |link|
    ensures forall m | m in Without(link, i) :: m in link
    ensures LinkGood(del, w, link, eval) ==> LinkGood(del, w, Without(link, i), eval)
  {
  }

  lemma LoseFromWorkerKeeps(del: State, w: string, p: Peer, i: nat, eval: Eval)
    requires PeerInv(del, w, p, eval) && i < |p.fromWorker|
    ensures PeerInv(del, w, p.(fromWorker := Without(p.fromWorker, i)), eval)
  {
    var p' := p.(fromWorker := Without(p.fromWorker, i));
    LostShapedAndGood(del, w, p.fromWorker, i, eval);
    forall t
      ensures Count(p', t) <= Count(p, t)
    {
      LinkCountWithout(p.fromWorker, i, t);
    }
    hide JobShaped, BackShaped, LinkGood, HandGood, Count;
    PeerInvFrom(del, w, p, p', eval);
  }

  lemma NewPeerHolds(del: State, w: string, offer: Option<(nat, nat)>, eval: Eval)
    requires w !in del.workers && OfferOk(offer)
    ensures PeerInv(del, w, NewPeer(offer), eval)
  {
    assert [Hello(offer)][1..] == [];
    assert BackShaped(Hello(offer));
  }

  // ----------------------------------------------------- JOB put on the link

  /** A dispatched job enters the pipeline of the worker that holds it now. */
  lemma SentKeeps(del: State, w: string, p: Peer, m: Message, eval: Eval)
    requires w in del.workers && PeerInv(del, w, p, eval)
    requires JobShaped(m) && JobGood(del, w, m) && Count(p, Named(m.data[1])) == 0
    ensures PeerInv(del, w, p.(toWorker := p.toWorker + [m]), eval)
  {
    var p' := p.(toWorker := p.toWorker + [m]);
    forall t
      ensures Count(p', t) == Count(p, t) + if t == Named(m.data[1]) then 1 else 0
    {
      LinkCountLast(p.toWorker, m, t);
    }
    SentGood(del, w, p, m, eval);
    SentShaped(p, m);
    hide PeerGood, Shaped, Count, JobShaped, JobGood;
  }

  lemma SentGood(del: State, w: string, p: Peer, m: Message, eval: Eval)
    requires PeerGood(del, w, p, eval) && JobShaped(m) && JobGood(del, w, m)
    ensures PeerGood(del, w, p.(toWorker := p.toWorker + [m]), eval)
  {
  }

  lemma SentShaped(p: Peer, m: Message)
    requires Shaped(p) && JobShaped(m)
    ensures Shaped(p.(toWorker := p.toWorker + [m]))
  {
  }
}
