/** Every message of the running protocol survives its framing: the links of Protocol may as well carry frames. */
module Wire {
  import opened Text
  import opened Messages
  import opened Requesters
  import opened DelegatorStates
  import opened Accounting
  import opened Placement
  import opened Workers
  import opened Protocol
  import opened Pipeline
  import opened Batches
  import opened Refinement

  /** A message between two DEALER sockets. */
  ghost predicate Carried(m: Message) { Parse(Frames(m), []) == Received(m) }

  /** A message to a ROUTER socket: it reads the message with the sender's identity behind the address. */
  ghost predicate CarriedIn(identity: string, m: Message) {
    Parse(RouterInFrames(identity, Frames(m)), []) == Received(RouterIn(identity, m))
  }

  /** A message from a ROUTER socket: its frames go to the identity, which reads what the ROUTER was to pass on. */
  ghost predicate CarriedOut(identity: string, m: Message) {
    var (peer, frames) := RouterOutFrames(Frames(RouterIn(identity, m)));
    peer == identity && Parse(frames, []) == Received(m)
  }

  lemma CarriedAlways(m: Message)
    requires "" !in m.address
    ensures Carried(m)
  {
    EnvelopeRoundTrip(m);
  }

  lemma CarriedByRouter(identity: string, m: Message)
    requires "" !in m.address && identity != ""
    ensures CarriedIn(identity, m) && CarriedOut(identity, m)
  {
    RouterInIsPrepend(identity, m);
    EnvelopeRoundTrip(RouterIn(identity, m));
    RouterOutIsStrip(RouterIn(identity, m));
    EnvelopeRoundTrip(m);
    assert RouterOut(RouterIn(identity, m)) == (identity, m);
    hide Parse, Frames;
  }

  // ------------------------------------------------------------ nobody is nameless

  lemma {:induction false} ForwardedAllKeys(peers: map<string, Peer>, sent: seq<Message>)
    requires forall m | m in sent :: m.address != []
    ensures ForwardedAll(peers, sent).Keys == peers.Keys
    decreases |sent|
  {
    if sent != [] {
      ForwardedAllKeys(Forwarded(peers, sent[0]), sent[1..]);
    }
  }

  lemma NamedStep(s: System, e: Event, s': System, eval: Eval)
    requires Step(s, e, s', eval) && "" !in s.peers
    ensures "" !in s'.peers
  {
    hide PollReady, AllParse, ResultExpected, OnPoll, ReceiveResult, ReceiveRequest, ConnectWorker, DisconnectWorker;
    hide ForwardedAll, OfferedRange;
    if e.Poll? {
      var (_, sent) := OnPoll(s.del, e.now);
      ForwardedAllKeys(s.peers, sent);
    }
  }

  lemma {:induction false} WorkersNamed(r: Run, eval: Eval, n: nat)
    requires IsRun(r, eval) && n < |r.states|
    ensures "" !in r.states[n].peers
  {
    hide Step;
    if n > 0 {
      WorkersNamed(r, eval, n - 1);
      NamedStep(r.states[n - 1], r.events[n - 1], r.states[n], eval);
    }
  }

  // -------------------------------------------------------------------- the links

  ghost predicate PeerCarried(w: string, p: Peer) {
    && (forall m | m in p.toWorker :: CarriedOut(w, m))
    && (forall m | m in p.fromWorker :: CarriedIn(w, m))
    && (forall m | m in p.toMinion :: Carried(m))
    && (forall m | m in p.fromMinion :: Carried(m))
  }

  lemma ShapedIsCarried(w: string, p: Peer)
    requires Shaped(p) && w != ""
    ensures PeerCarried(w, p)
  {
    hide Carried, CarriedIn, CarriedOut, Readable;
    forall m: Message | m.address == []
      ensures Carried(m) && CarriedIn(w, m) && CarriedOut(w, m)
    {
      CarriedAlways(m);
      CarriedByRouter(w, m);
    }
  }

  lemma RequestCarried(asked: map<Key, Batch>, e: (string, Message))
    requires AllSubmittable(asked) && Asking(asked, e)
    ensures CarriedIn(e.0, e.1)
  {
    var k := KeyOf(e);
    assert Submittable(k, asked[k]) && k.0 in [k.0];
    ToStringColonFree(k.1);
    assert e.1.address == [ToString(k.1)];
    CarriedByRouter(e.0, e.1);
  }

  lemma AnswerCarried(asked: map<Key, Batch>, e: (string, Message), eval: Eval)
    requires AllSubmittable(asked) && Answering(asked, e, eval)
    ensures CarriedOut(e.0, e.1)
  {
    var k := KeyOf(e);
    assert Submittable(k, asked[k]) && k.0 in [k.0];
    ToStringColonFree(k.1);
    assert e.1.address == [ToString(k.1)];
    CarriedByRouter(e.0, e.1);
  }

  /** In every reachable state, whatever is on a link is read as it was sent: parsing the frames that the sender writes, with
      the identity that a ROUTER socket puts before them or takes from them, yields the message of the model. */
  lemma EveryMessageSurvives(r: Run, eval: Eval, n: nat)
    requires IsRun(r, eval) && n < |r.states|
    ensures var s := r.states[n];
            && (forall e | e in s.reqIn :: CarriedIn(e.0, e.1))
            && (forall e | e in s.reqOut :: CarriedOut(e.0, e.1))
            && (forall w | w in s.peers :: PeerCarried(w, s.peers[w]))
  {
    RunKeeps(r, eval, n);
    WorkersNamed(r, eval, n);
    var s := r.states[n];
    hide IsRun, DelegatorInv, Carried, CarriedIn, CarriedOut, PeerCarried, Asking, Answering, AllSubmittable, OnePlace;
    forall e | e in s.reqIn
      ensures CarriedIn(e.0, e.1)
    {
      RequestCarried(s.asked, e);
    }
    forall e | e in s.reqOut
      ensures CarriedOut(e.0, e.1)
    {
      AnswerCarried(s.asked, e, eval);
    }
    forall w | w in s.peers
      ensures PeerCarried(w, s.peers[w])
    {
      assert PeerInv(s.del, w, s.peers[w], eval);
      ShapedIsCarried(w, s.peers[w]);
    }
  }
}
