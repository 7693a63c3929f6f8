/** The invariant between the delegator and the workers' pipelines: every job name that a connected worker's pipeline
    mentions occurs there once, is in progress with that worker, and goes with the right type, data and answer. */
module Pipeline {
  import opened Text
  import opened Messages
  import opened Requesters
  import opened DelegatorStates
  import opened Accounting
  import opened Placement
  import opened Workers
  import opened Protocol

  // ------------------------------------------------- what a pipeline mentions

  datatype Token = Named(id: string) | Greeting

  /** How often a message mentions a token. */
  function Mention(m: Message, t: Token): nat {
    match m.subject
    case JOB => if |m.data| >= 2 && t == Named(m.data[1]) then 1 else 0
    case RESULT => if |m.data| >= 1 && t == Named(m.data[0]) then 1 else 0
    case HELLO => if t == Greeting then 1 else 0
    case _ => 0
  }

  function LinkCount(link: seq<Message>, t: Token): nat {
    if link == [] then 0 else Mention(link[0], t) + LinkCount(link[1..], t)
  }

  function HandCount(h: Hand, t: Token): nat {
    if h.Busy? && t == Named(h.job) then 1 else 0
  }

  /** How often a pipeline mentions a token. */
  function Count(p: Peer, t: Token): nat {
    LinkCount(p.toWorker, t) + LinkCount(p.feeder.queue, t) + LinkCount(p.toMinion, t)
    + HandCount(p.hand, t) + LinkCount(p.fromMinion, t) + LinkCount(p.fromWorker, t)
  }

  lemma {:induction false} LinkCountAppend(a: seq<Message>, b: seq<Message>, t: Token)
    ensures LinkCount(a + b, t) == LinkCount(a, t) + LinkCount(b, t)
  {
    if a == [] {
      assert a + b == b;
    } else {
      assert (a + b)[1..] == a[1..] + b;
      LinkCountAppend(a[1..], b, t);
    }
  }

  lemma LinkCountLast(link: seq<Message>, m: Message, t: Token)
    ensures LinkCount(link + [m], t) == LinkCount(link, t) + Mention(m, t)
  {
    LinkCountAppend(link, [m], t);
    assert [m][1..] == [];
  }

  lemma LinkCountWithout(link: seq<Message>, i: nat, t: Token)
    requires i < |link|
    ensures LinkCount(link, t) == LinkCount(Without(link, i), t) + Mention(link[i], t)
  {
    assert link == (link[..i] + [link[i]]) + link[i + 1..];
    LinkCountAppend(link[..i] + [link[i]], link[i + 1..], t);
    LinkCountLast(link[..i], link[i], t);
    LinkCountAppend(link[..i], link[i + 1..], t);
  }

  lemma LinkCountHead(link: seq<Message>, t: Token)
    requires link != []
    ensures LinkCount(link, t) == Mention(link[0], t) + LinkCount(link[1..], t)
  {
  }

  lemma {:induction false} LinkCountHas(link: seq<Message>, m: Message, t: Token)
    requires m in link
    ensures Mention(m, t) <= LinkCount(link, t)
  {
    if m != link[0] {
      LinkCountHas(link[1..], m, t);
    }
  }

  // --------------------------------------------------- what is said about a job

  ghost predicate Known(del: State, w: string, id: string) {
    && w in del.workers && id in del.workers[w].workInProgress
    && del.workers[w].workInProgress[id].requesterID in del.requests
  }

  ghost function DataOf(del: State, w: string, id: string): string
    requires Known(del, w, id)
  {
    del.requests[del.workers[w].workInProgress[id].requesterID].data
  }

  ghost function TypeOf(del: State, w: string, id: string): nat
    requires Known(del, w, id)
  {
    del.workers[w].workInProgress[id].typ
  }

  /** A JOB message is for a job in progress with this worker, of the type and with the data it says. */
  ghost predicate JobGood(del: State, w: string, m: Message) {
    |m.data| == 3 && Known(del, w, m.data[1])
    && StoI(m.data[0]) == Some(TypeOf(del, w, m.data[1])) && m.data[2] == DataOf(del, w, m.data[1])
  }

  /** A RESULT message is for a job in progress with this worker, and carries the likelihood of its type and data. */
  ghost predicate ResultGood(del: State, w: string, m: Message, eval: Eval) {
    |m.data| == 2 && Known(del, w, m.data[0])
    && m.data[1] == OnData(eval)(TypeOf(del, w, m.data[0]), DataOf(del, w, m.data[0]))
  }

  ghost predicate MessageGood(del: State, w: string, m: Message, eval: Eval) {
    && (m.subject == JOB ==> JobGood(del, w, m))
    && (m.subject == RESULT ==> ResultGood(del, w, m, eval))
  }

  ghost predicate LinkGood(del: State, w: string, link: seq<Message>, eval: Eval) {
    forall m | m in link :: MessageGood(del, w, m, eval)
  }

  ghost predicate HandGood(del: State, w: string, h: Hand) {
    h.Busy? ==> Known(del, w, h.job) && h.typ == TypeOf(del, w, h.job) && h.sample == Split(DataOf(del, w, h.job), ':')
  }

  ghost predicate PeerGood(del: State, w: string, p: Peer, eval: Eval) {
    && LinkGood(del, w, p.toWorker, eval) && LinkGood(del, w, p.feeder.queue, eval) && LinkGood(del, w, p.toMinion, eval)
    && HandGood(del, w, p.hand)
    && LinkGood(del, w, p.fromMinion, eval) && LinkGood(del, w, p.fromWorker, eval)
  }

  // ------------------------------------------------------ shapes of the messages

  predicate JobShaped(m: Message) { m.address == [] && m.subject == JOB && Readable(m) && |m.data| == 3 }

  ghost predicate BackShaped(m: Message) {
    && m.address == []
    && match m.subject
       case HELLO => exists offer :: OfferOk(offer) && m == Hello(offer)
       case RESULT => |m.data| == 2
       case GOODBYE => true
       case _ => false
  }

  ghost predicate Shaped(p: Peer) {
    && (forall m | m in p.toWorker :: JobShaped(m))
    && (forall m | m in p.feeder.queue :: JobShaped(m))
    && (forall m | m in p.toMinion :: JobShaped(m))
    && (forall m | m in p.fromMinion :: BackShaped(m))
    && (forall m | m in p.fromWorker :: BackShaped(m))
  }

  ghost predicate Once(p: Peer) { forall t :: Count(p, t) <= 1 }

  ghost predicate OnlyGreeting(p: Peer) {
    Count(p, Greeting) == 1 && forall id :: Count(p, Named(id)) == 0
  }

  /** A worker whose HELLO is still on its way has nothing else in its pipeline and is not connected; a connected one
      mentions each job once and rightly. */
  ghost predicate PeerInv(del: State, w: string, p: Peer, eval: Eval) {
    && Shaped(p)
    && (Count(p, Greeting) > 0 ==> OnlyGreeting(p) && w !in del.workers)
    && (w in del.workers ==> PeerGood(del, w, p, eval) && Once(p))
  }

  ghost predicate Pipelines(del: State, peers: map<string, Peer>, eval: Eval) {
    && (forall w | w in del.workers :: w in peers && del.workers[w].address == [w])
    && (forall w | w in peers :: PeerInv(del, w, peers[w], eval))
  }

  // ------------------------------------------------ the delegator changes its view

  /** What is known of a job is the same afterwards. */
  ghost predicate StillKnown(del: State, del': State, w: string, id: string) {
    Known(del, w, id) ==>
      && Known(del', w, id) && TypeOf(del', w, id) == TypeOf(del, w, id) && DataOf(del', w, id) == DataOf(del, w, id)
  }

  /** Nothing that the pipeline mentions has become different. */
  ghost predicate AllStillKnown(del: State, del': State, w: string, p: Peer) {
    forall id | Count(p, Named(id)) > 0 :: StillKnown(del, del', w, id)
  }

  lemma LinkKept(del: State, del': State, w: string, link: seq<Message>, p: Peer, eval: Eval)
    requires LinkGood(del, w, link, eval) && AllStillKnown(del, del', w, p)
    requires forall t :: LinkCount(link, t) <= Count(p, t)
    ensures LinkGood(del', w, link, eval)
  {
    forall m | m in link
      ensures MessageGood(del', w, m, eval)
    {
      assert MessageGood(del, w, m, eval);
      if m.subject == JOB {
        LinkCountHas(link, m, Named(m.data[1]));
        assert StillKnown(del, del', w, m.data[1]);
      }
      if m.subject == RESULT {
        LinkCountHas(link, m, Named(m.data[0]));
        assert StillKnown(del, del', w, m.data[0]);
      }
    }
  }

  lemma GoodKept(del: State, del': State, w: string, p: Peer, eval: Eval)
    requires PeerGood(del, w, p, eval) && AllStillKnown(del, del', w, p)
    ensures PeerGood(del', w, p, eval)
  {
    hide LinkGood, AllStillKnown, LinkCount, HandCount, HandGood;
    LinkKept(del, del', w, p.toWorker, p, eval);
    LinkKept(del, del', w, p.feeder.queue, p, eval);
    LinkKept(del, del', w, p.toMinion, p, eval);
    LinkKept(del, del', w, p.fromMinion, p, eval);
    LinkKept(del, del', w, p.fromWorker, p, eval);
    HandKept(del, del', w, p, eval);
  }

  lemma HandKept(del: State, del': State, w: string, p: Peer, eval: Eval)
    requires HandGood(del, w, p.hand) && AllStillKnown(del, del', w, p)
    ensures HandGood(del', w, p.hand)
  {
    if p.hand.Busy? {
      assert Count(p, Named(p.hand.job)) > 0;
      assert StillKnown(del, del', w, p.hand.job);
    }
  }

  /** A change of the delegator that does not connect this worker nor change what is known of its jobs. */
  lemma PeerKept(del: State, del': State, w: string, p: Peer, eval: Eval)
    requires PeerInv(del, w, p, eval)
    requires w in del'.workers ==> w in del.workers && AllStillKnown(del, del', w, p)
    ensures PeerInv(del', w, p, eval)
  {
    if w in del'.workers {
      GoodKept(del, del', w, p, eval);
    }
  }

  /** In a connected worker's pipeline every name is known to the delegator. */
  lemma NamesAreKnown(del: State, w: string, p: Peer, eval: Eval, id: string)
    requires PeerGood(del, w, p, eval) && Count(p, Named(id)) > 0
    ensures Known(del, w, id)
  {
    var t := Named(id);
    if LinkCount(p.toWorker, t) > 0 {
      LinkNames(del, w, p.toWorker, eval, id);
    } else if LinkCount(p.feeder.queue, t) > 0 {
      LinkNames(del, w, p.feeder.queue, eval, id);
    } else if LinkCount(p.toMinion, t) > 0 {
      LinkNames(del, w, p.toMinion, eval, id);
    } else if LinkCount(p.fromMinion, t) > 0 {
      LinkNames(del, w, p.fromMinion, eval, id);
    } else if LinkCount(p.fromWorker, t) > 0 {
      LinkNames(del, w, p.fromWorker, eval, id);
    }
  }

  lemma {:induction false} LinkNames(del: State, w: string, link: seq<Message>, eval: Eval, id: string)
    requires LinkGood(del, w, link, eval) && LinkCount(link, Named(id)) > 0
    ensures Known(del, w, id)
    decreases |link|
  {
    assert MessageGood(del, w, link[0], eval);
    if Mention(link[0], Named(id)) == 0 {
      LinkNames(del, w, link[1..], eval, id);
    }
  }
}
