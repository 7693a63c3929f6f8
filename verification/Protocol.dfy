/** The whole job protocol as a state machine: requesters, the delegator, workers with their minions, and the links
    between them. Network links may delay, reorder and lose messages; workers may vanish at any time. */
module Protocol {
  import opened Text
  import opened Messages
  import opened Ordering
  import opened Requesters
  import opened DelegatorStates
  import opened Accounting
  import opened Workers

  /** The user's likelihood, on a job type and the printed components of a sample. */
  type Eval = (nat, seq<string>) -> string

  /** The same on the data string of a request. */
  function OnData(eval: Eval): Likelihood { (typ: nat, data: string) => eval(typ, Split(data, ':')) }

  /** A batch is named by its requester's identity and the id the requester chose. */
  type Key = (string, nat)

  datatype Batch = Batch(types: seq<nat>, sample: seq<string>)

  predicate Printable(parts: seq<string>) {
    parts != [] && DelimFree(parts, ':') && "" !in parts
  }

  /** What a requester may submit: some types that an int can hold, and a sample of printed numbers. */
  predicate Submittable(k: Key, b: Batch) {
    Printable([k.0]) && b.types != [] && (forall t | t in b.types :: t <= INT_MAX) && Printable(b.sample)
  }

  datatype Hand = Idle | Busy(job: string, typ: nat, sample: seq<string>)

  /** A worker process, its minion, and the links to and from the delegator. */
  datatype Peer = Peer(toWorker: seq<Message>, fromWorker: seq<Message>, feeder: Feeder,
                       toMinion: seq<Message>, hand: Hand, fromMinion: seq<Message>)

  datatype System = System(
    asked: map<Key, Batch>,              // what each requester waits for
    reqIn: seq<(string, Message)>,       // requests on their way, with the identity of the sender
    reqOut: seq<(string, Message)>,      // answers on their way, with the identity of the receiver
    del: State,
    nJobTypes: nat,
    peers: map<string, Peer>)

  ghost predicate Init(s: System) {
    && s.asked == map[] && s.reqIn == s.reqOut == [] && s.peers == map[]
    && s.del == State(map[], map[], [], 0, 0)
  }

  function Without<T>(s: seq<T>, i: nat): seq<T>
    requires i < |s|
  {
    s[..i] + s[i + 1..]
  }

  /** What the requester, or the delegator's network socket, puts on the links. */
  function Routed(sent: seq<Message>): seq<(string, Message)>
    requires forall m | m in sent :: m.address != []
  {
    seq(|sent|, i requires 0 <= i < |sent| => assert sent[i] in sent; RouterOut(sent[i]))
  }

  /** JOB messages leave through the ROUTER socket towards the worker that their address names. */
  function Forwarded(peers: map<string, Peer>, m: Message): map<string, Peer>
    requires m.address != []
  {
    var (w, inner) := RouterOut(m);
    if w in peers then peers[w := peers[w].(toWorker := peers[w].toWorker + [inner])] else peers
  }

  function ForwardedAll(peers: map<string, Peer>, sent: seq<Message>): map<string, Peer>
    requires forall m | m in sent :: m.address != []
  {
    if sent == [] then peers else ForwardedAll(Forwarded(peers, sent[0]), sent[1..])
  }

  datatype Event =
    | Submit(k: Key, b: Batch)               // a requester submits a batch
    | Retrieve(i: nat)                       // a requester reads an answer
    | Admit(i: nat)                          // the delegator reads a REQUEST
    | Poll(now: int)                         // the delegator polls its queue
    | Start(w: string, offer: Option<(nat, nat)>)   // a worker starts with its minion
    | FromMinion(w: string)                  // the worker reads a message of its minion
    | FromWorker(w: string, i: nat, now: int)       // the delegator reads a message of a worker
    | ToWorker(w: string, i: nat)            // the worker reads a message of the delegator
    | Take(w: string)                        // the minion reads a job
    | Finish(w: string)                      // the minion submits its result
    | Leave(w: string)                       // a worker says GOODBYE
    | Timeout(w: string)                     // the heartbeat thread gives a worker up
    | LoseToWorker(w: string, i: nat)        // the network drops a message
    | LoseFromWorker(w: string, i: nat)

  function NewPeer(offer: Option<(nat, nat)>): Peer {
    Peer([], [], Feeder([], true), [], Idle, [Hello(offer)])
  }

  predicate OfferOk(offer: Option<(nat, nat)>) {
    offer.Some? ==> offer.value.0 <= INT_MAX && offer.value.1 <= INT_MAX
  }

  function KeyOf(e: (string, Message)): Key
    requires e.1.address != []
  {
    (e.0, Number(e.1.address[0]))
  }

  // ------------------------------------------------------------------- steps

  ghost predicate Step(s: System, e: Event, s': System, eval: Eval) {
    match e
    case Submit(k, b) =>
      && k !in s.asked && Submittable(k, b)
      && s' == s.(asked := s.asked[k := b], reqIn := s.reqIn + [(k.0, SubmitMessage(k.1, b.types, b.sample))])
    case Retrieve(i) =>
      && i < |s.reqOut| && s.reqOut[i].1.address != []
      && s' == s.(asked := s.asked - {KeyOf(s.reqOut[i])}, reqOut := Without(s.reqOut, i))
    case Admit(i) =>
      && i < |s.reqIn|
      && var m := RouterIn(s.reqIn[i].0, s.reqIn[i].1);
         && |m.data| >= 2 && AllParse(TypeStrings(m))
         && s' == s.(reqIn := Without(s.reqIn, i),
                     del := ReceiveRequest(s.del, m.address, TypeStrings(m), m.data[1]))
    case Poll(now) =>
      && PollReady(s.del)
      && var (del', sent) := OnPoll(s.del, now);
         && (forall m | m in sent :: m.address != [])
         && s' == s.(del := del', peers := ForwardedAll(s.peers, sent))
    case Start(w, offer) =>
      && w !in s.peers && w != "" && OfferOk(offer)
      && s' == s.(peers := s.peers[w := NewPeer(offer)])
    case FromMinion(w) =>
      && w in s.peers && s.peers[w].fromMinion != []
      && s' == s.(peers := s.peers[w := WorkerReads(s.peers[w])])
    case FromWorker(w, i, now) =>
      && w in s.peers && i < |s.peers[w].fromWorker|
      && DelegatorReads(s, w, s.peers[w].fromWorker[i], now,
                        s.(peers := s.peers[w := s.peers[w].(fromWorker := Without(s.peers[w].fromWorker, i))]), s')
    case ToWorker(w, i) =>
      && w in s.peers && i < |s.peers[w].toWorker| && s.peers[w].toWorker[i].subject == JOB
      && s' == s.(peers := s.peers[w := JobArrived(s.peers[w], i)])
    case Take(w) =>
      && w in s.peers && s.peers[w].hand == Idle && s.peers[w].toMinion != [] && Readable(s.peers[w].toMinion[0])
      && s' == s.(peers := s.peers[w := Taken(s.peers[w])])
    case Finish(w) =>
      && w in s.peers && s.peers[w].hand.Busy?
      && s' == s.(peers := s.peers[w := Finished(s.peers[w], eval)])
    case Leave(w) =>
      && w in s.peers
      && s' == s.(peers := s.peers[w := s.peers[w].(fromWorker := s.peers[w].fromWorker + [Message([], GOODBYE, [])])])
    case Timeout(w) =>
      s' == s.(del := DisconnectWorker(s.del, w))
    case LoseToWorker(w, i) =>
      && w in s.peers && i < |s.peers[w].toWorker|
      && s' == s.(peers := s.peers[w := s.peers[w].(toWorker := Without(s.peers[w].toWorker, i))])
    case LoseFromWorker(w, i) =>
      && w in s.peers && i < |s.peers[w].fromWorker|
      && s' == s.(peers := s.peers[w := s.peers[w].(fromWorker := Without(s.peers[w].fromWorker, i))])
  }

  /** The worker reads from its minion: results feed it the next job, the HELLO is only passed on. */
  function WorkerReads(p: Peer): Peer
    requires p.fromMinion != []
  {
    var m := p.fromMinion[0];
    if m.subject == RESULT then
      var (f, sent) := OnResult(p.feeder);
      p.(fromMinion := p.fromMinion[1..], fromWorker := p.fromWorker + [m], feeder := f, toMinion := p.toMinion + sent)
    else
      p.(fromMinion := p.fromMinion[1..], fromWorker := p.fromWorker + [Message([], m.subject, m.data)])
  }

  function JobArrived(p: Peer, i: nat): Peer
    requires i < |p.toWorker|
  {
    var (f, sent) := OnJob(p.feeder, p.toWorker[i]);
    p.(toWorker := Without(p.toWorker, i), feeder := f, toMinion := p.toMinion + sent)
  }

  function Taken(p: Peer): Peer
    requires p.toMinion != [] && Readable(p.toMinion[0])
  {
    var m := p.toMinion[0];
    p.(toMinion := p.toMinion[1..], hand := Busy(m.data[1], StoI(m.data[0]).value, Split(m.data[2], ':')))
  }

  function Finished(p: Peer, eval: Eval): Peer
    requires p.hand.Busy?
  {
    p.(hand := Idle,
       fromMinion := p.fromMinion + [Message([], RESULT, [p.hand.job, eval(p.hand.typ, p.hand.sample)])])
  }

  /** The delegator's handlers of what a worker sends; `t` is the system with the message taken off the link. */
  ghost predicate DelegatorReads(s: System, w: string, m: Message, now: int, t: System, s': System) {
    match m.subject
    case HELLO =>
      && m.data != [] && OfferedRange(m.data[0], s.nJobTypes).Some?
      && var range := OfferedRange(m.data[0], s.nJobTypes).value;
         s' == if w in s.del.workers then t
               else t.(del := ConnectWorker(s.del, w, NewWorker(RouterIn(w, m).address, range.0, range.1, now)))
    case RESULT =>
      && |m.data| >= 2 && ResultExpected(s.del, w, m.data[0])
      && var (del', sent) := ReceiveResult(s.del, w, m.data[0], m.data[1], now);
         && (forall r | r in sent :: r.address != [])
         && s' == t.(del := del', reqOut := s.reqOut + Routed(sent))
    case GOODBYE => s' == t.(del := DisconnectWorker(s.del, w))
    case _ => s' == t
  }

  // -------------------------------------------------------------------- runs

  /** A run: the states passed through and the events between them. */
  datatype Run = Run(states: seq<System>, events: seq<Event>)

  ghost predicate IsRun(r: Run, eval: Eval) {
    && |r.states| == |r.events| + 1
    && Init(r.states[0])
    && forall i | 0 <= i < |r.events| :: Step(r.states[i], r.events[i], r.states[i + 1], eval)
  }

  // ----------------------------------------------------------- the specification

  /** What the protocol is for: a requester asks and is answered by a sequential map of the likelihood. */
  ghost predicate SpecStep(asked: map<Key, Batch>, e: Event, payload: seq<string>, asked': map<Key, Batch>, k: Key, eval: Eval) {
    match e
    case Submit(k', b) => k' !in asked && asked' == asked[k' := b]
    case Retrieve(_) => k in asked && payload == MapTypes(asked[k], eval) && asked' == asked - {k}
    case _ => asked' == asked
  }

  /** The likelihood of the sample for every requested type, in ascending order. */
  ghost function MapTypes(b: Batch, eval: Eval): seq<string> {
    var types := InTypeOrder(Elements(b.types));
    seq(|types|, i requires 0 <= i < |types| => eval(types[i], b.sample))
  }
}
