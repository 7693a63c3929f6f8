/** The worker process that feeds one minion, and the minion itself (comms/worker.cpp, comms/minion.cpp). */
module Workers {
  import opened Text
  import opened Messages

  // ------------------------------------------------------------- the worker

  datatype Feeder = Feeder(queue: seq<Message>, minionWaiting: bool)

  /** onJobFromNetwork: what is left in the worker and what goes to the minion. */
  function OnJob(s: Feeder, m: Message): (Feeder, seq<Message>) {
    if s.minionWaiting then (s.(minionWaiting := false), [m]) else (s.(queue := s.queue + [m]), [])
  }

  /** onResultFromMinion: what goes to the minion next; the result itself goes to the network. */
  function OnResult(s: Feeder): (Feeder, seq<Message>) {
    if |s.queue| > 0 then (s.(queue := s.queue[1..]), [s.queue[0]]) else (s.(minionWaiting := true), [])
  }

  class Worker {
    var queue: seq<Message>
    var minionWaiting: bool
    var minion: seq<Message>      // sent to the minion
    var network: seq<Message>     // sent to the delegator

    constructor ()
      ensures Abstract() == Feeder([], true) && minion == network == []
    {
      queue, minionWaiting := [], true;
      minion, network := [], [];
    }

    ghost function Abstract(): Feeder
      reads this
    {
      Feeder(queue, minionWaiting)
    }

    method OnJobFromNetwork(m: Message)
      modifies this`queue, this`minionWaiting, this`minion
      ensures Abstract() == OnJob(old(Abstract()), m).0
      ensures minion == old(minion) + OnJob(old(Abstract()), m).1
    {
      if minionWaiting {
        minion := minion + [m];
        minionWaiting := false;
      } else {
        queue := queue + [m];
      }
    }

    method OnResultFromMinion(m: Message)
      modifies this
      ensures Abstract() == OnResult(old(Abstract())).0
      ensures minion == old(minion) + OnResult(old(Abstract())).1
      ensures network == old(network) + [m]
    {
      network := network + [m];
      if |queue| > 0 {
        minion := minion + [queue[0]];
        queue := queue[1..];
      } else {
        minionWaiting := true;
      }
    }

    /** forwardToNetwork: the address is dropped. */
    method ForwardToNetwork(m: Message)
      modifies this`network
      ensures network == old(network) + [Message([], m.subject, m.data)]
    {
      network := network + [Message([], m.subject, m.data)];
    }
  }

  // ------------------------------------------------------------- the minion

  /** The HELLO of a minion: no offer for all job types, or a half-open range. */
  function Hello(offer: Option<(nat, nat)>): Message {
    Message([], HELLO, [match offer case None => "" case Some(r) => ToString(r.0) + ":" + ToString(r.1)])
  }

  /** A job the minion can read: std::stoi of the type must not throw. */
  predicate Readable(m: Message) { |m.data| >= 3 && StoI(m.data[0]).Some? }

  class Minion {
    var currentJob: string
    var socket: seq<Message>

    constructor (offer: Option<(nat, nat)>)
      ensures socket == [Hello(offer)]
    {
      currentJob := "";
      socket := [Hello(offer)];
    }

    method NextJob(r: Message) returns (typ: nat, sample: seq<string>)
      requires Readable(r)
      modifies this`currentJob
      ensures currentJob == r.data[1] && StoI(r.data[0]) == Some(typ) && sample == Split(r.data[2], ':')
    {
      currentJob := r.data[1];
      var sampleVectorStr := SplitStr([], r.data[2], ':');
      assert sampleVectorStr == Split(r.data[2], ':');
      sample := [];
      for i := 0 to |sampleVectorStr|
        invariant sample == sampleVectorStr[..i]
      {
        sample := sample + [sampleVectorStr[i]];
      }
      typ := StoI(r.data[0]).value;
    }

    method SubmitResult(result: string)
      modifies this`socket
      ensures socket == old(socket) + [Message([], RESULT, [currentJob, result])]
    {
      socket := socket + [Message([], RESULT, [currentJob, result])];
    }
  }

  // -------------------------------------------- the two of them, in any order of events

  datatype PairEvent = JobArrives(m: Message) | MinionTakes | MinionFinishes | ResultArrives

  /** The feeder, the messages on their way to its minion, the job the minion works on, and the jobs whose results are on
      their way back and with the network. */
  datatype Pair = Pair(feeder: Feeder, toMinion: seq<Message>, current: Option<Message>,
                       fromMinion: seq<Message>, done: seq<Message>)

  predicate Enabled(p: Pair, e: PairEvent) {
    match e
    case JobArrives(_) => true
    case MinionTakes => p.current == None && p.toMinion != []
    case MinionFinishes => p.current.Some?
    case ResultArrives => p.fromMinion != []
  }

  function Next(p: Pair, e: PairEvent): Pair
    requires Enabled(p, e)
  {
    match e
    case JobArrives(m) =>
      var (f, sent) := OnJob(p.feeder, m);
      p.(feeder := f, toMinion := p.toMinion + sent)
    case MinionTakes => p.(current := Some(p.toMinion[0]), toMinion := p.toMinion[1..])
    case MinionFinishes => p.(current := None, fromMinion := p.fromMinion + [p.current.value])
    case ResultArrives =>
      var (f, sent) := OnResult(p.feeder);
      p.(feeder := f, toMinion := p.toMinion + sent, fromMinion := p.fromMinion[1..], done := p.done + [p.fromMinion[0]])
  }

  function AfterAll(p: Pair, events: seq<PairEvent>): Option<Pair> {
    if events == [] then Some(p)
    else match AfterAll(p, events[..|events| - 1])
         case None => None
         case Some(q) => if Enabled(q, events[|events| - 1]) then Some(Next(q, events[|events| - 1])) else None
  }

  function Arrivals(events: seq<PairEvent>): seq<Message> {
    if events == [] then [] else
      var last := events[|events| - 1];
      Arrivals(events[..|events| - 1]) + if last.JobArrives? then [last.m] else []
  }

  function Held(current: Option<Message>): seq<Message> { if current.Some? then [current.value] else [] }

  /** The jobs done, on their way back, in hand, on their way to the minion and queued, in this order. */
  function Whole(p: Pair): seq<Message> { p.done + p.fromMinion + Held(p.current) + p.toMinion + p.feeder.queue }

  /** Idle pair: nothing anywhere. */
  const Fresh: Pair := Pair(Feeder([], true), [], None, [], [])

  /** The minion has exactly one job unless the worker counts it as waiting, and a waiting minion leaves nothing queued. */
  ghost predicate OneAtATime(p: Pair) {
    && |p.toMinion| + |Held(p.current)| + |p.fromMinion| == (if p.feeder.minionWaiting then 0 else 1)
    && (p.feeder.minionWaiting ==> p.feeder.queue == [])
  }

  /** Whatever the order of events, the minion is never given a job while it has another one, and the jobs come back in
      the order in which they arrived: those done, the one in hand and those queued are the arrivals, none lost. */
  lemma {:induction false} FirstComeFirstServed(events: seq<PairEvent>)
    requires AfterAll(Fresh, events).Some?
    ensures var p := AfterAll(Fresh, events).value;
            OneAtATime(p) && Whole(p) == Arrivals(events)
  {
    if events != [] {
      var init, e := events[..|events| - 1], events[|events| - 1];
      FirstComeFirstServed(init);
      var q := AfterAll(Fresh, init).value;
      OneStep(q, e, Arrivals(init));
    }
  }

  lemma OneStep(q: Pair, e: PairEvent, arrived: seq<Message>)
    requires OneAtATime(q) && Enabled(q, e) && Whole(q) == arrived
    ensures OneAtATime(Next(q, e)) && Whole(Next(q, e)) == arrived + if e.JobArrives? then [e.m] else []
  {
    hide OneAtATime, Whole, Next;
    match e
    case JobArrives(m) => ArrivesStep(q, m);
    case MinionTakes => TakesStep(q);
    case MinionFinishes => FinishesStep(q);
    case ResultArrives => ResultStep(q);
  }

  lemma ArrivesStep(q: Pair, m: Message)
    requires OneAtATime(q)
    ensures OneAtATime(Next(q, JobArrives(m))) && Whole(Next(q, JobArrives(m))) == Whole(q) + [m]
  {
    var p := Next(q, JobArrives(m));
    if q.feeder.minionWaiting {
      assert p.toMinion == [m] && p.feeder.queue == q.feeder.queue == q.toMinion == [];
    } else {
      assert p.toMinion == q.toMinion && p.feeder.queue == q.feeder.queue + [m];
    }
  }

  lemma TakesStep(q: Pair)
    requires OneAtATime(q) && Enabled(q, MinionTakes)
    ensures OneAtATime(Next(q, MinionTakes)) && Whole(Next(q, MinionTakes)) == Whole(q)
  {
    assert q.toMinion == [q.toMinion[0]] && q.toMinion[1..] == [];
    assert Held(Next(q, MinionTakes).current) == q.toMinion && Held(q.current) == [];
  }

  lemma FinishesStep(q: Pair)
    requires OneAtATime(q) && Enabled(q, MinionFinishes)
    ensures OneAtATime(Next(q, MinionFinishes)) && Whole(Next(q, MinionFinishes)) == Whole(q)
  {
    assert q.fromMinion == [] && Next(q, MinionFinishes).fromMinion == Held(q.current);
  }

  lemma ResultStep(q: Pair)
    requires OneAtATime(q) && Enabled(q, ResultArrives)
    ensures OneAtATime(Next(q, ResultArrives)) && Whole(Next(q, ResultArrives)) == Whole(q)
  {
    var p := Next(q, ResultArrives);
    assert q.fromMinion == [q.fromMinion[0]] && p.fromMinion == [] && q.toMinion == Held(q.current) == [];
    if |q.feeder.queue| > 0 {
      assert p.toMinion == [q.feeder.queue[0]] && q.feeder.queue == p.toMinion + p.feeder.queue;
    } else {
      assert p.toMinion == p.feeder.queue == q.feeder.queue == [];
    }
  }

  /** A minion's range, printed and read back by the delegator, is the range it offered, for numbers an int can hold. */
  lemma OfferRoundTrip(first: nat, second: nat)
    requires first <= INT_MAX && second <= INT_MAX
    ensures var offer := Hello(Some((first, second))).data[0];
            && offer != ""
            && Split(offer, ':') == [ToString(first), ToString(second)]
            && StoI(ToString(first)) == Some(first) && StoI(ToString(second)) == Some(second)
  {
    var parts := [ToString(first), ToString(second)];
    ToStringColonFree(first);
    ToStringColonFree(second);
    ToStringValue(second);
    StoIRoundTrip(first);
    StoIRoundTrip(second);
    JoinSplitRoundTrip(parts, ':');
    assert parts[1..] == [ToString(second)];
    assert Join(parts, ':') == Hello(Some((first, second))).data[0];
  }
}
