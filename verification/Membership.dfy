/** Agreement between the delegator and the heartbeat thread about who is connected, over the two message channels
    between them (comms/delegator.cpp, comms/serverheartbeat.cpp). Nothing is assumed about what the network sends. */
module Membership {
  import opened Text
  import opened Messages
  import opened Requesters
  import opened DelegatorStates
  import opened Accounting
  import opened Placement
  import opened Heartbeats

  datatype System = System(del: State, toMonitor: seq<Message>, monitor: Monitor, fromMonitor: seq<Message>)

  datatype Event =
    | Hello(w: string, first: nat, second: nat, now: int)   // HELLO from the network, with the range it offers
    | Goodbye(w: string)                     // GOODBYE from the network
    | Heartbeat(w: string)                   // HEARTBEAT from the network
    | Request(address: Address, typeStrs: set<string>, data: string)
    | Result(w: string, jobID: string, value: string, now: int)
    | Poll(now: int)
    | SendFailed(w: string)                  // a message to a worker could not be sent
    | MonitorReads(now: int)                 // the heartbeat thread handles the next message
    | MonitorPolls(now: int, msTimeout: nat, order: seq<string>, beats: seq<string>)
    | DelegatorReads                         // the delegator handles the next message of the heartbeat thread

  ghost predicate Step(s: System, e: Event, s': System) {
    match e
    case Hello(w, first, second, now) =>
      s' == s.(toMonitor := s.toMonitor + [Message([w], HELLO, [])],
               del := if w in s.del.workers then s.del
                      else ConnectWorker(s.del, w, NewWorker([w], first, second, now)))
    case Goodbye(w) =>
      s' == s.(toMonitor := s.toMonitor + [Message([w], GOODBYE, [])], del := DisconnectWorker(s.del, w))
    case Heartbeat(w) => s' == s.(toMonitor := s.toMonitor + [Message([w], HEARTBEAT, [])])
    case Request(address, typeStrs, data) =>
      && address != [] && AllParse(typeStrs)
      && s' == s.(del := ReceiveRequest(s.del, address, typeStrs, data))
    case Result(w, jobID, value, now) =>
      && ResultExpected(s.del, w, jobID)
      && s' == s.(del := ReceiveResult(s.del, w, jobID, value, now).0)
    case Poll(now) => PollReady(s.del) && s' == s.(del := OnPoll(s.del, now).0)
    case SendFailed(w) => s' == s.(del := DisconnectWorker(s.del, w))
    case MonitorReads(now) =>
      && s.toMonitor != [] && |s.toMonitor[0].address| == 1
      && s' == s.(toMonitor := s.toMonitor[1..], monitor := Read(s.monitor, s.toMonitor[0], now))
    case MonitorPolls(now, msTimeout, order, beats) =>
      && Tracked(s.monitor) && Visits(order, s.monitor.clients - AfterTimeouts(s.monitor, now, msTimeout).clients)
      && s' == s.(monitor := AfterTimeouts(s.monitor, now, msTimeout),
                  fromMonitor := s.fromMonitor + Notices(GOODBYE, order) + Notices(HEARTBEAT, beats))
    case DelegatorReads =>
      && s.fromMonitor != [] && |s.fromMonitor[0].address| == 1
      && var m := s.fromMonitor[0];
         s' == s.(fromMonitor := s.fromMonitor[1..],
                  del := if m.subject == GOODBYE then DisconnectWorker(s.del, m.address[0]) else s.del)
  }

  /** What the heartbeat thread does with a message of the delegator. */
  function Read(monitor: Monitor, m: Message, now: int): Monitor
    requires |m.address| == 1
  {
    match m.subject
    case HELLO => Inserted(monitor, m.address[0], now)
    case GOODBYE => Deleted(monitor, m.address[0])
    case HEARTBEAT => Heard(monitor, m.address[0], now)
    case _ => monitor
  }

  /** A monitored client whose heartbeat is read survives every check within the timeout from then. */
  lemma HeardIsKept(monitor: Monitor, m: Message, heard: int, now: int, msTimeout: nat)
    requires Tracked(monitor) && |m.address| == 1 && m.subject == HEARTBEAT && m.address[0] in monitor.clients
    requires ElapsedMs(now, heard) <= msTimeout
    ensures m.address[0] in AfterTimeouts(Read(monitor, m, heard), now, msTimeout).clients
  {
    TimeoutsRemove(Read(monitor, m, heard), now, msTimeout);
  }

  /** Requests, results and polls change nobody's membership. */
  lemma OthersKeepMembers(s: System, e: Event, s': System)
    requires Step(s, e, s') && (e.Request? || e.Result? || e.Poll?)
    ensures s'.del.workers.Keys == s.del.workers.Keys && s' == s.(del := s'.del)
  {
    hide BestAmong, PollReady, AllParse, ResultExpected;
    match e {
      case Request(_, _, _) => hide NewJobs;
      case Result(_, _, _, _) =>
      case Poll(now) => PollKeepsMembers(s.del, 0, now);
    }
  }

  lemma {:induction false} PollKeepsMembers(s: State, i: nat, now: int)
    requires PollReady(s)
    ensures PollFrom(s, i, now).0.workers.Keys == s.workers.Keys
    decreases |s.jobQueue| - i
  {
    if i < |s.jobQueue| {
      match BestWorker(s.workers, s.jobQueue[i].typ, MAX_JOBS) {
        case None => PollKeepsMembers(s, i + 1, now);
        case Some(w) =>
          DispatchReady(s, i, w, now);
          PollKeepsMembers(Dispatch(s, i, w, now), i, now);
      }
    }
  }

  // ------------------------------------------------------------- the invariant

  /** The last HELLO or GOODBYE about a worker that the heartbeat thread has still to read. */
  function LastAbout(link: seq<Message>, w: string): Option<Subject> {
    if link == [] then None
    else
      var m := link[|link| - 1];
      if m.address == [w] && (m.subject == HELLO || m.subject == GOODBYE) then Some(m.subject)
      else LastAbout(link[..|link| - 1], w)
  }

  predicate GivenUp(link: seq<Message>, w: string) { Message([w], GOODBYE, []) in link }

  /** A connected worker is monitored, or is about to be, or its disconnection is on the way to the delegator. */
  ghost predicate Watched(s: System, w: string) {
    match LastAbout(s.toMonitor, w)
    case Some(subject) => subject == HELLO
    case None => w in s.monitor.clients || GivenUp(s.fromMonitor, w)
  }

  ghost predicate Addressed(link: seq<Message>) { forall m | m in link :: |m.address| == 1 }

  ghost predicate MembershipInv(s: System) {
    && Tracked(s.monitor)
    && Addressed(s.toMonitor) && Addressed(s.fromMonitor)
    && forall w | w in s.del.workers :: Watched(s, w)
  }

  /** Reading the oldest message only matters when there is no later one about the worker. */
  lemma {:induction false} LastAboutRest(link: seq<Message>, w: string)
    requires link != []
    ensures LastAbout(link, w) == if LastAbout(link[1..], w).Some? then LastAbout(link[1..], w) else LastAbout([link[0]], w)
    decreases |link|
  {
    if |link| == 1 {
      assert link[1..] == [] && [link[0]] == link;
    } else {
      var m := link[|link| - 1];
      assert link[1..][|link| - 2] == m;
      assert link[1..][..|link| - 2] == link[..|link| - 1][1..];
      LastAboutRest(link[..|link| - 1], w);
    }
  }

  lemma LastAboutOne(m: Message, w: string)
    ensures LastAbout([m], w)
            == if m.address == [w] && (m.subject == HELLO || m.subject == GOODBYE) then Some(m.subject) else None
  {
  }

  lemma MonitorReadsKeeps(s: System, now: int, w: string)
    requires s.toMonitor != [] && |s.toMonitor[0].address| == 1 && Watched(s, w)
    ensures Watched(s.(toMonitor := s.toMonitor[1..], monitor := Read(s.monitor, s.toMonitor[0], now)), w)
  {
    var m := s.toMonitor[0];
    LastAboutRest(s.toMonitor, w);
    LastAboutOne(m, w);
    assert m.address == [m.address[0]];
  }

  lemma NoticesHave(subject: Subject, order: seq<string>)
    ensures forall w | w in order :: Message([w], subject, []) in Notices(subject, order)
    ensures forall m | m in Notices(subject, order) :: |m.address| == 1
  {
    forall w | w in order
      ensures Message([w], subject, []) in Notices(subject, order)
    {
      var i :| 0 <= i < |order| && order[i] == w;
      assert Notices(subject, order)[i] == Message([w], subject, []);
    }
  }

  lemma MonitorPollsKeeps(s: System, e: Event, s': System)
    requires MembershipInv(s) && e.MonitorPolls? && Step(s, e, s')
    ensures MembershipInv(s')
  {
    NoticesHave(GOODBYE, e.order);
    NoticesHave(HEARTBEAT, e.beats);
    forall w | w in s'.del.workers
      ensures Watched(s', w)
    {
      assert Watched(s, w);
      if w in e.order {
        assert Message([w], GOODBYE, []) in Notices(GOODBYE, e.order);
      }
    }
  }

  lemma StepKeeps(s: System, e: Event, s': System)
    requires MembershipInv(s) && Step(s, e, s')
    ensures MembershipInv(s')
  {
    hide NewWorker, NewJobs, PollReady, BestAmong, OnPoll, ReceiveResult, ReceiveRequest, Requeued;
    match e {
      case MonitorPolls(_, _, _, _) => MonitorPollsKeeps(s, e, s');
      case MonitorReads(now) =>
        forall w | w in s.del.workers
          ensures Watched(s', w)
        {
          MonitorReadsKeeps(s, now, w);
        }
      case Hello(v, _, _, _) => AppendKeeps(s, Message([v], HELLO, []), s');
      case Goodbye(v) => AppendKeeps(s, Message([v], GOODBYE, []), s');
      case Heartbeat(v) => AppendKeeps(s, Message([v], HEARTBEAT, []), s');
      case DelegatorReads =>
        forall w | w in s'.del.workers
          ensures Watched(s', w)
        {
          assert Watched(s, w);
        }
      case SendFailed(v) =>
        forall w | w in s'.del.workers
          ensures Watched(s', w)
        {
          assert Watched(s, w);
        }
      case _ =>
        OthersKeepMembers(s, e, s');
        hide Step;
        forall w | w in s'.del.workers
          ensures Watched(s', w)
        {
          assert Watched(s, w);
        }
    }
  }

  lemma AppendKeeps(s: System, m: Message, s': System)
    requires MembershipInv(s) && |m.address| == 1
    requires s'.toMonitor == s.toMonitor + [m] && s'.monitor == s.monitor && s'.fromMonitor == s.fromMonitor
    requires s'.del.workers.Keys <= s.del.workers.Keys + if m.subject == HELLO then {m.address[0]} else {}
    requires m.subject == GOODBYE ==> m.address[0] !in s'.del.workers
    ensures MembershipInv(s')
  {
  }

  ghost predicate IsRun(states: seq<System>, events: seq<Event>) {
    && |states| == |events| + 1
    && states[0] == System(State(map[], map[], [], 0, 0), [], Monitor({}, map[]), [])
    && forall i | 0 <= i < |events| :: Step(states[i], events[i], states[i + 1])
  }

  /** In every reachable state no connected worker goes unwatched, and the heartbeat thread has a time for every client it
      monitors; once both channels are empty every connected worker is monitored. */
  lemma {:induction false} NobodyUnwatched(states: seq<System>, events: seq<Event>, n: nat)
    requires IsRun(states, events) && n < |states|
    ensures MembershipInv(states[n])
    ensures var s := states[n];
            s.toMonitor == [] && s.fromMonitor == [] ==> s.del.workers.Keys <= s.monitor.clients
  {
    var s := states[n];
    if n > 0 {
      NobodyUnwatched(states, events, n - 1);
      StepKeeps(states[n - 1], events[n - 1], states[n]);
    }
    forall w | w in s.del.workers
      ensures s.toMonitor == [] && s.fromMonitor == [] ==> w in s.monitor.clients
    {
      assert Watched(s, w);
    }
  }

  // ------------------------------------------------------------ giving up once

  /** The i-th event gives w up: the heartbeat thread sends its GOODBYE. */
  predicate GivesUp(events: seq<Event>, i: nat, w: string) {
    i < |events| && events[i].MonitorPolls? && w in events[i].order
  }

  /** At the i-th event the heartbeat thread reads a HELLO of w. */
  predicate Greets(states: seq<System>, events: seq<Event>, i: nat, w: string) {
    && i < |events| && i < |states| && events[i].MonitorReads? && states[i].toMonitor != []
    && states[i].toMonitor[0].subject == HELLO && states[i].toMonitor[0].address == [w]
  }

  /** Whoever is monitored again after being given up has been heard to say HELLO. */
  lemma {:induction false} GreetedSince(states: seq<System>, events: seq<Event>, i: nat, n: nat, w: string)
    requires IsRun(states, events) && GivesUp(events, i, w) && i < n < |states| && w in states[n].monitor.clients
    ensures exists k :: i < k < n && Greets(states, events, k, w)
    decreases n
  {
    var (s, e, s') := (states[n - 1], events[n - 1], states[n]);
    assert Step(s, e, s');
    hide IsRun, Step;
    if i == n - 1 {
      OutOnceGivenUp(s, e, s', w);
    } else if w in s.monitor.clients {
      GreetedSince(states, events, i, n - 1, w);
    } else {
      InOnceGreeted(s, e, s', w);
      assert Greets(states, events, n - 1, w);
    }
  }

  lemma OutOnceGivenUp(s: System, e: Event, s': System, w: string)
    requires Step(s, e, s') && e.MonitorPolls? && w in e.order
    ensures w in s.monitor.clients && w !in s'.monitor.clients
  {
  }

  lemma InOnceGreeted(s: System, e: Event, s': System, w: string)
    requires Step(s, e, s') && w !in s.monitor.clients && w in s'.monitor.clients
    ensures e.MonitorReads? && s.toMonitor != [] && s.toMonitor[0].subject == HELLO && s.toMonitor[0].address == [w]
  {
    hide NewWorker, PollReady, OnPoll, ReceiveResult, ReceiveRequest, ResultExpected, AllParse, DisconnectWorker;
    if e.MonitorReads? {
      var m := s.toMonitor[0];
      assert m.address == [m.address[0]];
    }
  }

  /** In no run is a client given up twice without a HELLO of it in between, and one that is given up is told so once. */
  lemma GivenUpOnce(states: seq<System>, events: seq<Event>, i: nat, j: nat, w: string)
    requires IsRun(states, events) && i < j && GivesUp(events, i, w) && GivesUp(events, j, w)
    ensures exists k :: i < k < j && Greets(states, events, k, w)
    ensures exists a :: 0 <= a < |events[i].order| && events[i].order[a] == w
                        && forall b | 0 <= b < |events[i].order| && b != a :: events[i].order[b] != w
  {
    assert Step(states[i], events[i], states[i + 1]) && Step(states[j], events[j], states[j + 1]);
    OutOnceGivenUp(states[j], events[j], states[j + 1], w);
    GreetedSince(states, events, i, j, w);
    var order := events[i].order;
    var a :| 0 <= a < |order| && order[a] == w;
    forall b | 0 <= b < |order| && b != a
      ensures order[b] != w
    {
    }
  }
}
