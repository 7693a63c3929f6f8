/** The heartbeat threads of server and client (comms/serverheartbeat.cpp, comms/clientheartbeat.cpp).
    Times are in microseconds of the clock that both sides read. */
module Heartbeats {
  import opened Text
  import opened Messages
  import opened Ordering

  /** std::chrono::duration_cast to milliseconds. */
  function ElapsedMs(now: int, then_: int): int { (now - then_) / 1000 }

  // ------------------------------------------------------------------ server

  /** The clients being monitored, and when each identity was last heard of. */
  datatype Monitor = Monitor(clients: set<string>, lastHeartbeats: map<string, int>)

  function Inserted(s: Monitor, w: string, now: int): Monitor {
    Monitor(s.clients + {w}, if w in s.lastHeartbeats then s.lastHeartbeats else s.lastHeartbeats[w := now])
  }

  function Deleted(s: Monitor, w: string): Monitor {
    Monitor(s.clients - {w}, s.lastHeartbeats - {w})
  }

  function Heard(s: Monitor, w: string, now: int): Monitor {
    s.(lastHeartbeats := s.lastHeartbeats[w := now])
  }

  /** The look-ups of monitorTimeouts find every client. */
  ghost predicate Tracked(s: Monitor) { s.clients <= s.lastHeartbeats.Keys }

  function Expired(s: Monitor, now: int, msTimeout: nat): set<string>
    requires s.clients <= s.lastHeartbeats.Keys
  {
    set w | w in s.clients && ElapsedMs(now, s.lastHeartbeats[w]) > msTimeout
  }

  function AfterTimeouts(s: Monitor, now: int, msTimeout: nat): Monitor
    requires s.clients <= s.lastHeartbeats.Keys
  {
    var expired := Expired(s, now, msTimeout);
    Monitor(s.clients - expired, s.lastHeartbeats - expired)
  }

  /** A client stays exactly when it was heard of within the timeout; the times of those that go, go with them, and no other
      time changes. */
  lemma TimeoutsRemove(s: Monitor, now: int, msTimeout: nat)
    requires Tracked(s)
    ensures var t := AfterTimeouts(s, now, msTimeout);
            && Tracked(t)
            && (forall w :: w in t.clients <==> w in s.clients && ElapsedMs(now, s.lastHeartbeats[w]) <= msTimeout)
            && t.lastHeartbeats.Keys == s.lastHeartbeats.Keys - (s.clients - t.clients)
            && (forall w | w in t.lastHeartbeats :: t.lastHeartbeats[w] == s.lastHeartbeats[w])
            && Expired(s, now, msTimeout) == s.clients - t.clients
  {
  }

  function Notices(subject: Subject, order: seq<string>): (sent: seq<Message>)
    ensures |sent| == |order|
  {
    seq(|order|, i requires 0 <= i < |order| => Message([order[i]], subject, []))
  }

  /** An order of visiting a set in which each element comes up once. */
  ghost predicate Visits(order: seq<string>, s: set<string>) {
    && (forall x :: x in order <==> x in s)
    && (forall i, j | 0 <= i < j < |order| :: order[i] != order[j])
  }

  class ServerHeartbeat {
    var clients: set<string>
    var lastHeartbeats: map<string, int>
    var lastSendTime: int
    var socket: seq<Message>
    const msRate: nat
    const msTimeout: nat

    constructor (msRate: nat, msTimeout: nat, now: int)
      ensures Abstract() == Monitor({}, map[]) && Tracked(Abstract()) && socket == [] && lastSendTime == now
      ensures this.msRate == msRate && this.msTimeout == msTimeout
    {
      clients, lastHeartbeats, lastSendTime, socket := {}, map[], now, [];
      this.msRate, this.msTimeout := msRate, msTimeout;
    }

    ghost function Abstract(): Monitor
      reads this
    {
      Monitor(clients, lastHeartbeats)
    }

    method InsertClient(m: Message, now: int)
      requires m.address != []
      modifies this`clients, this`lastHeartbeats
      ensures Abstract() == Inserted(old(Abstract()), m.address[|m.address| - 1], now)
      ensures var back := m.address[|m.address| - 1];
              && clients == old(clients) + {back} && lastHeartbeats.Keys == old(lastHeartbeats).Keys + {back}
              && (forall w | w in old(lastHeartbeats) :: lastHeartbeats[w] == old(lastHeartbeats)[w])
              && (back !in old(lastHeartbeats) ==> lastHeartbeats[back] == now)
    {
      var back := m.address[|m.address| - 1];
      clients := clients + {back};
      if back !in lastHeartbeats {
        lastHeartbeats := lastHeartbeats[back := now];
      }
    }

    method DeleteClient(m: Message)
      requires m.address != []
      modifies this`clients, this`lastHeartbeats
      ensures Abstract() == Deleted(old(Abstract()), m.address[|m.address| - 1])
      ensures var back := m.address[|m.address| - 1];
              && clients == old(clients) - {back} && lastHeartbeats.Keys == old(lastHeartbeats).Keys - {back}
              && (forall w | w in lastHeartbeats :: lastHeartbeats[w] == old(lastHeartbeats)[w])
    {
      var back := m.address[|m.address| - 1];
      clients := clients - {back};
      lastHeartbeats := lastHeartbeats - {back};
    }

    method ReceiveHeartbeat(m: Message, now: int)
      requires m.address != []
      modifies this`lastHeartbeats
      ensures Abstract() == Heard(old(Abstract()), m.address[|m.address| - 1], now)
      ensures clients == old(clients) && lastHeartbeats == old(lastHeartbeats)[m.address[|m.address| - 1] := now]
    {
      lastHeartbeats := lastHeartbeats[m.address[|m.address| - 1] := now];
    }

    /** One pass at time `now`: exactly the expired clients leave, and one GOODBYE is sent for each. */
    method MonitorTimeouts(now: int)
      requires Tracked(Abstract())
      modifies this`clients, this`lastHeartbeats, this`socket
      ensures Abstract() == AfterTimeouts(old(Abstract()), now, msTimeout)
      ensures exists order :: Visits(order, old(clients) - clients) && socket == old(socket) + Notices(GOODBYE, order)
      ensures forall w :: w in clients <==> w in old(clients) && ElapsedMs(now, old(lastHeartbeats)[w]) <= msTimeout
      ensures lastHeartbeats.Keys == old(lastHeartbeats).Keys - (old(clients) - clients)
      ensures forall w | w in lastHeartbeats :: lastHeartbeats[w] == old(lastHeartbeats)[w]
    {
      ghost var expired := Expired(Abstract(), now, msTimeout);
      var toRemove := [];
      var left := clients;
      while left != {}
        invariant left <= clients <= lastHeartbeats.Keys + (set w | w in toRemove)
        invariant clients == old(clients) && left <= lastHeartbeats.Keys
        invariant Visits(toRemove, expired - left)
        invariant lastHeartbeats == old(lastHeartbeats) - (expired - left)
        invariant socket == old(socket) + Notices(GOODBYE, toRemove)
      {
        var addr :| addr in left;
        if ElapsedMs(now, lastHeartbeats[addr]) > msTimeout {
          assert Notices(GOODBYE, toRemove + [addr]) == Notices(GOODBYE, toRemove) + [Message([addr], GOODBYE, [])];
          socket := socket + [Message([addr], GOODBYE, [])];
          lastHeartbeats := lastHeartbeats - {addr};
          toRemove := toRemove + [addr];
          assert expired - (left - {addr}) == (expired - left) + {addr};
        } else {
          assert expired - (left - {addr}) == expired - left;
        }
        left := left - {addr};
      }
      assert expired - left == expired;
      for i := 0 to |toRemove|
        invariant clients == old(clients) - (set w | w in toRemove[..i])
        invariant lastHeartbeats == old(lastHeartbeats) - expired && socket == old(socket) + Notices(GOODBYE, toRemove)
      {
        assert toRemove[..i + 1] == toRemove[..i] + [toRemove[i]];
        clients := clients - {toRemove[i]};
      }
      assert toRemove[..|toRemove|] == toRemove;
      assert Visits(toRemove, expired);
      assert (set w | w in toRemove) == expired;
      assert lastHeartbeats == old(lastHeartbeats) - expired && clients == old(clients) - expired;
      TimeoutsRemove(old(Abstract()), now, msTimeout);
    }

    /** One HEARTBEAT to each client when the last round is old enough; the round's time is kept only if it sent any. */
    method SendHeartbeats(now: int)
      modifies this`socket, this`lastSendTime
      ensures ElapsedMs(now, old(lastSendTime)) < msRate ==> socket == old(socket) && lastSendTime == old(lastSendTime)
      ensures ElapsedMs(now, old(lastSendTime)) >= msRate ==>
                && (exists order :: Visits(order, clients) && socket == old(socket) + Notices(HEARTBEAT, order))
                && lastSendTime == if clients == {} then old(lastSendTime) else now
    {
      if ElapsedMs(now, lastSendTime) >= msRate {
        var done := [];
        var left := clients;
        while left != {}
          invariant left <= clients && Visits(done, clients - left)
          invariant socket == old(socket) + Notices(HEARTBEAT, done)
          invariant lastSendTime == if left == clients then old(lastSendTime) else now
        {
          var addr :| addr in left;
          assert clients - (left - {addr}) == (clients - left) + {addr};
          assert Notices(HEARTBEAT, done + [addr]) == Notices(HEARTBEAT, done) + [Message([addr], HEARTBEAT, [])];
          socket := socket + [Message([addr], HEARTBEAT, [])];
          lastSendTime := now;
          done := done + [addr];
          left := left - {addr};
        }
        assert clients - left == clients;
      }
    }
  }

  // ------------------------------------------------------------------ client

  /** When a client last sent a heartbeat, and when it last looked whether to. */
  datatype Client = Client(lastSend: int, lastPoll: int)

  predicate Due(c: Client, now: int, msRate: nat) { ElapsedMs(now, c.lastSend) >= msRate }

  function ClientPoll(c: Client, now: int, msRate: nat): Client {
    Client(if Due(c, now, msRate) then now else c.lastSend, now)
  }

  class ClientHeartbeat {
    var lastSendTime: int
    var lastReceivedTime: int
    ghost var lastPoll: int
    var running: bool
    var socket: seq<Message>
    const msRate: nat

    constructor (msRate: nat, now: int)
      ensures Abstract() == Client(now, now) && running && socket == [] && this.msRate == msRate
    {
      lastSendTime, lastReceivedTime, lastPoll, running, socket := now, now, now, true, [];
      this.msRate := msRate;
    }

    ghost function Abstract(): Client
      reads this
    {
      Client(lastSendTime, lastPoll)
    }

    /** The on-poll action. */
    method SendHeartbeat(now: int)
      modifies this`lastSendTime, this`lastPoll, this`socket
      ensures Abstract() == ClientPoll(old(Abstract()), now, msRate)
      ensures ElapsedMs(now, old(lastSendTime)) >= msRate ==>
                socket == old(socket) + [Message([], HEARTBEAT, [])] && lastSendTime == now
      ensures ElapsedMs(now, old(lastSendTime)) < msRate ==> socket == old(socket) && lastSendTime == old(lastSendTime)
    {
      if ElapsedMs(now, lastSendTime) >= msRate {
        socket := socket + [Message([], HEARTBEAT, [])];
        lastSendTime := now;
      }
      lastPoll := now;
    }

    method HeartbeatArrived(now: int)
      modifies this`lastReceivedTime
      ensures lastReceivedTime == now
    {
      lastReceivedTime := now;
    }

    method ReceiveGoodbye()
      modifies this`running
      ensures !running
    {
      running := false;
    }
  }
}
