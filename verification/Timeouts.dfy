/** Clients, their heartbeats on the way, and the server's monitor in time: when a live client can be given up. */
module Timeouts {
  import opened Text
  import opened Heartbeats

  /** In milliseconds: the client's heartbeat period, the longest gap between its polls, the longest time a heartbeat takes
      until it is processed, and the server's timeout. */
  datatype Config = Config(msRate: nat, msPoll: nat, msDelay: nat, msTimeout: nat)

  datatype State = State(now: int, live: map<string, Client>, started: set<string>,
                         inFlight: seq<(string, int)>, monitor: Monitor)

  datatype Event =
    | Tick(d: nat)           // time passes
    | Begin(w: string)       // a client starts
    | Die(w: string)         // a client stops without a word
    | Polls(w: string)       // a client polls
    | Hello(w: string)       // the server's heartbeat thread processes a HELLO
    | Arrives(i: nat)        // it processes a heartbeat
    | Checks                 // it looks for timeouts

  const Start: State := State(0, map[], {}, [], Monitor({}, map[]))

  /** Time may not pass a poll or a delivery that is due; nothing else is scheduled. */
  ghost predicate Enabled(cfg: Config, s: State, e: Event) {
    match e
    case Tick(d) =>
      && (forall w | w in s.live :: s.now + d - s.live[w].lastPoll <= cfg.msPoll * 1000)
      && (forall b | b in s.inFlight :: s.now + d - b.1 <= cfg.msDelay * 1000)
    case Begin(w) => w !in s.started
    case Die(w) => w in s.live
    case Polls(w) => w in s.live
    case Hello(w) => w in s.started
    case Arrives(i) => i < |s.inFlight|
    case Checks => Tracked(s.monitor)
  }

  function Next(cfg: Config, s: State, e: Event): State
    requires Enabled(cfg, s, e)
  {
    match e
    case Tick(d) => s.(now := s.now + d)
    case Begin(w) => s.(live := s.live[w := Client(s.now, s.now)], started := s.started + {w})
    case Die(w) => s.(live := s.live - {w})
    case Polls(w) =>
      s.(live := s.live[w := ClientPoll(s.live[w], s.now, cfg.msRate)],
         inFlight := if Due(s.live[w], s.now, cfg.msRate) then s.inFlight + [(w, s.now)] else s.inFlight)
    case Hello(w) => s.(monitor := Inserted(s.monitor, w, s.now))
    case Arrives(i) =>
      s.(inFlight := s.inFlight[..i] + s.inFlight[i + 1..], monitor := Heard(s.monitor, s.inFlight[i].0, s.now))
    case Checks => s.(monitor := AfterTimeouts(s.monitor, s.now, cfg.msTimeout))
  }

  ghost function After(cfg: Config, events: seq<Event>): Option<State> {
    if events == [] then Some(Start)
    else match After(cfg, events[..|events| - 1])
         case None => None
         case Some(s) =>
           if Enabled(cfg, s, events[|events| - 1]) then Some(Next(cfg, s, events[|events| - 1])) else None
  }

  /** A run after which the server gives up a client that is alive. */
  ghost predicate GivesUpLive(cfg: Config, events: seq<Event>, w: string) {
    && After(cfg, events).Some?
    && var s := After(cfg, events).value;
       && Tracked(s.monitor) && w in s.live && w in Expired(s.monitor, s.now, cfg.msTimeout)
  }

  // ------------------------------------------------------------------- safety

  /** The longest that a client looks at its clock without sending, in microseconds. */
  function Quiet(cfg: Config): nat { if cfg.msRate == 0 then 0 else cfg.msRate * 1000 - 1 }

  ghost predicate ClientOk(cfg: Config, c: Client, now: int) {
    && c.lastSend <= c.lastPoll <= now <= c.lastPoll + cfg.msPoll * 1000
    && c.lastPoll - c.lastSend <= Quiet(cfg)
  }

  /** The heartbeat that will reach the server next was sent, or will be, within a period and a poll of the last one. */
  ghost predicate Covered(cfg: Config, s: State, w: string)
    requires w in s.live && w in s.monitor.lastHeartbeats
  {
    || s.live[w].lastSend <= s.monitor.lastHeartbeats[w]
    || exists b :: b in s.inFlight && b.0 == w && b.1 <= s.monitor.lastHeartbeats[w] + Quiet(cfg) + cfg.msPoll * 1000
  }

  ghost predicate TimedInv(cfg: Config, s: State) {
    && Tracked(s.monitor)
    && s.live.Keys <= s.started && s.monitor.lastHeartbeats.Keys <= s.started
    && (forall w | w in s.live :: ClientOk(cfg, s.live[w], s.now))
    && (forall b | b in s.inFlight :: b.0 in s.started && b.1 <= s.now <= b.1 + cfg.msDelay * 1000)
    && (forall w | w in s.live && w in s.monitor.lastHeartbeats ::
          s.monitor.lastHeartbeats[w] <= s.now && Covered(cfg, s, w))
  }

  lemma PollOk(cfg: Config, c: Client, now: int)
    requires ClientOk(cfg, c, now)
    ensures ClientOk(cfg, ClientPoll(c, now, cfg.msRate), now)
  {
  }

  lemma PollsKeeps(cfg: Config, s: State, w: string)
    requires TimedInv(cfg, s) && w in s.live
    ensures TimedInv(cfg, Next(cfg, s, Polls(w)))
  {
    var s' := Next(cfg, s, Polls(w));
    PollOk(cfg, s.live[w], s.now);
    forall v | v in s'.live && v in s'.monitor.lastHeartbeats
      ensures Covered(cfg, s', v)
    {
      assert Covered(cfg, s, v) && ClientOk(cfg, s.live[v], s.now);
      if s.live[v].lastSend <= s.monitor.lastHeartbeats[v] {
        if v == w && Due(s.live[w], s.now, cfg.msRate) {
          assert (w, s.now) in s'.inFlight;
        }
      } else {
        var b :| b in s.inFlight && b.0 == v && b.1 <= s.monitor.lastHeartbeats[v] + Quiet(cfg) + cfg.msPoll * 1000;
        assert b in s'.inFlight;
      }
    }
  }

  lemma ArrivesKeeps(cfg: Config, s: State, i: nat)
    requires TimedInv(cfg, s) && i < |s.inFlight|
    ensures TimedInv(cfg, Next(cfg, s, Arrives(i)))
  {
  }

  lemma StepKeeps(cfg: Config, s: State, e: Event)
    requires TimedInv(cfg, s) && Enabled(cfg, s, e)
    ensures TimedInv(cfg, Next(cfg, s, e))
  {
    match e {
      case Polls(w) => PollsKeeps(cfg, s, w);
      case Arrives(i) => ArrivesKeeps(cfg, s, i);
      case _ =>
        var s' := Next(cfg, s, e);
        forall v | v in s'.live && v in s'.monitor.lastHeartbeats
          ensures Covered(cfg, s', v)
        {
          if v in s.live && v in s.monitor.lastHeartbeats {
            assert Covered(cfg, s, v);
          }
        }
    }
  }

  lemma {:induction false} RunKeeps(cfg: Config, events: seq<Event>)
    requires After(cfg, events).Some?
    ensures TimedInv(cfg, After(cfg, events).value)
  {
    if events != [] {
      RunKeeps(cfg, events[..|events| - 1]);
      StepKeeps(cfg, After(cfg, events[..|events| - 1]).value, events[|events| - 1]);
    }
  }

  /** How long the server can go without hearing of a live client, in whole milliseconds. */
  function LongestSilence(cfg: Config): nat { (Quiet(cfg) + (cfg.msPoll + cfg.msDelay) * 1000) / 1000 }

  lemma LiveIsHeard(cfg: Config, s: State, w: string)
    requires TimedInv(cfg, s) && w in s.live && w in s.monitor.lastHeartbeats
    ensures ElapsedMs(s.now, s.monitor.lastHeartbeats[w]) <= LongestSilence(cfg)
  {
  }

  // ---------------------------------------------------------------- exactness

  lemma AfterOne(cfg: Config, events: seq<Event>, e: Event)
    requires After(cfg, events).Some? && Enabled(cfg, After(cfg, events).value, e)
    ensures After(cfg, events + [e]) == Some(Next(cfg, After(cfg, events).value, e))
  {
  }

  /** One client, heard of once at time 0 and never again. */
  ghost predicate Waiting(cfg: Config, s: State, w: string, until: int) {
    && s.live.Keys == {w} && s.monitor == Monitor({w}, map[w := 0])
    && s.live[w].lastPoll == s.now
    && (forall b | b in s.inFlight :: until <= b.1 + cfg.msDelay * 1000)
    && s.live[w].lastSend <= s.now <= until
    && (until <= s.now + cfg.msDelay * 1000 || until - s.live[w].lastSend <= Quiet(cfg))
  }

  /** Time can be brought to any point at which no delivery is overdue, by polling often enough. Until a client has been
      quiet for its period, it sends nothing meanwhile. */
  lemma {:induction false} WaitUntil(cfg: Config, events: seq<Event>, w: string, until: int) returns (more: seq<Event>)
    requires cfg.msPoll > 0 && After(cfg, events).Some?
    requires Waiting(cfg, After(cfg, events).value, w, until)
    ensures After(cfg, more).Some? && Waiting(cfg, After(cfg, more).value, w, until) && After(cfg, more).value.now == until
    ensures var (s, t) := (After(cfg, events).value, After(cfg, more).value);
            until - s.live[w].lastSend <= Quiet(cfg) ==> t.live[w].lastSend == s.live[w].lastSend && t.inFlight == s.inFlight
    decreases until - After(cfg, events).value.now
  {
    var s := After(cfg, events).value;
    if s.now == until {
      more := events;
    } else {
      var d := if until - s.now <= cfg.msPoll * 1000 then until - s.now else cfg.msPoll * 1000;
      AfterOne(cfg, events, Tick(d));
      var ticked := events + [Tick(d)];
      AfterOne(cfg, ticked, Polls(w));
      more := WaitUntil(cfg, ticked + [Polls(w)], w, until);
    }
  }

  /** A run that exhausts every allowance: the client just misses a poll, polls as late as it may, and its heartbeat takes
      as long as it may. */
  lemma SilentRun(cfg: Config, w: string) returns (events: seq<Event>)
    requires cfg.msPoll > 0
    ensures After(cfg, events).Some?
    ensures var s := After(cfg, events).value;
            && w in s.live && s.monitor == Monitor({w}, map[w := 0])
            && ElapsedMs(s.now, 0) == LongestSilence(cfg)
  {
    AfterOne(cfg, [], Begin(w));
    AfterOne(cfg, [] + [Begin(w)], Hello(w));
    events := [] + [Begin(w)] + [Hello(w)];
    events := WaitUntil(cfg, events, w, Quiet(cfg));
    var latest := cfg.msPoll * 1000;
    AfterOne(cfg, events, Tick(latest));
    events := events + [Tick(latest)];
    AfterOne(cfg, events, Polls(w));
    events := events + [Polls(w)];
    events := WaitUntil(cfg, events, w, Quiet(cfg) + latest + cfg.msDelay * 1000);
  }

  /** A live client is never given up, in any run, exactly when the longest silence is within the timeout. */
  lemma NoFalseTimeoutIff(cfg: Config)
    requires cfg.msPoll > 0
    ensures (forall events, w :: !GivesUpLive(cfg, events, w)) <==> LongestSilence(cfg) <= cfg.msTimeout
  {
    if LongestSilence(cfg) <= cfg.msTimeout {
      forall events, w
        ensures !GivesUpLive(cfg, events, w)
      {
        if After(cfg, events).Some? {
          RunKeeps(cfg, events);
          var s := After(cfg, events).value;
          if w in s.live && w in s.monitor.lastHeartbeats {
            LiveIsHeard(cfg, s, w);
          }
        }
      }
    } else {
      var events := SilentRun(cfg, "");
      assert GivesUpLive(cfg, events, "");
    }
  }

  /** In terms of the settings: period, poll gap and delay together may exceed the timeout by less than a millisecond. */
  lemma SafeSettings(cfg: Config)
    requires cfg.msRate > 0
    ensures LongestSilence(cfg) == cfg.msRate + cfg.msPoll + cfg.msDelay - 1
  {
  }

  // ------------------------------------------------------------------ liveness

  /** The k-th event lets the server hear of w. */
  ghost predicate Speaks(cfg: Config, events: seq<Event>, k: nat, w: string) {
    && k < |events|
    && match events[k]
       case Hello(v) => v == w
       case Arrives(i) =>
         var s := After(cfg, events[..k]);
         s.Some? && i < |s.value.inFlight| && s.value.inFlight[i].0 == w
       case _ => false
  }

  /** The k-th event is a check at a time when `heard` is further back than the timeout. */
  ghost predicate LateCheck(cfg: Config, events: seq<Event>, k: nat, heard: int) {
    && k < |events| && events[k] == Checks
    && var s := After(cfg, events[..k]);
       s.Some? && ElapsedMs(s.value.now, heard) > cfg.msTimeout
  }

  lemma SameBefore(cfg: Config, events: seq<Event>, k: nat, w: string, heard: int)
    requires k + 1 < |events|
    ensures var init := events[..|events| - 1];
            && init[..k] == events[..k]
            && (Speaks(cfg, init, k, w) <==> Speaks(cfg, events, k, w))
            && (LateCheck(cfg, init, k, heard) <==> LateCheck(cfg, events, k, heard))
  {
    assert events[..|events| - 1][..k] == events[..k];
  }

  /** A monitored client that the server hears no more of is gone exactly when there has been a check later than its
      timeout: the first such check gives it up, and no earlier one does. */
  lemma {:induction false} SilentGoneIff(cfg: Config, events: seq<Event>, n: nat, w: string)
    requires After(cfg, events).Some? && n <= |events| && After(cfg, events[..n]).Some?
    requires w in After(cfg, events[..n]).value.monitor.clients
    requires forall k | n <= k < |events| :: !Speaks(cfg, events, k, w)
    ensures var (before, after) := (After(cfg, events[..n]).value.monitor, After(cfg, events).value.monitor);
            && w in before.lastHeartbeats
            && (w !in after.clients <==> exists k :: n <= k && LateCheck(cfg, events, k, before.lastHeartbeats[w]))
            && (w in after.clients ==> w in after.lastHeartbeats && after.lastHeartbeats[w] == before.lastHeartbeats[w])
    decreases |events|
  {
    RunKeeps(cfg, events[..n]);
    var heard := After(cfg, events[..n]).value.monitor.lastHeartbeats[w];
    if n == |events| {
      assert events[..n] == events;
    } else {
      var init, m := events[..|events| - 1], |events| - 1;
      assert init[..n] == events[..n];
      SilentLast(cfg, events, w, heard);
      hide After, Next, Enabled, Tracked, LateCheck, Speaks, Start;
      forall k | n <= k < m
        ensures !Speaks(cfg, init, k, w) && (LateCheck(cfg, init, k, heard) <==> LateCheck(cfg, events, k, heard))
      {
        assert !Speaks(cfg, events, k, w);
        SameBefore(cfg, events, k, w, heard);
      }
      assert !Speaks(cfg, events, m, w);
      SilentGoneIff(cfg, init, n, w);
      NoLater(cfg, init, heard);
      NoLater(cfg, events, heard);
    }
  }

  lemma NoLater(cfg: Config, events: seq<Event>, heard: int)
    ensures forall k: nat :: LateCheck(cfg, events, k, heard) ==> k < |events|
  {
  }

  lemma SilentLast(cfg: Config, events: seq<Event>, w: string, heard: int)
    requires After(cfg, events).Some? && events != [] && !Speaks(cfg, events, |events| - 1, w)
    ensures After(cfg, events[..|events| - 1]).Some?
    ensures var (s, t) := (After(cfg, events[..|events| - 1]).value.monitor, After(cfg, events).value.monitor);
            w !in s.clients || (w in s.lastHeartbeats && s.lastHeartbeats[w] == heard) ==>
              && (w in t.clients <==> w in s.clients && !LateCheck(cfg, events, |events| - 1, heard))
              && (w in t.clients ==> w in t.lastHeartbeats && t.lastHeartbeats[w] == heard)
  {
    var init := events[..|events| - 1];
    RunKeeps(cfg, init);
    var (s, e) := (After(cfg, init).value, events[|events| - 1]);
    assert Enabled(cfg, s, e);
    hide After, TimedInv;
    if w !in s.monitor.clients || s.monitor.lastHeartbeats[w] == heard {
      SilentStep(cfg, s, e, w, heard);
    }
  }

  lemma SilentStep(cfg: Config, s: State, e: Event, w: string, heard: int)
    requires Tracked(s.monitor) && Enabled(cfg, s, e)
    requires e != Hello(w) && (e.Arrives? ==> s.inFlight[e.i].0 != w)
    requires w in s.monitor.clients ==> s.monitor.lastHeartbeats[w] == heard
    ensures var t := Next(cfg, s, e);
            && (w in t.monitor.clients <==>
                  w in s.monitor.clients && !(e == Checks && ElapsedMs(s.now, heard) > cfg.msTimeout))
            && (w in t.monitor.clients ==> w in t.monitor.lastHeartbeats && t.monitor.lastHeartbeats[w] == heard)
  {
    if e.Checks? {
      TimeoutsRemove(s.monitor, s.now, cfg.msTimeout);
    }
  }
}
