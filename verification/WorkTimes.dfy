/** What the durations that receiveResult measures mean: the time for which a worker had the job whose result it gave next. */
module WorkTimes {
  import opened Text
  import opened Messages
  import opened DelegatorStates

  /** What befalls a worker's record: it is given a job, or a result of it arrives. */
  datatype Deed = Gets(job: Job, now: int) | Answers(id: string, now: int)

  function Done(w: Worker, d: Deed): Worker
    requires Possible(w, d)
  {
    match d
    case Gets(job, now) => Started(w, job, now)
    case Answers(id, now) => FinishJob(w, id, now)
  }

  predicate Possible(w: Worker, d: Deed) {
    && w.lastResultTime <= d.now
    && (d.Answers? ==> d.id in w.workInProgress && w.workInProgress[d.id].typ in w.times
                       && w.workInProgress[d.id].startTime <= d.now)
  }

  /** The deeds can follow one another, at times that do not go back. */
  ghost predicate Life(w: Worker, deeds: seq<Deed>)
    decreases |deeds|
  {
    deeds != [] ==> Possible(w, deeds[0]) && Life(Done(w, deeds[0]), deeds[1..])
  }

  /** The durations measured on the way, before they are cut to 32 bits, together. */
  ghost function Measured(w: Worker, deeds: seq<Deed>): int
    requires Life(w, deeds)
    decreases |deeds|
  {
    if deeds == [] then 0 else
      (if deeds[0].Answers? then Duration(w, deeds[0].id, deeds[0].now) else 0) + Measured(Done(w, deeds[0]), deeds[1..])
  }

  // ------------------------------------------------------------ an independent account

  /** When a job was given to the worker, and when its result arrived. */
  datatype Span = Span(given: int, answered: int)

  /** `given` has the time at which each job in progress was given. */
  ghost predicate Agrees(w: Worker, given: map<string, int>) {
    forall id | id in w.workInProgress :: id in given && given[id] == w.workInProgress[id].startTime
  }

  /** The jobs answered, in the order of their results. */
  ghost function Spans(w: Worker, given: map<string, int>, deeds: seq<Deed>): (spans: seq<Span>)
    requires Life(w, deeds) && Agrees(w, given)
    decreases |deeds|
  {
    if deeds == [] then [] else
      match deeds[0]
      case Gets(job, now) => Spans(Done(w, deeds[0]), given[job.id := now], deeds[1..])
      case Answers(id, now) => [Span(given[id], now)] + Spans(Done(w, deeds[0]), given, deeds[1..])
  }

  /** At time t the worker has the job that it answers next. */
  ghost predicate Working(spans: seq<Span>, t: int) {
    exists k :: 0 <= k < |spans| && WorkingOn(spans, k, t)
  }

  ghost predicate WorkingOn(spans: seq<Span>, k: nat, t: int)
    requires k < |spans|
  {
    spans[k].given <= t < spans[k].answered && (k == 0 || spans[k - 1].answered <= t)
  }

  ghost function End(from: int, spans: seq<Span>): int { if spans == [] then from else spans[|spans| - 1].answered }

  ghost function BusyTimes(from: int, spans: seq<Span>): set<int> {
    set t: int | from <= t < End(from, spans) && Working(spans, t)
  }

  /** Results arrive one after the other, each after its job was given. */
  ghost predicate Ordered(from: int, spans: seq<Span>) {
    && (forall k | 0 <= k < |spans| :: spans[k].given <= spans[k].answered && from <= spans[k].answered)
    && (forall i, k | 0 <= i < k < |spans| :: spans[i].answered <= spans[k].answered)
  }

  // ------------------------------------------------------------------ they agree

  ghost function Interval(from: int, to: int): (times: set<int>)
    ensures forall t :: t in times <==> from <= t < to
    ensures |times| == Max(to - from, 0)
    decreases Max(to - from, 0)
  {
    if from >= to then {} else Interval(from, to - 1) + {to - 1}
  }

  /** Until the first result the worker works on the first job, and then as if it had been the only one. */
  lemma WorkingFirst(from: int, spans: seq<Span>, t: int)
    requires Ordered(from, spans) && spans != []
    ensures Working(spans, t) <==> if t < spans[0].answered then spans[0].given <= t else Working(spans[1..], t)
  {
    var rest := spans[1..];
    if Working(spans, t) && t >= spans[0].answered {
      var k :| 0 <= k < |spans| && WorkingOn(spans, k, t);
      assert WorkingOn(rest, k - 1, t);
    }
    if Working(rest, t) && t >= spans[0].answered {
      var k :| 0 <= k < |rest| && WorkingOn(rest, k, t);
      assert WorkingOn(spans, k + 1, t);
    }
    if t < spans[0].answered {
      assert WorkingOn(spans, 0, t) <==> spans[0].given <= t;
    }
  }

  lemma RestOrdered(from: int, spans: seq<Span>)
    requires Ordered(from, spans) && spans != []
    ensures Ordered(spans[0].answered, spans[1..]) && from <= spans[0].answered <= End(from, spans)
    ensures End(from, spans) == End(spans[0].answered, spans[1..])
  {
  }

  lemma FirstSpan(from: int, spans: seq<Span>)
    requires Ordered(from, spans) && spans != []
    ensures var (a, b) := (Interval(Max(spans[0].given, from), spans[0].answered), BusyTimes(spans[0].answered, spans[1..]));
            a !! b && BusyTimes(from, spans) == a + b
  {
    RestOrdered(from, spans);
    forall t: int
      ensures Working(spans, t) <==> if t < spans[0].answered then spans[0].given <= t else Working(spans[1..], t)
    {
      WorkingFirst(from, spans, t);
    }
    hide Working, Ordered, End;
  }

  lemma {:induction false} SpansOrdered(w: Worker, given: map<string, int>, deeds: seq<Deed>)
    requires Life(w, deeds) && Agrees(w, given)
    ensures Ordered(w.lastResultTime, Spans(w, given, deeds))
    decreases |deeds|
  {
    if deeds != [] {
      var d := deeds[0];
      SpansOrdered(Done(w, d), if d.Gets? then given[d.job.id := d.now] else given, deeds[1..]);
    }
  }

  /** The durations that receiveResult measures add up to the time for which the worker had the job that it answered next,
      whatever jobs it is given and in whatever order it answers them. */
  lemma {:induction false} MeasuredIsBusyTime(w: Worker, given: map<string, int>, deeds: seq<Deed>)
    requires Life(w, deeds) && Agrees(w, given)
    ensures Measured(w, deeds) == |BusyTimes(w.lastResultTime, Spans(w, given, deeds))|
    decreases |deeds|
  {
    if deeds != [] {
      var d := deeds[0];
      MeasuredIsBusyTime(Done(w, d), if d.Gets? then given[d.job.id := d.now] else given, deeds[1..]);
      if d.Answers? {
        var spans := Spans(w, given, deeds);
        SpansOrdered(w, given, deeds);
        FirstSpan(w.lastResultTime, spans);
        assert spans[1..] == Spans(Done(w, d), given, deeds[1..]);
      }
    }
  }

  /** From the connection of a worker on, nothing has to be assumed of what came before. */
  lemma MeasuredSinceConnection(address: Address, first: nat, second: nat, now: int, deeds: seq<Deed>)
    requires Life(NewWorker(address, first, second, now), deeds)
    ensures var w := NewWorker(address, first, second, now);
            Agrees(w, map[]) && Measured(w, deeds) == |BusyTimes(now, Spans(w, map[], deeds))|
  {
    MeasuredIsBusyTime(NewWorker(address, first, second, now), map[], deeds);
  }

  /** A worker is never held busy twice at once: the durations add up to no more than the time that passed. */
  lemma DurationsDoNotOverlap(w: Worker, given: map<string, int>, deeds: seq<Deed>)
    requires Life(w, deeds) && Agrees(w, given)
    ensures 0 <= Measured(w, deeds) <= End(w.lastResultTime, Spans(w, given, deeds)) - w.lastResultTime
  {
    var (from, spans) := (w.lastResultTime, Spans(w, given, deeds));
    MeasuredIsBusyTime(w, given, deeds);
    SpansOrdered(w, given, deeds);
    SubsetSize(BusyTimes(from, spans), Interval(from, End(from, spans)));
  }

  lemma {:induction false} SubsetSize<T>(a: set<T>, b: set<T>)
    requires a <= b
    ensures |a| <= |b|
    decreases a
  {
    if a != {} {
      var x :| x in a;
      SubsetSize(a - {x}, b - {x});
    }
  }

  /** A worker that always has its next job when it answers one is busy from the first job on, without a gap. */
  lemma NeverIdle(w: Worker, given: map<string, int>, deeds: seq<Deed>)
    requires Life(w, deeds) && Agrees(w, given)
    requires var spans := Spans(w, given, deeds);
             spans != [] && forall k | 1 <= k < |spans| :: spans[k].given <= spans[k - 1].answered
    ensures var spans := Spans(w, given, deeds);
            Measured(w, deeds)
            == spans[|spans| - 1].answered - if spans[0].given < w.lastResultTime then w.lastResultTime else spans[0].given
  {
    var (from, spans) := (w.lastResultTime, Spans(w, given, deeds));
    MeasuredIsBusyTime(w, given, deeds);
    SpansOrdered(w, given, deeds);
    WithoutGap(from, spans);
  }

  /** The next result after time t. */
  lemma {:induction false} NextResult(spans: seq<Span>, k: nat, t: int) returns (j: nat)
    requires k < |spans| && t < spans[k].answered
    ensures j <= k && t < spans[j].answered && (j == 0 || spans[j - 1].answered <= t)
  {
    if k == 0 || spans[k - 1].answered <= t {
      j := k;
    } else {
      j := NextResult(spans, k - 1, t);
    }
  }

  lemma WithoutGap(from: int, spans: seq<Span>)
    requires Ordered(from, spans) && spans != []
    requires forall k | 1 <= k < |spans| :: spans[k].given <= spans[k - 1].answered
    ensures BusyTimes(from, spans) == Interval(Max(spans[0].given, from), End(from, spans))
    ensures Max(spans[0].given, from) <= End(from, spans)
  {
    forall t: int | from <= t < End(from, spans)
      ensures Working(spans, t) <==> spans[0].given <= t
    {
      if spans[0].given <= t {
        var k := NextResult(spans, |spans| - 1, t);
        assert WorkingOn(spans, k, t);
      }
      if Working(spans, t) {
        var k :| 0 <= k < |spans| && WorkingOn(spans, k, t);
      }
    }
    hide Working;
  }

  /** Where jobs are answered in the order in which they were given, as a worker's queue does, the busy times are simply
      those at which some job was given and not answered. */
  lemma InOrderIsUnanswered(from: int, spans: seq<Span>, t: int)
    requires Ordered(from, spans) && forall i, k | 0 <= i < k < |spans| :: spans[i].given <= spans[k].given
    ensures Working(spans, t) <==> exists k :: 0 <= k < |spans| && spans[k].given <= t < spans[k].answered
  {
    if k :| 0 <= k < |spans| && spans[k].given <= t < spans[k].answered {
      var j := NextResult(spans, k, t);
      assert WorkingOn(spans, j, t);
    }
    if Working(spans, t) {
      var k :| 0 <= k < |spans| && WorkingOn(spans, k, t);
    }
  }
}
