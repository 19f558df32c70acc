/**
 The polling loop shared by both exporters: each round runs one cycle and
 then pauses for the configured interval, but never less than five seconds.
 The pause follows every cycle, whether it finished or ended on a caught
 error, and the loop never ends.
 */
module Schedule {
  import opened Registry

  /** The shortest pause between two cycles, in seconds. */
  const MinDelay: int := 5

  /** `max(5, interval)`: the least pause that is at least both the floor and the interval. */
  function CycleDelay(interval: int): (d: int)
    ensures d >= MinDelay && d >= interval
    ensures d == MinDelay || d == interval
  {
    if interval < MinDelay then MinDelay else interval
  }

  /** The configured interval is honoured exactly when it reaches the floor. */
  lemma {:induction false} IntervalHonoured(interval: int)
    ensures CycleDelay(interval) == interval <==> interval >= MinDelay
    ensures interval < MinDelay ==> CycleDelay(interval) == MinDelay
  {
  }

  /** What the polling loop does, in order: a cycle, noting whether it ended on a caught error, then a pause. */
  datatype Event = Cycled(raised: bool) | Slept(seconds: int)

  /**
   The endless polling loop cut to the given rounds: the registry afterwards
   and the events in order. A raised error is caught and logged.
   Every cycle, whether it raised or not, is followed by exactly one pause,
   and the next cycle starts from the registry the last one left.
   */
  function Loop<R>(r: Registry, rounds: seq<R>, run: R -> Emit, interval: int): (out: (Registry, seq<Event>))
    ensures |out.1| == 2 * |rounds|
    decreases |rounds|
  {
    if |rounds| == 0 then (r, [])
    else
      var e := run(rounds[0]);
      var rest := Loop(Apply(r, e.writes), rounds[1..], run, interval);
      (rest.0, [Cycled(e.raised), Slept(CycleDelay(interval))] + rest.1)
  }

  /**
   Round i is the i-th cycle, reported as raised or not, followed by one
   pause of the cycle delay: a raising cycle does not end the loop.
   */
  lemma {:induction false} LoopEvents<R>(r: Registry, rounds: seq<R>, run: R -> Emit, interval: int)
    ensures forall i | 0 <= i < |rounds| ::
      Loop(r, rounds, run, interval).1[2 * i] == Cycled(run(rounds[i]).raised) &&
      Loop(r, rounds, run, interval).1[2 * i + 1] == Slept(CycleDelay(interval))
    decreases |rounds|
  {
    if |rounds| > 0 {
      var e := run(rounds[0]);
      var out := Loop(r, rounds, run, interval);
      var rest := Loop(Apply(r, e.writes), rounds[1..], run, interval);
      LoopEvents(Apply(r, e.writes), rounds[1..], run, interval);
      assert out.1 == [Cycled(e.raised), Slept(CycleDelay(interval))] + rest.1;
      forall i | 1 <= i < |rounds|
        ensures out.1[2 * i] == Cycled(run(rounds[i]).raised) && out.1[2 * i + 1] == Slept(CycleDelay(interval))
      {
        assert rounds[i] == rounds[1..][i - 1];
        assert out.1[2 * i] == rest.1[2 * (i - 1)];
        assert out.1[2 * i + 1] == rest.1[2 * (i - 1) + 1];
      }
    }
  }

  /** The writes of the rounds' cycles, one cycle after another. */
  function LoopWrites<R>(rounds: seq<R>, run: R -> Emit): seq<Write>
    decreases |rounds|
  {
    if |rounds| == 0 then [] else run(rounds[0]).writes + LoopWrites(rounds[1..], run)
  }

  /**
   Nothing is rolled back: after the loop the registry holds every write of
   every cycle, in order, including those a cycle made before it raised.
   */
  lemma {:induction false} LoopApplies<R>(r: Registry, rounds: seq<R>, run: R -> Emit, interval: int)
    ensures Loop(r, rounds, run, interval).0 == Apply(r, LoopWrites(rounds, run))
    decreases |rounds|
  {
    if |rounds| > 0 {
      var e := run(rounds[0]);
      LoopApplies(Apply(r, e.writes), rounds[1..], run, interval);
      ApplyAppend(r, e.writes, LoopWrites(rounds[1..], run));
    }
  }

  /** The seconds the events spend sleeping. */
  function Pauses(events: seq<Event>): int
    decreases |events|
  {
    if |events| == 0 then 0
    else (if events[0].Slept? then events[0].seconds else 0) + Pauses(events[1..])
  }

  /** The events of one round followed by the later rounds' events sleep the delay more than those. */
  lemma {:induction false} RoundPauses(raised: bool, interval: int, later: seq<Event>)
    ensures Pauses([Cycled(raised), Slept(CycleDelay(interval))] + later) == CycleDelay(interval) + Pauses(later)
  {
    var evs := [Cycled(raised), Slept(CycleDelay(interval))] + later;
    assert evs[1..][1..] == later;
  }

  /** n rounds sleep n times the delay in all, whether the cycles succeeded or failed. */
  lemma {:induction false} LoopPauses<R>(r: Registry, rounds: seq<R>, run: R -> Emit, interval: int)
    ensures Pauses(Loop(r, rounds, run, interval).1) == |rounds| * CycleDelay(interval)
    decreases |rounds|
  {
    if |rounds| > 0 {
      var e := run(rounds[0]);
      LoopPauses(Apply(r, e.writes), rounds[1..], run, interval);
      RoundPauses(e.raised, interval, Loop(Apply(r, e.writes), rounds[1..], run, interval).1);
      OneMoreRound(|rounds| - 1, CycleDelay(interval));
    }
  }

  lemma {:induction false} OneMoreRound(n: int, d: int)
    ensures (n + 1) * d == n * d + d
  {
  }

  /** Hence n rounds sleep at least five seconds each. */
  lemma {:induction false} LoopPausesAtLeast<R>(r: Registry, rounds: seq<R>, run: R -> Emit, interval: int)
    ensures Pauses(Loop(r, rounds, run, interval).1) >= |rounds| * MinDelay
    decreases |rounds|
  {
    if |rounds| > 0 {
      var e := run(rounds[0]);
      LoopPausesAtLeast(Apply(r, e.writes), rounds[1..], run, interval);
      RoundPauses(e.raised, interval, Loop(Apply(r, e.writes), rounds[1..], run, interval).1);
    }
  }
}
