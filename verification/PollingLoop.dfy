/**
 The adaptive polling loop as an event system. Besides the loop's own fields the state holds what the
 runtime holds for it: the timers that are armed (with their delays) and the iterations that run.
 */
module PollingLoop {
  import opened Wrappers

  datatype IterationOutcome = Work | Idle | Failure

  datatype Event =
    | Start
    | Stop
    | Fire(timer: nat)
    | Finish(iteration: nat, outcome: IterationOutcome)

  datatype State = State(
    timer: Option<nat>, stopped: bool, delayIndex: nat, active: Option<nat>,
    armed: map<nat, nat>, running: set<nat>, nextId: nat)

  const INITIAL := State(None, true, 0, None, map[], {}, 0)

  predicate ValidDelays(delays: seq<nat>) {
    delays != [] && forall i :: 0 <= i < |delays| ==> delays[i] >= 1
  }

  function Min(a: nat, b: nat): nat { if a < b then a else b }

  function DelayAt(delays: seq<nat>, index: nat): nat
    requires delays != []
  {
    delays[Min(index, |delays| - 1)]
  }

  function ScheduleNext(s: State, delayMs: nat): State {
    if s.stopped then s
    else s.(timer := Some(s.nextId), armed := s.armed[s.nextId := delayMs], nextId := s.nextId + 1)
  }

  /** An event the runtime cannot deliver (a timer not armed, an iteration not running) changes nothing. */
  function Step(delays: seq<nat>, s: State, e: Event): State
    requires ValidDelays(delays)
  {
    match e
    case Start =>
      if !s.stopped then s
      else ScheduleNext(s.(stopped := false, delayIndex := 0), DelayAt(delays, 0))
    case Stop =>
      var armed := if s.timer.Some? then s.armed - {s.timer.value} else s.armed;
      s.(stopped := true, timer := None, armed := armed)
    case Fire(t) =>
      if t !in s.armed then s
      else s.(armed := s.armed - {t}, timer := None, running := s.running + {s.nextId},
              active := Some(s.nextId), nextId := s.nextId + 1)
    case Finish(r, outcome) =>
      if r !in s.running then s
      else
        var index := if outcome.Work? then 0 else Min(s.delayIndex + 1, |delays| - 1);
        var done := s.(running := s.running - {r}, active := if s.active == Some(r) then None else s.active);
        if s.stopped then done
        else ScheduleNext(done.(delayIndex := index), DelayAt(delays, index))
  }

  function Run(delays: seq<nat>, events: seq<Event>): State
    requires ValidDelays(delays)
  {
    if events == [] then INITIAL
    else Step(delays, Run(delays, events[..|events| - 1]), events[|events| - 1])
  }

  /** A start that takes effect while an iteration cut off by a stop is still running. */
  predicate Overlaps(s: State, e: Event) { e == Start && s.stopped && s.running != {} }

  predicate NoOverlap(delays: seq<nat>, events: seq<Event>)
    requires ValidDelays(delays)
  {
    events != [] ==>
      var front := events[..|events| - 1];
      NoOverlap(delays, front) && !Overlaps(Run(delays, front), events[|events| - 1])
  }

  /** At most one armed timer or running iteration, and never both. */
  ghost predicate Single(s: State) {
    && (forall t, u :: t in s.armed && u in s.armed ==> t == u)
    && (forall r, q :: r in s.running && q in s.running ==> r == q)
    && (s.armed == map[] || s.running == {})
  }

  ghost predicate AlwaysSingle(delays: seq<nat>, events: seq<Event>)
    requires ValidDelays(delays)
  {
    forall k :: 0 <= k <= |events| ==> Single(Run(delays, events[..k]))
  }

  ghost predicate Tracked(s: State) {
    && Single(s)
    && s.armed.Keys == (if s.timer.Some? then {s.timer.value} else {})
    && s.running == (if s.active.Some? then {s.active.value} else {})
    && (s.stopped ==> s.timer.None?)
    && (!s.stopped ==> s.timer.Some? != s.active.Some?)
  }

  lemma TrackedStep(delays: seq<nat>, s: State, e: Event)
    requires ValidDelays(delays) && Tracked(s) && !Overlaps(s, e)
    ensures Tracked(Step(delays, s, e))
  {
  }

  lemma {:induction false} RunTracked(delays: seq<nat>, events: seq<Event>)
    requires ValidDelays(delays) && NoOverlap(delays, events)
    ensures Tracked(Run(delays, events))
  {
    if events != [] {
      RunTracked(delays, events[..|events| - 1]);
      TrackedStep(delays, Run(delays, events[..|events| - 1]), events[|events| - 1]);
    }
  }

  lemma {:induction false} NoOverlapPrefix(delays: seq<nat>, events: seq<Event>, k: nat)
    requires ValidDelays(delays) && k <= |events| && NoOverlap(delays, events)
    ensures NoOverlap(delays, events[..k])
  {
    if k < |events| {
      NoOverlapPrefix(delays, events[..|events| - 1], k);
      assert events[..|events| - 1][..k] == events[..k];
    } else {
      assert events[..k] == events;
    }
  }

  lemma {:induction false} SingleMeansNoOverlap(delays: seq<nat>, events: seq<Event>)
    requires ValidDelays(delays) && AlwaysSingle(delays, events)
    ensures NoOverlap(delays, events)
  {
    if events != [] {
      var front := events[..|events| - 1];
      forall k | 0 <= k <= |front| ensures Single(Run(delays, front[..k])) {
        assert front[..k] == events[..k];
      }
      SingleMeansNoOverlap(delays, front);
      assert events[..|events|] == events;
      if Overlaps(Run(delays, front), events[|events| - 1]) {
        OverlapBreaksSingle(delays, Run(delays, front), events[|events| - 1]);
      }
    }
  }

  lemma OverlapBreaksSingle(delays: seq<nat>, s: State, e: Event)
    requires ValidDelays(delays) && Overlaps(s, e)
    ensures !Single(Step(delays, s, e))
  {
    assert s.nextId in Step(delays, s, e).armed;
  }

  /** Over every run the loop keeps one activity exactly when no start overlaps a cut-off iteration. */
  lemma SingleActivityIffNoOverlap(delays: seq<nat>, events: seq<Event>)
    requires ValidDelays(delays)
    ensures AlwaysSingle(delays, events) <==> NoOverlap(delays, events)
  {
    if NoOverlap(delays, events) {
      forall k | 0 <= k <= |events| ensures Single(Run(delays, events[..k])) {
        NoOverlapPrefix(delays, events, k);
        RunTracked(delays, events[..k]);
      }
    }
    if AlwaysSingle(delays, events) { SingleMeansNoOverlap(delays, events); }
  }

  /** While stopped nothing new is armed; without an overlap nothing is armed at all. */
  lemma StoppedArmsNothing(delays: seq<nat>, events: seq<Event>, e: Event)
    requires ValidDelays(delays) && Run(delays, events).stopped && e != Start
    ensures Run(delays, events + [e]).stopped
    ensures Run(delays, events + [e]).armed.Keys <= Run(delays, events).armed.Keys
    ensures NoOverlap(delays, events) ==> Run(delays, events + [e]).armed == map[]
  {
    assert (events + [e])[..|events|] == events;
    if NoOverlap(delays, events) {
      RunTracked(delays, events);
      TrackedStep(delays, Run(delays, events), e);
    }
  }

  /** After a stop the drain waits for `active`; once that is gone no iteration is left running. */
  lemma DrainedMeansQuiet(delays: seq<nat>, events: seq<Event>)
    requires ValidDelays(delays) && NoOverlap(delays, events)
    requires Run(delays, events).stopped && Run(delays, events).active.None?
    ensures Run(delays, events).armed == map[] && Run(delays, events).running == {}
  {
    RunTracked(delays, events);
  }

  /** An overlapping start leaves a timer no stop can cancel. */
  lemma OverlapLeaksATimer(delays: seq<nat>)
    requires ValidDelays(delays)
    ensures var s := Run(delays, [Start, Fire(0), Stop, Start, Finish(1, Work), Stop]);
            s.stopped && s.armed.Keys == {2}
  {
    var d := DelayAt(delays, 0);
    var e1 := [Start];
    var e2 := e1 + [Fire(0)];
    var e3 := e2 + [Stop];
    var e4 := e3 + [Start];
    var e5 := e4 + [Finish(1, Work)];
    assert e1 == [] + [Start];
    StepTo(delays, [], Start, State(Some(0), false, 0, None, map[0 := d], {}, 1));
    StepTo(delays, e1, Fire(0), State(None, false, 0, Some(1), map[], {1}, 2));
    StepTo(delays, e2, Stop, State(None, true, 0, Some(1), map[], {1}, 2));
    StepTo(delays, e3, Start, State(Some(2), false, 0, Some(1), map[2 := d], {1}, 3));
    StepTo(delays, e4, Finish(1, Work), State(Some(3), false, 0, None, map[2 := d, 3 := d], {}, 4));
    StepTo(delays, e5, Stop, State(None, true, 0, None, map[2 := d], {}, 4));
    assert e5 + [Stop] == [Start, Fire(0), Stop, Start, Finish(1, Work), Stop];
  }

  lemma StepTo(delays: seq<nat>, events: seq<Event>, e: Event, next: State)
    requires ValidDelays(delays)
    requires var s := Step(delays, Run(delays, events), e);
             s.armed == next.armed && s.(armed := map[]) == next.(armed := map[])
    ensures Run(delays, events + [e]) == next
  {
    RunSnoc(delays, events, e);
  }

  lemma RunSnoc(delays: seq<nat>, events: seq<Event>, e: Event)
    requires ValidDelays(delays)
    ensures Run(delays, events + [e]) == Step(delays, Run(delays, events), e)
  {
    assert (events + [e])[..|events|] == events;
  }

  /** Iterations without work that ended in a row since the last effective start or working iteration. */
  function Streak(delays: seq<nat>, events: seq<Event>): nat
    requires ValidDelays(delays)
  {
    if events == [] then 0
    else
      var front, last := events[..|events| - 1], events[|events| - 1];
      var s := Run(delays, front);
      match last
      case Start => if s.stopped then 0 else Streak(delays, front)
      case Finish(r, outcome) =>
        if r !in s.running || s.stopped then Streak(delays, front)
        else if outcome.Work? then 0
        else Streak(delays, front) + 1
      case _ => Streak(delays, front)
  }

  lemma {:induction false} DelayIndexIsStreak(delays: seq<nat>, events: seq<Event>)
    requires ValidDelays(delays)
    ensures Run(delays, events).delayIndex == Min(Streak(delays, events), |delays| - 1)
    ensures forall t :: t in Run(delays, events).armed ==> t < Run(delays, events).nextId
  {
    if events != [] { DelayIndexIsStreak(delays, events[..|events| - 1]); }
  }

  /** Every timer an event arms waits the delay of the current streak, the last delay once it is used up. */
  lemma ArmedDelayFollowsStreak(delays: seq<nat>, events: seq<Event>, e: Event, t: nat)
    requires ValidDelays(delays)
    requires t in Run(delays, events + [e]).armed && t !in Run(delays, events).armed
    ensures Run(delays, events + [e]).armed[t] == DelayAt(delays, Streak(delays, events + [e]))
  {
    RunSnoc(delays, events, e);
    DelayIndexIsStreak(delays, events);
    DelayIndexIsStreak(delays, events + [e]);
  }

  class AdaptiveWorkerLoop {
    const delays: seq<nat>
    var timer: Option<nat>
    var stopped: bool
    var delayIndex: nat
    var active: Option<nat>
    var armed: map<nat, nat>
    var running: set<nat>
    var nextId: nat

    ghost predicate Valid() reads this { ValidDelays(delays) && delayIndex < |delays| }

    function Snapshot(): State
      reads this
    {
      State(timer, stopped, delayIndex, active, armed, running, nextId)
    }

    constructor (delays: seq<nat>)
      requires ValidDelays(delays)
      ensures Valid() && this.delays == delays && Snapshot() == INITIAL
    {
      this.delays := delays;
      timer, stopped, delayIndex, active := None, true, 0, None;
      armed, running, nextId := map[], {}, 0;
    }

    /** An empty list of delays, or a delay below one, is refused. */
    static method Create(delays: seq<nat>) returns (r: Option<AdaptiveWorkerLoop>)
      ensures r.Some? <==> ValidDelays(delays)
      ensures r.Some? ==> fresh(r.value) && r.value.Valid() && r.value.delays == delays && r.value.Snapshot() == INITIAL
    {
      if delays == [] || exists i :: 0 <= i < |delays| && delays[i] < 1 { return None; }
      var loop := new AdaptiveWorkerLoop(delays);
      r := Some(loop);
    }

    method Start()
      requires Valid()
      modifies this
      ensures Valid() && Snapshot() == Step(delays, old(Snapshot()), Event.Start)
    {
      if !stopped { return; }
      stopped := false;
      delayIndex := 0;
      Schedule(delays[delayIndex]);
    }

    method Stop()
      requires Valid()
      modifies this
      ensures Valid() && Snapshot() == Step(delays, old(Snapshot()), Event.Stop)
    {
      stopped := true;
      if timer.Some? { armed := armed - {timer.value}; }
      timer := None;
    }

    method Schedule(delayMs: nat)
      requires Valid()
      modifies this
      ensures Valid() && Snapshot() == ScheduleNext(old(Snapshot()), delayMs)
    {
      if stopped { return; }
      armed := armed[nextId := delayMs];
      timer := Some(nextId);
      nextId := nextId + 1;
    }

    /** The timer callback: the timer is spent and an iteration starts. */
    method Fire(t: nat)
      requires Valid() && t in armed
      modifies this
      ensures Valid() && Snapshot() == Step(delays, old(Snapshot()), Event.Fire(t))
    {
      armed := armed - {t};
      timer := None;
      running := running + {nextId};
      active := Some(nextId);
      nextId := nextId + 1;
    }

    /** The end of an iteration: unless stopped, back off or reset, and arm the next timer. */
    method Finish(r: nat, outcome: IterationOutcome)
      requires Valid() && r in running
      modifies this
      ensures Valid() && Snapshot() == Step(delays, old(Snapshot()), Event.Finish(r, outcome))
    {
      running := running - {r};
      if active == Some(r) { active := None; }
      if stopped { return; }
      delayIndex := if outcome.Work? then 0 else Min(delayIndex + 1, |delays| - 1);
      Schedule(delays[delayIndex]);
    }
  }
}
