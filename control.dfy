/** The control loop: per cycle it clears the grid, lets the producers mark it, runs the
    warm-up gate, selects a target, calls the planner and does its bookkeeping. The
    specification is a pure step function over the loop's scalar state; the loop itself
    is the method Agv.Run, proved to follow it. */
module ControlLoop {
  import opened OccupancyGrid
  import opened TargetSelector

  /** Which modalities the build has; the source fixes these with #define switches. */
  datatype Config = Config(gps: bool, lane: bool, imu: bool, nav: bool)

  /** What one cycle reads from the collaborators outside the core. */
  datatype Sample = Sample(
    writes: seq<CellWrite>,  // cells the stereo, range-scan and lane producers mark
    streamEnded: bool,       // the lane video stream returned no frame
    yaw: real,               // heading reported by the IMU, in degrees
    draw: (nat, nat),        // the two rand() values used by the dummy target
    plannerReply: int,       // what the planner returns
    escPressed: bool)        // the key poll returned ESC

  /** The scalars the loop updates from cycle to cycle. */
  datatype State = State(iterations: nat, heading: real, referenceHeading: real, mapHeight: real)

  /** Cycles the IMU needs before its heading is used. */
  const IMU_WARMUP: int := 5
  /** Cycles the GPS needs before its fix is used (counted on the same counter). */
  const GPS_WARMUP: int := 35
  /** The forward extent of the grid used by the heading projection, 0.875 MAP_MAX. */
  const DEFAULT_MAP_HEIGHT: real := 0.875 * MAP_MAX as real

  function Start(): (s: State)
    ensures s.iterations == 0 && s.mapHeight == 875.0
  {
    State(0, 0.0, 0.0, DEFAULT_MAP_HEIGHT)
  }

  /** The number of cycles, counted from 0, that the warm-up gate holds back. */
  function WarmUpLength(cfg: Config): (n: int)
    ensures cfg.gps ==> n == GPS_WARMUP
    ensures !cfg.gps && cfg.imu ==> n == IMU_WARMUP
    ensures !cfg.gps && !cfg.imu ==> n == 0
  {
    if cfg.gps then GPS_WARMUP else if cfg.imu then IMU_WARMUP else 0
  }

  datatype Gate = HeadingGate | FixGate

  /** What a cycle did. WarmUp: skipped by the gate named. Targeted: selected `sel`,
      `aborted` if ESC ended the loop after it. Halted: the selector's fatal case. */
  datatype Event =
    | StreamEnd
    | WarmUp(iteration: int, gate: Gate)
    | Targeted(iteration: int, sel: Selection, aborted: bool)
    | Halted(iteration: int)

  /** The loop ends after this cycle. */
  predicate Stops(e: Event) {
    e.StreamEnd? || e.Halted? || (e.Targeted? && e.aborted)
  }

  datatype Outcome = Outcome(next: State, event: Event)

  /** One cycle of the loop, from the lane check to the ESC check. `beta` is the half-angle
      of the heading projection. */
  function Step(cfg: Config, beta: real, s: State, x: Sample): (o: Outcome)
    ensures o.event.StreamEnd? <==> cfg.lane && x.streamEnded
    ensures o.event.StreamEnd? ==> o.next == s
    ensures !o.event.Halted?
    ensures !o.event.StreamEnd? ==> o.event.iteration == s.iterations && o.next.iterations == s.iterations + 1
    ensures o.event.WarmUp? <==> !o.event.StreamEnd? && s.iterations < WarmUpLength(cfg)
    ensures o.event.Targeted? <==> !o.event.StreamEnd? && s.iterations >= WarmUpLength(cfg)
    ensures o.event.WarmUp? && cfg.imu && s.iterations < IMU_WARMUP ==>
              o.event.gate == HeadingGate && o.next.referenceHeading == x.yaw
    ensures o.next.referenceHeading != s.referenceHeading ==> cfg.imu && s.iterations < IMU_WARMUP
    ensures o.next.heading != s.heading ==> cfg.imu
    ensures !o.event.StreamEnd? && cfg.imu ==> o.next.heading == x.yaw
    ensures o.event.Targeted? ==>
      o.event.aborted == x.escPressed &&
      o.event.sel == SelectTarget(TargetId(cfg.gps, cfg.lane, cfg.imu), o.next.heading,
                                  o.next.referenceHeading, s.mapHeight, beta, x.draw)
    ensures s.mapHeight == DEFAULT_MAP_HEIGHT ==> o.next.mapHeight == DEFAULT_MAP_HEIGHT
    ensures o.event.Targeted? ==>
      o.next.mapHeight == if cfg.nav && x.plannerReply != 1 then DEFAULT_MAP_HEIGHT else s.mapHeight
    ensures o.event.WarmUp? ==> o.next.mapHeight == s.mapHeight
    ensures o.event.WarmUp? && !(cfg.imu && s.iterations < IMU_WARMUP) ==> o.event.gate == FixGate
  {
    if cfg.lane && x.streamEnded then Outcome(s, StreamEnd)
    else
      var s1 := if cfg.imu then s.(heading := x.yaw) else s;
      if cfg.imu && s1.iterations < IMU_WARMUP then
        Outcome(s1.(referenceHeading := s1.heading, iterations := s1.iterations + 1),
                WarmUp(s1.iterations, HeadingGate))
      else if cfg.gps && s1.iterations < GPS_WARMUP then
        Outcome(s1.(iterations := s1.iterations + 1), WarmUp(s1.iterations, FixGate))
      else
        var id := TargetId(cfg.gps, cfg.lane, cfg.imu);
        var sel := SelectTarget(id, s1.heading, s1.referenceHeading, s1.mapHeight, beta, x.draw);
        if sel.Fatal? then Outcome(s1, Halted(s1.iterations))
        else
          var mapHeight := if cfg.nav && x.plannerReply != 1 then DEFAULT_MAP_HEIGHT else s1.mapHeight;
          Outcome(s1.(mapHeight := mapHeight, iterations := s1.iterations + 1),
                  Targeted(s1.iterations, sel, x.escPressed))
  }

  /** The final state and the events of a run over `xs`, one cycle per sample, ending at the
      first cycle that stops the loop or when the samples run out. */
  datatype Cycles = Cycles(final: State, events: seq<Event>)

  function Trace(cfg: Config, beta: real, s: State, xs: seq<Sample>): (t: Cycles)
    ensures |t.events| <= |xs|
    ensures |t.events| < |xs| ==> |t.events| > 0 && Stops(t.events[|t.events| - 1])
    decreases |xs|
  {
    if xs == [] then Cycles(s, [])
    else
      var o := Step(cfg, beta, s, xs[0]);
      if Stops(o.event) then Cycles(o.next, [o.event])
      else
        var rest := Trace(cfg, beta, o.next, xs[1..]);
        Cycles(rest.final, [o.event] + rest.events)
  }

  /** A trace whose first cycle does not stop is that cycle followed by the trace of the rest. */
  lemma TraceTail(cfg: Config, beta: real, s: State, xs: seq<Sample>)
    requires xs != [] && !Stops(Step(cfg, beta, s, xs[0]).event)
    ensures var o := Step(cfg, beta, s, xs[0]);
      var rest := Trace(cfg, beta, o.next, xs[1..]);
      var t := Trace(cfg, beta, s, xs);
      t.final == rest.final && |t.events| == |rest.events| + 1 && t.events[0] == o.event &&
      forall k :: 1 <= k < |t.events| ==> t.events[k] == rest.events[k - 1] && xs[k] == xs[1..][k - 1]
  {
  }

  /** Only the last cycle of a trace stops the loop. */
  lemma {:induction false} TraceStopsOnlyAtEnd(cfg: Config, beta: real, s: State, xs: seq<Sample>)
    ensures forall k :: 0 <= k < |Trace(cfg, beta, s, xs).events| - 1 ==> !Stops(Trace(cfg, beta, s, xs).events[k])
    decreases |xs|
  {
    if xs != [] {
      var o := Step(cfg, beta, s, xs[0]);
      if !Stops(o.event) {
        TraceStopsOnlyAtEnd(cfg, beta, o.next, xs[1..]);
        TraceTail(cfg, beta, s, xs);
      }
    }
  }

  /** One cycle of a trace over the samples from index n on. */
  lemma TraceAt(cfg: Config, beta: real, s: State, xs: seq<Sample>, n: nat)
    requires n < |xs|
    ensures var o := Step(cfg, beta, s, xs[n]);
      var rest := Trace(cfg, beta, o.next, xs[n + 1..]);
      Trace(cfg, beta, s, xs[n..]) ==
        if Stops(o.event) then Cycles(o.next, [o.event]) else Cycles(rest.final, [o.event] + rest.events)
  {
    assert xs[n..][0] == xs[n] && xs[n..][1..] == xs[n + 1..];
  }

  /** The loop's invariant: `events` are the cycles before sample n and `s` the state they
      left, so the run from the start is those cycles followed by the run from `s` on. */
  ghost predicate Resumes(cfg: Config, beta: real, xs: seq<Sample>, n: nat, s: State, events: seq<Event>)
    requires n <= |xs|
  {
    Trace(cfg, beta, Start(), xs) ==
      Cycles(Trace(cfg, beta, s, xs[n..]).final, events + Trace(cfg, beta, s, xs[n..]).events)
  }

  /** The invariant carried over one cycle: a stopping cycle completes the run, any other
      re-establishes the invariant at the next sample. */
  lemma TraceResumes(cfg: Config, beta: real, xs: seq<Sample>, n: nat, s: State, events: seq<Event>)
    requires n < |xs| && Resumes(cfg, beta, xs, n, s, events)
    ensures var o := Step(cfg, beta, s, xs[n]);
      if Stops(o.event) then Trace(cfg, beta, Start(), xs) == Cycles(o.next, events + [o.event])
      else Resumes(cfg, beta, xs, n + 1, o.next, events + [o.event])
  {
    TraceAt(cfg, beta, s, xs, n);
    var o := Step(cfg, beta, s, xs[n]);
    var t := Trace(cfg, beta, s, xs[n..]);
    if !Stops(o.event) {
      var rest := Trace(cfg, beta, o.next, xs[n + 1..]);
      assert events + t.events == events + [o.event] + rest.events;
    }
  }

  /** The invariant at the start of the run, and once the samples have run out. */
  lemma TraceResumesEnds(cfg: Config, beta: real, xs: seq<Sample>, s: State, events: seq<Event>)
    ensures Resumes(cfg, beta, xs, 0, Start(), [])
    ensures Resumes(cfg, beta, xs, |xs|, s, events) ==> Trace(cfg, beta, Start(), xs) == Cycles(s, events)
  {
    assert xs[0..] == xs && xs[|xs|..] == [];
  }

  /** The number of cycles of `es` that ran to their end (all but an end of stream). */
  function Completed(es: seq<Event>): (n: int)
    ensures 0 <= n <= |es|
  {
    if es != [] && es[|es| - 1].StreamEnd? then |es| - 1 else |es|
  }

  /** Every cycle that does not break increments the counter exactly once, whichever path
      it takes, and the counter a cycle reports is the number of cycles before it. */
  lemma {:induction false} TraceCountsCycles(cfg: Config, beta: real, s: State, xs: seq<Sample>)
    ensures var t := Trace(cfg, beta, s, xs);
      (forall k :: 0 <= k < |t.events| && !t.events[k].StreamEnd? ==> t.events[k].iteration == s.iterations + k) &&
      t.final.iterations == s.iterations + Completed(t.events)
    decreases |xs|
  {
    if xs != [] {
      var o := Step(cfg, beta, s, xs[0]);
      if !Stops(o.event) {
        TraceCountsCycles(cfg, beta, o.next, xs[1..]);
        TraceTail(cfg, beta, s, xs);
      }
    }
  }

  /** Event `e` is what the gate allows: no fatal halt, a warm-up only before the warm-up
      length, a target only from it on. */
  predicate Gated(cfg: Config, e: Event) {
    !e.Halted? &&
    (e.WarmUp? ==> e.iteration < WarmUpLength(cfg)) &&
    (e.Targeted? ==> e.iteration >= WarmUpLength(cfg))
  }

  /** The gate: cycles before the warm-up length are skipped, the others select a target;
      the fatal case never occurs. */
  lemma {:induction false} TraceGates(cfg: Config, beta: real, s: State, xs: seq<Sample>)
    ensures forall k :: 0 <= k < |Trace(cfg, beta, s, xs).events| ==> Gated(cfg, Trace(cfg, beta, s, xs).events[k])
    decreases |xs|
  {
    if xs != [] {
      var o := Step(cfg, beta, s, xs[0]);
      if !Stops(o.event) {
        TraceGates(cfg, beta, o.next, xs[1..]);
        TraceTail(cfg, beta, s, xs);
      }
    }
  }

  /** WarmUp -> Active happens once: no cycle is held back after one selected a target. */
  lemma WarmUpBeforeTargets(cfg: Config, beta: real, s: State, xs: seq<Sample>)
    ensures var t := Trace(cfg, beta, s, xs);
      forall j, k :: 0 <= j < k < |t.events| && t.events[j].Targeted? ==> !t.events[k].WarmUp?
  {
    TraceCountsCycles(cfg, beta, s, xs);
    TraceGates(cfg, beta, s, xs);
  }

  /** After the IMU window the reference heading is never written again. */
  lemma {:induction false} ReferenceLatched(cfg: Config, beta: real, s: State, xs: seq<Sample>)
    requires !cfg.imu || s.iterations >= IMU_WARMUP
    ensures Trace(cfg, beta, s, xs).final.referenceHeading == s.referenceHeading
    decreases |xs|
  {
    if xs != [] {
      var o := Step(cfg, beta, s, xs[0]);
      if !Stops(o.event) {
        ReferenceLatched(cfg, beta, o.next, xs[1..]);
      }
    }
  }

  /** The reference heading is the yaw sampled on the cycle whose counter was 4, the last
      IMU warm-up cycle. */
  lemma {:induction false} ReferenceFromLastWarmUp(cfg: Config, beta: real, s: State, xs: seq<Sample>)
    requires cfg.imu && s.iterations < IMU_WARMUP
    ensures var t := Trace(cfg, beta, s, xs);
      t.final.iterations >= IMU_WARMUP ==>
        IMU_WARMUP - 1 - s.iterations < |xs| &&
        t.final.referenceHeading == xs[IMU_WARMUP - 1 - s.iterations].yaw
    decreases |xs|
  {
    if xs != [] {
      var o := Step(cfg, beta, s, xs[0]);
      if !o.event.StreamEnd? {
        if s.iterations == IMU_WARMUP - 1 {
          ReferenceLatched(cfg, beta, o.next, xs[1..]);
        } else {
          ReferenceFromLastWarmUp(cfg, beta, o.next, xs[1..]);
        }
      }
    }
  }

  /** With the IMU reporting a constant heading h, the reference heading is h from the
      first completed cycle on. */
  lemma {:induction false} ConstantHeadingReference(cfg: Config, beta: real, s: State, xs: seq<Sample>, h: real)
    requires cfg.imu
    requires (s.iterations == 0 || s.referenceHeading == h)
    requires forall x :: x in xs ==> x.yaw == h
    ensures var t := Trace(cfg, beta, s, xs);
      (t.final.iterations == 0 || t.final.referenceHeading == h)
    decreases |xs|
  {
    if xs != [] {
      var o := Step(cfg, beta, s, xs[0]);
      if !Stops(o.event) {
        ConstantHeadingReference(cfg, beta, o.next, xs[1..], h);
      }
    }
  }

  /** The forward extent stays at 0.875 MAP_MAX: its only other assignment is commented out. */
  lemma {:induction false} MapHeightConstant(cfg: Config, beta: real, s: State, xs: seq<Sample>)
    requires s.mapHeight == DEFAULT_MAP_HEIGHT
    ensures Trace(cfg, beta, s, xs).final.mapHeight == 875.0
    decreases |xs|
  {
    if xs != [] {
      var o := Step(cfg, beta, s, xs[0]);
      if !Stops(o.event) {
        MapHeightConstant(cfg, beta, o.next, xs[1..]);
      }
    }
  }

  /** Without a lane stream the loop only ends on ESC after a selected target. */
  lemma {:induction false} RunsUntilEsc(cfg: Config, beta: real, s: State, xs: seq<Sample>)
    requires !cfg.lane
    requires forall k :: 0 <= k < |xs| ==> !xs[k].escPressed
    ensures |Trace(cfg, beta, s, xs).events| == |xs|
    decreases |xs|
  {
    if xs != [] {
      var o := Step(cfg, beta, s, xs[0]);
      RunsUntilEsc(cfg, beta, o.next, xs[1..]);
    }
  }

  /** A selected target ends the loop exactly when ESC was pressed on that cycle, so a
      cycle that selected a target with ESC pressed is the last one of the run. */
  lemma {:induction false} TraceExitsOnEsc(cfg: Config, beta: real, s: State, xs: seq<Sample>)
    ensures var t := Trace(cfg, beta, s, xs);
      forall k :: 0 <= k < |t.events| && t.events[k].Targeted? ==>
        t.events[k].aborted == xs[k].escPressed && (xs[k].escPressed ==> k == |t.events| - 1)
    decreases |xs|
  {
    if xs != [] {
      var o := Step(cfg, beta, s, xs[0]);
      if !Stops(o.event) {
        TraceExitsOnEsc(cfg, beta, o.next, xs[1..]);
        TraceTail(cfg, beta, s, xs);
      }
    }
  }

  /** What the cycle with counter i does when no modality is built in. */
  function DummyEvent(i: nat, x: Sample): (e: Event)
    ensures e.Targeted? && e.sel.Dummy?
    ensures 100 <= e.sel.target.x <= 799 && 200 <= e.sel.target.y <= 899
  {
    Targeted(i, Dummy(DummyTarget(x.draw.0, x.draw.1)), x.escPressed)
  }

  /** One such cycle selects the dummy target and advances the counter. */
  lemma DummyStep(cfg: Config, beta: real, s: State, x: Sample)
    requires !cfg.gps && !cfg.lane && !cfg.imu
    ensures Step(cfg, beta, s, x).event == DummyEvent(s.iterations, x)
    ensures Step(cfg, beta, s, x).next.iterations == s.iterations + 1
  {
    assert TargetId(cfg.gps, cfg.lane, cfg.imu) == 0;
  }

  /** Without any modality built in there is no warm-up: every cycle selects the dummy
      target from its own draws, which lies in the box [100, 799] x [200, 899]. */
  lemma {:induction false} NoModalityDummyTargets(cfg: Config, beta: real, s: State, xs: seq<Sample>)
    requires !cfg.gps && !cfg.lane && !cfg.imu
    ensures var t := Trace(cfg, beta, s, xs);
      forall k :: 0 <= k < |t.events| ==>
        t.events[k] == DummyEvent(s.iterations + k, xs[k]) &&
        100 <= t.events[k].sel.target.x <= 799 && 200 <= t.events[k].sel.target.y <= 899
    decreases |xs|
  {
    if xs != [] {
      DummyStep(cfg, beta, s, xs[0]);
      var o := Step(cfg, beta, s, xs[0]);
      if !Stops(o.event) {
        NoModalityDummyTargets(cfg, beta, o.next, xs[1..]);
        TraceTail(cfg, beta, s, xs);
        var t := Trace(cfg, beta, s, xs);
        var rest := Trace(cfg, beta, o.next, xs[1..]);
        forall k | 1 <= k < |t.events|
          ensures t.events[k] == DummyEvent(s.iterations + k, xs[k])
        {
          assert t.events[k] == rest.events[k - 1] && xs[k] == xs[1..][k - 1];
        }
      }
    }
  }

  /** The target of the heading projection when the heading equals its reference. */
  function AheadTarget(): (sel: Selection) {
    Steered(0.0, Straight, Known(500), Known(975))
  }

  /** What the cycle with counter i does when only the IMU is built in and the heading
      equals its reference. */
  function HeadingOnlyEvent(i: nat, esc: bool): (e: Event) {
    if i < IMU_WARMUP then WarmUp(i, HeadingGate) else Targeted(i, AheadTarget(), esc)
  }

  /** One such cycle: the counter advances and heading and reference both read h. */
  lemma HeadingOnlyStep(cfg: Config, beta: real, s: State, x: Sample, h: real)
    requires cfg.imu && !cfg.gps && !cfg.lane && beta >= 0.0
    requires s.iterations == 0 || s.referenceHeading == h
    requires s.mapHeight == DEFAULT_MAP_HEIGHT && x.yaw == h
    ensures Step(cfg, beta, s, x)
         == Outcome(State(s.iterations + 1, h, h, DEFAULT_MAP_HEIGHT), HeadingOnlyEvent(s.iterations, x.escPressed))
  {
    if s.iterations >= IMU_WARMUP {
      assert TargetId(cfg.gps, cfg.lane, cfg.imu) == 1;
      OnHeadingIsDeadAhead(h, s.mapHeight, beta, x.draw);
    }
  }

  /** IMU only, constant heading h: the first five cycles warm up, every later cycle
      steers dead ahead to (500, 975). */
  lemma {:induction false} HeadingOnlyRun(cfg: Config, beta: real, s: State, xs: seq<Sample>, h: real)
    requires cfg.imu && !cfg.gps && !cfg.lane && beta >= 0.0
    requires s.iterations == 0 || s.referenceHeading == h
    requires s.mapHeight == DEFAULT_MAP_HEIGHT
    requires forall x :: x in xs ==> x.yaw == h
    ensures var t := Trace(cfg, beta, s, xs);
      forall k :: 0 <= k < |t.events| ==> t.events[k] == HeadingOnlyEvent(s.iterations + k, xs[k].escPressed)
    decreases |xs|
  {
    if xs != [] {
      HeadingOnlyStep(cfg, beta, s, xs[0], h);
      var o := Step(cfg, beta, s, xs[0]);
      if !Stops(o.event) {
        HeadingOnlyRun(cfg, beta, o.next, xs[1..], h);
        TraceTail(cfg, beta, s, xs);
      }
    }
  }

  /** The vehicle: its occupancy grid and its fixed cell in it. */
  class Agv {
    const localMap: Grid
    const botLoc: Point

    ghost predicate Valid()
      reads this, localMap, localMap.Repr
    {
      localMap.Valid() && botLoc == BotLocation()
    }

    /** Start-up: the vehicle at (500, 100) and a fresh all-free grid. */
    constructor ()
      ensures Valid() && fresh(localMap) && fresh(localMap.Repr) && localMap.AllFree()
      ensures botLoc == Point(500, 100) && InGrid(botLoc)
    {
      botLoc := BotLocation();
      localMap := new Grid();
    }

    /** One pass of the loop body: clear the grid, let the producers mark it, then the
        lane check, the two warm-up gates, the target switch, the planner's effect on the
        forward extent and the counter. Each early return is a `break` or `continue` of the
        source; `o.event` says which. */
    method Cycle(cfg: Config, beta: real, s: State, x: Sample) returns (o: Outcome)
      requires Valid()
      modifies localMap.Repr
      ensures Valid() && localMap.Repr == old(localMap.Repr)
      ensures o == Step(cfg, beta, s, x)
      ensures forall i, j :: 0 <= i < MAP_MAX && 0 <= j < MAP_MAX ==>
        localMap.At(i, j) == Overlay(x.writes, i, j, 0)
    {
      var iterations: nat := s.iterations;
      var heading, referenceHeading, mapHeight := s.heading, s.referenceHeading, s.mapHeight;

      localMap.Refresh();
      localMap.Paint(x.writes);

      if cfg.lane && x.streamEnded {
        return Outcome(s, StreamEnd);
      }

      if cfg.imu {
        heading := x.yaw;
        if iterations < IMU_WARMUP {
          referenceHeading := heading;
          var event := WarmUp(iterations, HeadingGate);
          iterations := iterations + 1;
          return Outcome(State(iterations, heading, referenceHeading, mapHeight), event);
        }
      }

      if cfg.gps && iterations < GPS_WARMUP {
        var event := WarmUp(iterations, FixGate);
        iterations := iterations + 1;
        return Outcome(State(iterations, heading, referenceHeading, mapHeight), event);
      }

      var id := TargetId(cfg.gps, cfg.lane, cfg.imu);
      var sel := SelectTarget(id, heading, referenceHeading, mapHeight, beta, x.draw);
      if sel.Fatal? {
        return Outcome(State(iterations, heading, referenceHeading, mapHeight), Halted(iterations));
      }

      if cfg.nav && x.plannerReply != 1 {
        mapHeight := DEFAULT_MAP_HEIGHT;
      }

      var event := Targeted(iterations, sel, x.escPressed);
      iterations := iterations + 1;
      o := Outcome(State(iterations, heading, referenceHeading, mapHeight), event);
    }

    /** The main loop over the samples `xs`, one cycle per sample, until a cycle breaks or
        the samples run out. It returns the final loop state and what each cycle did, which
        is what Trace specifies; the grid at the end holds only the marks of the last cycle. */
    method Run(cfg: Config, beta: real, xs: seq<Sample>) returns (final: State, events: seq<Event>)
      requires Valid()
      modifies localMap.Repr
      ensures Valid() && localMap.Repr == old(localMap.Repr)
      ensures Cycles(final, events) == Trace(cfg, beta, Start(), xs)
      ensures events != [] ==> forall i, j :: 0 <= i < MAP_MAX && 0 <= j < MAP_MAX ==>
        localMap.At(i, j) == Overlay(xs[|events| - 1].writes, i, j, 0)
    {
      var s := Start();
      events := [];
      var n := 0;
      TraceResumesEnds(cfg, beta, xs, s, events);
      while n < |xs|
        invariant 0 <= n <= |xs| && |events| == n
        invariant Valid() && localMap.Repr == old(localMap.Repr)
        invariant n > 0 ==> forall i, j :: 0 <= i < MAP_MAX && 0 <= j < MAP_MAX ==>
          localMap.At(i, j) == Overlay(xs[n - 1].writes, i, j, 0)
        invariant Resumes(cfg, beta, xs, n, s, events)
      {
        TraceResumes(cfg, beta, xs, n, s, events);
        var o := Cycle(cfg, beta, s, xs[n]);
        events := events + [o.event];
        s := o.next;
        n := n + 1;
        if Stops(o.event) {
          break;
        }
      }
      TraceResumesEnds(cfg, beta, xs, s, events);
      final := s;
    }
  }
}
