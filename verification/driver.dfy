/** The simulation driver: the state the app keeps between animation frames
    and the transitions the controls and the frame callback apply to it. */
module Driver {
  import opened Types
  import opened Constants
  import opened History
  import opened Physics

  /** Ranges of the control sliders; the browser only ever reports values
      inside them. */
  const MinStartHeight: real := 10.0
  const MaxStartHeight: real := 1000.0
  const MinDragCoefficient: real := 0.0
  const MaxDragCoefficient: real := 2.0
  const MinMass: real := 0.01
  const MaxMass: real := 10.0
  const MinDiameter: real := 0.01
  const MaxDiameter: real := 1.0
  const MinSpeed: real := 0.1
  const MaxSpeed: real := 5.0

  /** Everything the app remembers: whether the animation runs, the timestamp
      (ms) of the previous frame, which is `None` until the first frame after
      a start, the selected preset and start height, the object parameters,
      the animation speed factor, the displayed physics and the chart buffer. */
  datatype Sim = Sim(
    running: bool,
    lastUpdate: Option<real>,
    selected: string,
    startHeight: real,
    body: Body,
    speed: real,
    phys: Phys,
    chart: seq<Sample>)

  /** The first preset called `name`, if there is one. */
  function FindPreset(presets: seq<ObjectPreset>, name: string): (r: Option<ObjectPreset>)
    ensures r.None? <==> forall i :: 0 <= i < |presets| ==> presets[i].name != name
    ensures r.Some? ==> exists i :: 0 <= i < |presets| && presets[i] == r.value && presets[i].name == name
                          && forall j :: 0 <= j < i ==> presets[j].name != name
  {
    if |presets| == 0 then None
    else if presets[0].name == name then Some(presets[0])
    else
      var r := FindPreset(presets[1..], name);
      assert r.Some? ==> exists i :: 0 <= i < |presets| && presets[i] == r.value && presets[i].name == name
                            && forall j :: 0 <= j < i ==> presets[j].name != name by {
        if r.Some? {
          var i :| 0 <= i < |presets| - 1 && presets[1..][i] == r.value && presets[1..][i].name == name
                   && forall j :: 0 <= j < i ==> presets[1..][j].name != name;
          assert presets[i + 1] == r.value;
          assert forall j :: 0 <= j < i + 1 ==> presets[j].name != name by {
            forall j | 0 <= j < i + 1 ensures presets[j].name != name {
              if j > 0 { assert presets[j] == presets[1..][j - 1]; }
            }
          }
        }
      }
      r
  }

  /** The preset the reset applies: the one named `name`, or the initial
      object when no preset carries that name. */
  function PresetFor(name: string): (p: ObjectPreset)
    ensures ValidPreset(p)
    ensures p in ObjectPresets
    ensures (exists i :: 0 <= i < |ObjectPresets| && ObjectPresets[i].name == name) ==> p.name == name
    ensures (forall i :: 0 <= i < |ObjectPresets| ==> ObjectPresets[i].name != name) ==> p == InitialObject
  {
    PresetsAreValid();
    match FindPreset(ObjectPresets, name)
    case Some(p) => p
    case None => InitialObject
  }

  /** The parameters of a preset as the integrator sees them. */
  function BodyOf(p: ObjectPreset): Body {
    Body(p.mass, p.diameter, p.cd)
  }

  /** The app's state as first rendered, before any effect has run: stopped,
      at rest at a start height the slider can show, with a preset's
      parameters, and satisfying the invariant. */
  function Initial(): (r: Sim)
    ensures Inv(r)
    ensures !r.running && r.lastUpdate.None?
    ensures MinStartHeight <= r.startHeight <= MaxStartHeight
    ensures r.phys.height == r.startHeight && r.phys.time == 0.0 && r.phys.velocity == 0.0
    ensures r.body in set p | p in ObjectPresets :: BodyOf(p)
  {
    Sim(false, None, InitialObject.name, InitialHeight, BodyOf(InitialObject), 1.0,
        Phys(0.0, InitialHeight, 0.0, 0.0, 0.0, 0.0), [Sample(0.0, 0.0)])
  }

  /** The Reset button: stop, forget the clock baseline, reload the selected
      preset's parameters and put the object back at the start height with
      everything else zero and a chart holding only the origin. */
  function Reset(s: Sim): (r: Sim)
    ensures !r.running && r.lastUpdate.None?
    ensures r.phys == Phys(0.0, s.startHeight, 0.0, 0.0, 0.0, 0.0)
    ensures r.chart == [Sample(0.0, 0.0)]
    ensures ValidBody(r.body)
    ensures (exists i :: 0 <= i < |ObjectPresets| && ObjectPresets[i].name == s.selected) ==>
              exists i :: 0 <= i < |ObjectPresets| && ObjectPresets[i].name == s.selected && r.body == BodyOf(ObjectPresets[i])
    ensures (forall i :: 0 <= i < |ObjectPresets| ==> ObjectPresets[i].name != s.selected) ==> r.body == BodyOf(InitialObject)
    ensures r.selected == s.selected && r.startHeight == s.startHeight && r.speed == s.speed
  {
    var p := PresetFor(s.selected);
    s.(running := false, lastUpdate := None, body := BodyOf(p),
       phys := Phys(0.0, s.startHeight, 0.0, 0.0, 0.0, 0.0), chart := [Sample(0.0, 0.0)])
  }

  /** The Start/Pause button. Starting clears the clock baseline so that the
      first frame only records its timestamp; pausing freezes the state. */
  function StartOrPause(s: Sim): (r: Sim)
    ensures r.running == !s.running
    ensures r.running ==> r.lastUpdate.None?
    ensures !r.running ==> r.lastUpdate == s.lastUpdate
    ensures r.(running := s.running, lastUpdate := s.lastUpdate) == s
  {
    if s.running then s.(running := false) else s.(running := true, lastUpdate := None)
  }

  /** Simulated seconds between two frames: elapsed wall-clock milliseconds,
      converted to seconds and scaled by the animation speed. */
  function SimDelta(last: real, timestamp: real, speed: real): (dt: real)
    ensures timestamp >= last && speed >= 0.0 ==> dt >= 0.0
    ensures timestamp > last && speed > 0.0 ==> dt > 0.0
    ensures timestamp == last ==> dt == 0.0
  {
    var elapsed := (timestamp - last) / 1000.0;
    assert timestamp >= last && speed >= 0.0 ==> elapsed * speed >= 0.0 by {
      if timestamp >= last && speed >= 0.0 {
        NonNegativeProduct(elapsed, speed);
      }
    }
    assert timestamp > last && speed > 0.0 ==> elapsed * speed > 0.0 by {
      if timestamp > last && speed > 0.0 {
        PositiveProduct(elapsed, speed);
      }
    }
    elapsed * speed
  }

  /** One animation-frame callback at `timestamp` (ms). A paused simulation
      has no pending frame and is left alone. The first frame after a start
      only records the timestamp. A frame that finds the object on the
      ground stops the run. Any other frame takes one integration step with
      the previous velocity, appends the new sample to the chart and
      downsamples it. */
  function Frame(s: Sim, timestamp: real): (r: Sim)
    requires s.body.mass > 0.0
    ensures !s.running ==> r == s
    ensures s.running && s.lastUpdate.None? ==>
              r == s.(lastUpdate := Some(timestamp))
    ensures s.running && s.lastUpdate.Some? && s.phys.height <= 0.0 ==>
              r == s.(running := false, lastUpdate := Some(timestamp), phys := s.phys.(height := 0.0))
    ensures s.running && s.lastUpdate.Some? && s.phys.height > 0.0 ==>
              && r.running && r.lastUpdate == Some(timestamp)
              && r.phys == Step(s.phys, s.body, SimDelta(s.lastUpdate.value, timestamp, s.speed))
              && r.chart == Downsample(s.chart + [Sample(r.phys.time, r.phys.velocity)])
              && r.body == s.body && r.speed == s.speed
    ensures s.running && s.lastUpdate.Some? ==> r.phys.height >= 0.0
    ensures r.selected == s.selected && r.startHeight == s.startHeight && r.body == s.body && r.speed == s.speed
  {
    if !s.running then s
    else match s.lastUpdate
      case None => s.(lastUpdate := Some(timestamp))
      case Some(last) =>
        if s.phys.height <= 0.0 then
          s.(running := false, lastUpdate := Some(timestamp), phys := s.phys.(height := 0.0))
        else
          var p := Step(s.phys, s.body, SimDelta(last, timestamp, s.speed));
          s.(lastUpdate := Some(timestamp), phys := p,
             chart := Downsample(s.chart + [Sample(p.time, p.velocity)]))
  }

  /** The animation-speed slider; allowed at any time, also mid-run. */
  function SetSpeed(s: Sim, v: real): (r: Sim)
    requires MinSpeed <= v <= MaxSpeed
    ensures r.speed == v && r.speed > 0.0
    ensures r.(speed := s.speed) == s
  {
    s.(speed := v)
  }

  /** The mass slider; disabled while the simulation runs. */
  function SetMass(s: Sim, m: real): (r: Sim)
    requires MinMass <= m <= MaxMass
    ensures s.running ==> r == s
    ensures !s.running ==> r.body.mass == m && r.(body := s.body) == s
    ensures r.body.diameter == s.body.diameter && r.body.cd == s.body.cd
  {
    if s.running then s else s.(body := s.body.(mass := m))
  }

  /** The diameter slider; disabled while the simulation runs. */
  function SetDiameter(s: Sim, d: real): (r: Sim)
    requires MinDiameter <= d <= MaxDiameter
    ensures s.running ==> r == s
    ensures !s.running ==> r.body.diameter == d && r.(body := s.body) == s
    ensures r.body.mass == s.body.mass && r.body.cd == s.body.cd
  {
    if s.running then s else s.(body := s.body.(diameter := d))
  }

  /** The drag-coefficient slider; disabled while the simulation runs. */
  function SetDragCoefficient(s: Sim, cd: real): (r: Sim)
    requires MinDragCoefficient <= cd <= MaxDragCoefficient
    ensures s.running ==> r == s
    ensures !s.running ==> r.body.cd == cd && r.(body := s.body) == s
    ensures r.body.mass == s.body.mass && r.body.diameter == s.body.diameter
  {
    if s.running then s else s.(body := s.body.(cd := cd))
  }

  /** The preset selector; disabled while running. Choosing a different
      preset resets the simulation with that preset's parameters. */
  function SelectObject(s: Sim, name: string): (r: Sim)
    ensures s.running || name == s.selected ==> r == s
    ensures !s.running && name != s.selected ==> r == Reset(s.(selected := name))
  {
    if s.running || name == s.selected then s else Reset(s.(selected := name))
  }

  /** The height slider; disabled while running. A different start height
      resets the simulation to that height. */
  function SetStartHeight(s: Sim, h: real): (r: Sim)
    requires MinStartHeight <= h <= MaxStartHeight
    ensures s.running || h == s.startHeight ==> r == s
    ensures !s.running && h != s.startHeight ==> r == Reset(s.(startHeight := h)) && r.phys.height == h
  {
    if s.running || h == s.startHeight then s else Reset(s.(startHeight := h))
  }

  /** What can happen to the app: an animation frame or a control input. */
  datatype Event =
    | AnimationFrame(timestamp: real)
    | StartPausePressed
    | ResetPressed
    | ObjectSelected(name: string)
    | StartHeightSet(height: real)
    | DragCoefficientSet(cd: real)
    | MassSet(mass: real)
    | DiameterSet(diameter: real)
    | SpeedSet(speed: real)

  /** Slider events carry values inside the slider's range. */
  predicate InRange(e: Event) {
    match e
    case StartHeightSet(h) => MinStartHeight <= h <= MaxStartHeight
    case DragCoefficientSet(cd) => MinDragCoefficient <= cd <= MaxDragCoefficient
    case MassSet(m) => MinMass <= m <= MaxMass
    case DiameterSet(d) => MinDiameter <= d <= MaxDiameter
    case SpeedSet(v) => MinSpeed <= v <= MaxSpeed
    case _ => true
  }

  /** Applies one event. */
  function Apply(s: Sim, e: Event): (r: Sim)
    requires InRange(e) && s.body.mass > 0.0
    ensures r.body.mass > 0.0
  {
    match e
    case AnimationFrame(t) => Frame(s, t)
    case StartPausePressed => StartOrPause(s)
    case ResetPressed => Reset(s)
    case ObjectSelected(name) => SelectObject(s, name)
    case StartHeightSet(h) => SetStartHeight(s, h)
    case DragCoefficientSet(cd) => SetDragCoefficient(s, cd)
    case MassSet(m) => SetMass(s, m)
    case DiameterSet(d) => SetDiameter(s, d)
    case SpeedSet(v) => SetSpeed(s, v)
  }

  /** Applies a sequence of events in order. */
  function Run(s: Sim, events: seq<Event>): (r: Sim)
    requires forall i :: 0 <= i < |events| ==> InRange(events[i])
    requires s.body.mass > 0.0
    ensures r.body.mass > 0.0
    decreases |events|
  {
    if |events| == 0 then s else Run(Apply(s, events[0]), events[1..])
  }

  /** The frames' timestamps never go back and none precedes `now`. */
  predicate ClockOk(now: real, events: seq<Event>)
    decreases |events|
  {
    |events| == 0 ||
    match events[0]
    case AnimationFrame(t) => now <= t && ClockOk(t, events[1..])
    case _ => ClockOk(now, events[1..])
  }

  /** What holds of every state the app reaches: sensible parameters, a
      positive speed, a non-negative clock and height, and a non-empty
      chart below the compaction threshold whose times are in order and
      no later than the clock. */
  predicate Inv(s: Sim) {
    && ValidBody(s.body)
    && MinSpeed <= s.speed <= MaxSpeed
    && s.startHeight >= 0.0
    && s.phys.time >= 0.0
    && s.phys.height >= 0.0
    && 0 < |s.chart| < Threshold
    && TimesSorted(s.chart)
    && forall k :: 0 <= k < |s.chart| ==> 0.0 <= s.chart[k].time <= s.phys.time
  }

  /** Looking up any preset by its own name finds exactly that preset. */
  lemma PresetLookupFindsEachPreset()
    ensures forall i :: 0 <= i < |ObjectPresets| ==> PresetFor(ObjectPresets[i].name) == ObjectPresets[i]
  {
    PresetNamesDistinct();
    forall i | 0 <= i < |ObjectPresets|
      ensures PresetFor(ObjectPresets[i].name) == ObjectPresets[i]
    {
      var p := PresetFor(ObjectPresets[i].name);
      var j :| 0 <= j < |ObjectPresets| && ObjectPresets[j] == p;
      assert ObjectPresets[j].name == ObjectPresets[i].name;
      assert i == j;
    }
  }

  /** The reset the app performs on mount leaves the initial state as it is,
      and that state satisfies the invariant. */
  lemma InitialIsReset()
    ensures Reset(Initial()) == Initial()
    ensures Inv(Initial())
    ensures MinStartHeight <= Initial().startHeight <= MaxStartHeight
  {
    PresetLookupFindsEachPreset();
    assert PresetFor(Initial().selected) == ObjectPresets[0];
  }

  /** Reset establishes the invariant whenever the settings it keeps are
      sensible. */
  lemma ResetEstablishesInv(s: Sim)
    requires MinSpeed <= s.speed <= MaxSpeed && s.startHeight >= 0.0
    ensures Inv(Reset(s))
  {
  }

  /** Reset does not depend on the run state: pressing Reset right after
      Start gives the same state as pressing it without starting, and a
      frame still queued after a reset changes nothing. */
  lemma ResetCancelsRun(s: Sim, timestamp: real)
    ensures Reset(StartOrPause(s)) == Reset(s)
    ensures Frame(Reset(s), timestamp) == Reset(s)
  {
  }

  /** The first frame after Start only records the clock baseline: the
      physics, the chart and the parameters are those from before the start. */
  lemma FirstFrameOnlyRecordsClock(s: Sim, timestamp: real)
    requires !s.running && s.body.mass > 0.0
    ensures var r := Frame(StartOrPause(s), timestamp);
      && r.running && r.lastUpdate == Some(timestamp)
      && r.phys == s.phys && r.chart == s.chart && r.body == s.body
  {
  }

  /** The simulated clock never runs backwards: no frame moves it back as
      long as the wall clock has not gone back since the baseline and the
      speed is not negative. */
  lemma FrameNeverRewindsClock(s: Sim, timestamp: real)
    requires s.body.mass > 0.0 && s.speed >= 0.0
    requires s.lastUpdate.Some? ==> s.lastUpdate.value <= timestamp
    ensures Frame(s, timestamp).phys.time >= s.phys.time
    ensures s.running && s.lastUpdate.Some? && s.phys.height > 0.0 && s.speed > 0.0 && s.lastUpdate.value < timestamp
            ==> Frame(s, timestamp).phys.time > s.phys.time
  {
  }

  /** Landing takes effect one frame late: a frame whose step reaches the
      ground reports height 0 and keeps running; the next frame stops the
      run and changes nothing else but the clock baseline. */
  lemma LandingStopsOnNextFrame(s: Sim, t1: real, t2: real)
    requires s.body.mass > 0.0 && s.running && s.lastUpdate.Some? && s.phys.height > 0.0
    requires Frame(s, t1).phys.height == 0.0
    ensures Frame(s, t1).running
    ensures var r := Frame(Frame(s, t1), t2);
      && !r.running && r.phys == Frame(s, t1).phys && r.chart == Frame(s, t1).chart
    ensures Frame(Frame(Frame(s, t1), t2), t2) == Frame(Frame(s, t1), t2)
  {
  }

  /** One frame keeps the invariant, provided the wall clock has not gone
      back since the previous frame. */
  lemma {:induction false} FramePreservesInv(s: Sim, timestamp: real)
    requires Inv(s)
    requires s.lastUpdate.Some? ==> s.lastUpdate.value <= timestamp
    ensures Inv(Frame(s, timestamp))
  {
    if s.running && s.lastUpdate.Some? && s.phys.height > 0.0 {
      var dt := SimDelta(s.lastUpdate.value, timestamp, s.speed);
      var p := Step(s.phys, s.body, dt);
      var appended := s.chart + [Sample(p.time, p.velocity)];
      assert p.time >= s.phys.time;
      assert TimesSorted(appended);
      assert forall k :: 0 <= k < |appended| ==> 0.0 <= appended[k].time <= p.time;
      DownsampleKeepsOrder(appended);
      AppendThenDownsampleBounded(s.chart, Sample(p.time, p.velocity));
      if |appended| >= Threshold {
        CompactKeepsTimeBounds(appended, 0.0, p.time);
      }
    }
  }

  /** Every event keeps the invariant, provided a frame's timestamp is no
      earlier than `now` and `now` is no earlier than the last baseline. */
  lemma ApplyPreservesInv(s: Sim, e: Event, now: real)
    requires Inv(s) && InRange(e)
    requires s.lastUpdate.Some? ==> s.lastUpdate.value <= now
    requires e.AnimationFrame? ==> now <= e.timestamp
    ensures Inv(Apply(s, e))
    ensures var r := Apply(s, e);
      r.lastUpdate.Some? ==> r.lastUpdate.value <= (if e.AnimationFrame? then e.timestamp else now)
  {
    match e
    case AnimationFrame(t) => FramePreservesInv(s, t);
    case _ =>
  }

  /** Any sequence of control inputs and frames whose timestamps never go
      back keeps the invariant: in particular the reported height is never
      negative and the chart buffer never reaches the compaction threshold. */
  lemma {:induction false} RunPreservesInv(s: Sim, events: seq<Event>, now: real)
    requires Inv(s)
    requires forall i :: 0 <= i < |events| ==> InRange(events[i])
    requires s.lastUpdate.Some? ==> s.lastUpdate.value <= now
    requires ClockOk(now, events)
    ensures Inv(Run(s, events))
    ensures Run(s, events).phys.height >= 0.0
    ensures |Run(s, events).chart| < Threshold
    decreases |events|
  {
    if |events| > 0 {
      var e := events[0];
      ApplyPreservesInv(s, e, now);
      var next := if e.AnimationFrame? then e.timestamp else now;
      RunPreservesInv(Apply(s, e), events[1..], next);
    }
  }

  /** Consecutive frame intervals add up: the simulated time of two
      intervals is that of the whole span. */
  lemma SimDeltaAdds(a: real, b: real, c: real, speed: real)
    ensures SimDelta(a, b, speed) + SimDelta(b, c, speed) == SimDelta(a, c, speed)
  {
    assert (b - a) / 1000.0 + (c - b) / 1000.0 == (c - a) / 1000.0;
  }

  /** Delivers the frames at the given timestamps in order. */
  function RunFrames(s: Sim, timestamps: seq<real>): (r: Sim)
    requires s.body.mass > 0.0
    ensures r.body == s.body && r.speed == s.speed
    decreases |timestamps|
  {
    if |timestamps| == 0 then s else RunFrames(Frame(s, timestamps[0]), timestamps[1..])
  }

  /** The object is above the ground before each of the given frames. */
  predicate StaysAirborne(s: Sim, timestamps: seq<real>)
    requires s.body.mass > 0.0
    decreases |timestamps|
  {
    |timestamps| == 0 || (s.phys.height > 0.0 && StaysAirborne(Frame(s, timestamps[0]), timestamps[1..]))
  }

  /** While the object is in the air, the simulated clock advances by exactly
      the wall-clock time since the baseline, scaled by the speed factor:
      no frame interval is lost. */
  lemma {:induction false} FramesTrackWallClock(s: Sim, timestamps: seq<real>)
    requires s.body.mass > 0.0 && s.running && s.lastUpdate.Some? && |timestamps| > 0
    requires StaysAirborne(s, timestamps)
    ensures RunFrames(s, timestamps).running
    ensures RunFrames(s, timestamps).lastUpdate == Some(timestamps[|timestamps| - 1])
    ensures RunFrames(s, timestamps).phys.time
            == s.phys.time + SimDelta(s.lastUpdate.value, timestamps[|timestamps| - 1], s.speed)
    decreases |timestamps|
  {
    var s1 := Frame(s, timestamps[0]);
    if |timestamps| > 1 {
      var rest := timestamps[1..];
      FramesTrackWallClock(s1, rest);
      assert rest[|rest| - 1] == timestamps[|timestamps| - 1];
      SimDeltaAdds(s.lastUpdate.value, timestamps[0], timestamps[|timestamps| - 1], s.speed);
    } else {
      assert RunFrames(s1, timestamps[1..]) == s1;
    }
  }

  /** A frame as the rendered app delivers it: the frame callback depends on
      the current time and velocity, so a frame that changes either makes
      the running-state effect restart the loop, which clears the clock
      baseline again. */
  function FrameAsRendered(s: Sim, timestamp: real): (r: Sim)
    requires s.body.mass > 0.0
    ensures r.phys == Frame(s, timestamp).phys && r.chart == Frame(s, timestamp).chart
    ensures r.running == Frame(s, timestamp).running
    ensures r.running && (r.phys.time != s.phys.time || r.phys.velocity != s.phys.velocity) ==> r.lastUpdate.None?
    ensures !(r.running && (r.phys.time != s.phys.time || r.phys.velocity != s.phys.velocity)) ==> r == Frame(s, timestamp)
    ensures r.(lastUpdate := Frame(s, timestamp).lastUpdate) == Frame(s, timestamp)
    ensures r.body == s.body
  {
    var r := Frame(s, timestamp);
    if r.running && (r.phys.time != s.phys.time || r.phys.velocity != s.phys.velocity)
    then r.(lastUpdate := None)
    else r
  }

  /** Delivers frames as the rendered app does. */
  function RunFramesAsRendered(s: Sim, timestamps: seq<real>): (r: Sim)
    requires s.body.mass > 0.0
    ensures r.body == s.body
    decreases |timestamps|
  {
    if |timestamps| == 0 then s else RunFramesAsRendered(FrameAsRendered(s, timestamps[0]), timestamps[1..])
  }

  /** The running simulation used to exhibit lost frame intervals: a
      basketball-sized object without drag, 169 m up, baseline at 0 ms. */
  function Witness(): Sim {
    Sim(true, Some(0.0), "Basketball", 169.0, Body(0.62, 0.24, 0.0), 1.0,
        Phys(0.0, 169.0, 0.0, 0.0, 0.0, 0.0), [Sample(0.0, 0.0)])
  }

  /** With frames at 16, 32 and 48 ms at speed 1, the simulated clock reads
      0.048 s: every interval counts. */
  lemma FramesKeepEveryInterval()
    ensures RunFrames(Witness(), [16.0, 32.0, 48.0]).phys.time == 0.048
  {
    var s := Witness();
    var ts := [16.0, 32.0, 48.0];
    NoDragIsFreeFall(s.phys, s.body, 0.016);
    var a1 := Frame(s, 16.0);
    assert a1.phys.time == 0.016 && a1.phys.velocity == 0.1568;
    assert a1.phys.height == 169.0 - 0.1568 * 0.016;
    assert a1.running && a1.lastUpdate == Some(16.0) && a1.body == s.body && a1.speed == 1.0;
    NoDragIsFreeFall(a1.phys, a1.body, 0.016);
    var a2 := Frame(a1, 32.0);
    assert a2.phys.time == 0.032 && a2.phys.velocity == 0.3136;
    assert a2.phys.height == a1.phys.height - 0.3136 * 0.016;
    assert a2.running && a2.lastUpdate == Some(32.0) && a2.body == s.body;
    assert ts[1..] == [32.0, 48.0] && ts[1..][1..] == [48.0] && ts[1..][1..][1..] == [];
    assert StaysAirborne(a2, [48.0]);
    assert StaysAirborne(a1, [32.0, 48.0]);
    assert StaysAirborne(s, ts);
    FramesTrackWallClock(s, ts);
    assert SimDelta(0.0, 48.0, 1.0) == 0.048;
  }

  /** The first rendered frame of `Witness` at 16 ms: one step is taken,
      and the loop restart clears the baseline. */
  lemma RenderedFirstFrame()
    ensures var b1 := FrameAsRendered(Witness(), 16.0);
      && b1.running && b1.lastUpdate.None? && b1.body == Witness().body && b1.speed == 1.0
      && b1.phys.time == 0.016 && b1.phys.height > 0.0
  {
    var s := Witness();
    NoDragIsFreeFall(s.phys, s.body, 0.016);
    assert SimDelta(0.0, 16.0, 1.0) == 0.016;
  }

  /** The same frames as rendered: the frame at 32 ms only re-records the
      baseline, and the clock reads 0.032 s. */
  lemma RestartLosesFrameIntervals()
    ensures RunFramesAsRendered(Witness(), [16.0, 32.0, 48.0]).phys.time == 0.032
  {
    var s := Witness();
    RenderedFirstFrame();
    var b1 := FrameAsRendered(s, 16.0);
    var b2 := FrameAsRendered(b1, 32.0);
    assert b2.running && b2.lastUpdate == Some(32.0) && b2.phys == b1.phys && b2.body == b1.body && b2.speed == 1.0;
    var b3 := FrameAsRendered(b2, 48.0);
    assert SimDelta(32.0, 48.0, 1.0) == 0.016;
    assert b3.phys.time == 0.032;
    RenderedThreeFrames(s, 16.0, 32.0, 48.0);
  }

  /** Three rendered frames in a row, one after the other. */
  lemma RenderedThreeFrames(s: Sim, t1: real, t2: real, t3: real)
    requires s.body.mass > 0.0
    ensures RunFramesAsRendered(s, [t1, t2, t3])
            == FrameAsRendered(FrameAsRendered(FrameAsRendered(s, t1), t2), t3)
  {
    var r1 := FrameAsRendered(s, t1);
    var r2 := FrameAsRendered(r1, t2);
    var r3 := FrameAsRendered(r2, t3);
    assert [t3][1..] == [];
    assert RunFramesAsRendered(r2, [t3]) == RunFramesAsRendered(r3, []) == r3;
    assert [t2, t3][1..] == [t3];
    assert RunFramesAsRendered(r1, [t2, t3]) == RunFramesAsRendered(r2, [t3]);
    assert [t1, t2, t3][1..] == [t2, t3];
    assert RunFramesAsRendered(s, [t1, t2, t3]) == RunFramesAsRendered(r1, [t2, t3]);
  }

  /** A ball 1 mm above the ground in the running simulation of `Witness`. */
  function NearGround(): Sim {
    Witness().(phys := Phys(0.0, 0.001, 0.0, 0.0, 0.0, 0.0))
  }

  /** As rendered, landing stops the run two frames late, not one: the
      landing frame changes time and velocity, so the loop restarts, the next
      frame only re-records the baseline, and the frame after it stops. */
  lemma LandingStopsLateAsRendered()
    ensures var a := FrameAsRendered(NearGround(), 16.0);
      var b := FrameAsRendered(a, 32.0);
      var c := FrameAsRendered(b, 48.0);
      && a.phys.height == 0.0 && a.running
      && b.running && b.phys == a.phys
      && !c.running && c.phys == a.phys
  {
    var s := NearGround();
    NoDragIsFreeFall(s.phys, s.body, 0.016);
    var a := FrameAsRendered(s, 16.0);
    assert a.phys.time == 0.016 && a.phys.velocity == 0.1568;
    assert a.phys.height == 0.0 && a.running && a.lastUpdate.None?;
    var b := FrameAsRendered(a, 32.0);
    assert b == a.(lastUpdate := Some(32.0));
    var c := FrameAsRendered(b, 48.0);
    assert c == b.(running := false, lastUpdate := Some(48.0), phys := b.phys.(height := 0.0));
  }
}
