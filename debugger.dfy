/**
 * The session facade `WebGLDebugger`: it owns the counter object that the
 * GL wrappers update, the simple GPU timers and the resource tracker; it
 * zeroes the per-frame counters when a frame begins, keeps a bounded window
 * of frame rates, and projects all of it into a snapshot.
 */
module Debugger {
  import opened Wrappers
  import Caps
  import Instrument
  import Timers
  import Resources
  import Rolling

  /** The sampling mode: 'off', 'sampled' or 'full'. */
  datatype Mode = Off | Sampled | Full

  /** The constructor options that the core reads (`mode` and `sampleRate`, both optional). */
  datatype Options = Options(mode: Option<Mode>, sampleRate: Option<real>)

  const DEFAULT_MODE := Sampled
  const DEFAULT_SAMPLE_RATE := 0.25
  const FPS_WINDOW := 60
  /** The timer label `beginFrame`/`endFrame` use for the whole frame. */
  const FRAME_TIMER := "__frame"

  /** Binds, program switches and instancing are tracked in 'sampled' and 'full' only. */
  function TrackOptions(mode: Mode): (o: Instrument.WrapOptions)
    ensures o.trackBinds == o.trackPrograms == o.trackInstancing == (mode != Off)
  {
    var active := mode != Off;
    Instrument.WrapOptions(active, active, active)
  }

  /** `shouldSample()`, where `random` is the value `Math.random()` returned. */
  predicate ShouldSample(mode: Mode, rate: real, random: real) {
    mode == Full || (mode == Sampled && random < rate)
  }

  /**
   * 'full' samples every frame and 'off' none; 'sampled' samples every frame
   * when the rate is at least 1 and none when it is at most 0, since
   * `Math.random()` lies in [0, 1).
   */
  lemma SamplingByMode(mode: Mode, rate: real, random: real)
    requires 0.0 <= random < 1.0
    ensures mode == Full ==> ShouldSample(mode, rate, random)
    ensures mode == Off ==> !ShouldSample(mode, rate, random)
    ensures mode == Sampled && rate >= 1.0 ==> ShouldSample(mode, rate, random)
    ensures mode == Sampled && rate <= 0.0 ==> !ShouldSample(mode, rate, random)
  {
  }

  // ---------------------------------------------------------------------------
  // Counters
  // ---------------------------------------------------------------------------

  /** The counters after `beginFrame`: the frame number advances and everything else is zero. */
  function FrameReset(c: Instrument.Counters): (r: Instrument.Counters)
    ensures r.frameId == c.frameId + 1 && Instrument.PerFrameZero(r)
  {
    Instrument.NewCounters().(frameId := c.frameId + 1)
  }

  /** `custom[key] = (custom[key] || 0) + delta`. */
  function Bump(custom: map<string, int>, key: string, delta: int): (r: map<string, int>)
    ensures r.Keys == custom.Keys + {key}
    ensures r[key] == (if key in custom then custom[key] else 0) + delta
    ensures forall k :: k in custom && k != key ==> r[k] == custom[k]
  {
    custom[key := (if key in custom then custom[key] else 0) + delta]
  }

  /** Two increments of the same key add up. */
  lemma BumpTwice(custom: map<string, int>, key: string, a: int, b: int)
    ensures Bump(Bump(custom, key, a), key, b) == Bump(custom, key, a + b)
  {
    var l, r := Bump(Bump(custom, key, a), key, b), Bump(custom, key, a + b);
    assert l.Keys == r.Keys;
    forall k | k in l ensures l[k] == r[k] {
    }
  }

  /** Increments of different keys commute. */
  lemma BumpCommutes(custom: map<string, int>, k1: string, a: int, k2: string, b: int)
    requires k1 != k2
    ensures Bump(Bump(custom, k1, a), k2, b) == Bump(Bump(custom, k2, b), k1, a)
  {
    var l, r := Bump(Bump(custom, k1, a), k2, b), Bump(Bump(custom, k2, b), k1, a);
    assert l.Keys == r.Keys;
    forall k | k in l ensures l[k] == r[k] {
    }
  }

  /**
   * Whatever the GL calls made since `beginFrame`, the frame's counters hold
   * exactly the draws and uploads of that frame, no pass and no custom
   * counter, under the new frame number.
   */
  lemma FrameCounts(opts: Instrument.WrapOptions, isGL2: bool, hasAngle: bool, c: Instrument.Counters,
                    lastProg: Option<Instrument.Handle>, calls: seq<Instrument.Call>)
    ensures var t := Instrument.Run(opts, isGL2, hasAngle, Instrument.WrapState(FrameReset(c), lastProg), calls).counters;
      t.frameId == c.frameId + 1 && t.drawCalls == Instrument.DrawsIn(opts, isGL2, hasAngle, calls) &&
      t.bufferUploads == Instrument.UploadsIn(calls) && t.instancedDrawCalls <= t.drawCalls &&
      t.postPasses == 0 && t.custom == map[]
  {
    Instrument.RunCounts(opts, isGL2, hasAngle, Instrument.WrapState(FrameReset(c), lastProg), calls);
  }

  /**
   * In 'off' mode binds, program switches and instanced draws are never
   * counted; plain draws still are.
   */
  lemma {:induction false} OffTracksNothing(isGL2: bool, hasAngle: bool, s: Instrument.WrapState, calls: seq<Instrument.Call>)
    ensures var t := Instrument.Run(TrackOptions(Off), isGL2, hasAngle, s, calls);
      t.counters.textureBinds == s.counters.textureBinds &&
      t.counters.shaderSwitches == s.counters.shaderSwitches &&
      t.counters.instancedDrawCalls == s.counters.instancedDrawCalls &&
      t.lastProg == s.lastProg
    ensures forall i :: 0 <= i < |calls| && (calls[i].DrawArrays? || calls[i].DrawElements?) ==>
      Instrument.CountedDraw(TrackOptions(Off), isGL2, hasAngle, calls[i])
    decreases |calls|
  {
    if calls != [] {
      OffTracksNothing(isGL2, hasAngle, s, calls[..|calls| - 1]);
    }
  }

  // ---------------------------------------------------------------------------
  // Snapshot
  // ---------------------------------------------------------------------------

  /** `MetricSnapshot`. */
  datatype Snapshot = Snapshot(
    ts: real,
    frameId: int,
    fps: real,
    cpuMs: real,
    gpuMs: Option<real>,
    drawCalls: int,
    instancedDrawCalls: int,
    triangles: int,
    points: int,
    lines: int,
    postPasses: int,
    textureBinds: int,
    shaderSwitches: int,
    bufferUploads: int,
    custom: map<string, int>)

  /** The counter fields a snapshot carries, read back into a counter record. */
  function CountersOf(s: Snapshot): Instrument.Counters {
    Instrument.Counters(s.frameId, s.drawCalls, s.instancedDrawCalls, s.triangles, s.points, s.lines,
                        s.textureBinds, s.shaderSwitches, s.bufferUploads, s.postPasses, s.custom)
  }

  /** `reduce((a, b) => a + b, 0) / (length || 1)`. */
  function MeanFps(samples: seq<real>): real {
    Rolling.Sum(samples) / (if |samples| == 0 then 1 else |samples|) as real
  }

  /** `getSnapshot()`, given the clock reading `ts` and the simple timers' statistics. */
  function SnapshotOf(ts: real, c: Instrument.Counters, samples: seq<real>, stats: map<string, Timers.Stat>): Snapshot {
    var avg := MeanFps(samples);
    Snapshot(ts, c.frameId, avg, 1000.0 / (if avg == 0.0 then 60.0 else avg),
             if FRAME_TIMER in stats then stats[FRAME_TIMER].last else None,
             c.drawCalls, c.instancedDrawCalls, c.triangles, c.points, c.lines, c.postPasses,
             c.textureBinds, c.shaderSwitches, c.bufferUploads, c.custom)
  }

  /**
   * A snapshot copies every counter; its fps is 0 without samples and
   * otherwise lies within any bounds on the samples; cpuMs is 1000 / fps
   * (1000 / 60 when fps is 0); gpuMs is the last '__frame' time, if any.
   */
  lemma SnapshotProps(ts: real, c: Instrument.Counters, samples: seq<real>, stats: map<string, Timers.Stat>, lo: real, hi: real)
    ensures var s := SnapshotOf(ts, c, samples, stats);
      CountersOf(s) == c && s.ts == ts &&
      (samples == [] ==> s.fps == 0.0 && s.cpuMs == 1000.0 / 60.0) &&
      (s.fps != 0.0 ==> s.cpuMs * s.fps == 1000.0) &&
      (FRAME_TIMER in stats ==> s.gpuMs == stats[FRAME_TIMER].last) &&
      (FRAME_TIMER !in stats ==> s.gpuMs.None?)
    ensures samples != [] && (forall i :: 0 <= i < |samples| ==> lo <= samples[i] <= hi) ==>
      lo <= SnapshotOf(ts, c, samples, stats).fps <= hi
  {
    if samples != [] && (forall i :: 0 <= i < |samples| ==> lo <= samples[i] <= hi) {
      Rolling.MeanBounds(samples, lo, hi);
    }
  }

  /** `getResources()`: the tracker's live per-kind counts and list, and its exposed byte total. */
  datatype ResourceReport = ResourceReport(byKind: map<Resources.Kind, int>, estBytes: int, list: seq<Resources.Resource>)

  // ---------------------------------------------------------------------------
  // The session object
  // ---------------------------------------------------------------------------

  class WebGLDebugger {
    const caps: Caps.Capabilities
    const counters: Instrument.CounterState
    const timers: Timers.GPUTimers
    const resources: Resources.ResourceTracker
    /** The context after `wrapGL`, sharing `counters`. */
    const gl: Instrument.WrappedGL
    const mode: Mode
    const sampleRate: real
    var frameStart: real
    var lastFpsTs: real
    var fpsSamples: seq<real>

    ghost predicate Valid()
      reads this, timers, resources
    {
      timers.Valid() && resources.Valid() && resources.exposedEstBytes == 0 &&
      gl.counters == counters && |fpsSamples| <= FPS_WINDOW
    }

    /**
     * `new WebGLDebugger(gl, opts)` for a context of the given version exposing
     * `exts`; `now` is the clock reading stored as the last fps timestamp.
     */
    constructor (isGL2: bool, exts: set<string>, opts: Options, now: real)
      ensures Valid()
      ensures caps == Caps.DetectCapabilities(isGL2, exts)
      ensures counters.Value() == Instrument.NewCounters()
      ensures timers.State() == Timers.TimersState([], [], map[], [])
      ensures timers.isGL2 == isGL2 && timers.hasExt1 == (Caps.EXT_DISJOINT_TIMER_QUERY in exts)
      ensures timers.hasExt2 == (Caps.EXT_DISJOINT_TIMER_QUERY_WEBGL2 in exts)
      ensures resources.State() == Resources.InitialState()
      ensures mode == opts.mode.GetOr(DEFAULT_MODE) && sampleRate == opts.sampleRate.GetOr(DEFAULT_SAMPLE_RATE)
      ensures gl.opts == TrackOptions(mode) && gl.isGL2 == isGL2
      ensures gl.hasAngle == (Caps.ANGLE_INSTANCED_ARRAYS in exts) && gl.lastProg == None
      ensures frameStart == 0.0 && lastFpsTs == now && fpsSamples == []
      ensures fresh(counters) && fresh(timers) && fresh(resources) && fresh(gl)
    {
      caps := Caps.DetectCapabilities(isGL2, exts);
      var c := new Instrument.CounterState();
      counters := c;
      timers := new Timers.GPUTimers(isGL2, Caps.EXT_DISJOINT_TIMER_QUERY in exts, Caps.EXT_DISJOINT_TIMER_QUERY_WEBGL2 in exts);
      resources := new Resources.ResourceTracker(isGL2, Caps.OES_VERTEX_ARRAY_OBJECT in exts);
      var m := opts.mode.GetOr(DEFAULT_MODE);
      mode := m;
      sampleRate := opts.sampleRate.GetOr(DEFAULT_SAMPLE_RATE);
      gl := new Instrument.WrappedGL.WrapGL(isGL2, Caps.ANGLE_INSTANCED_ARRAYS in exts, c, TrackOptions(m));
      frameStart := 0.0;
      lastFpsTs := now;
      fpsSamples := [];
    }

    /**
     * `beginFrame()`: `now` is the clock, `random` the sampling draw and
     * `created` what query creation returns if the frame timer begins.
     */
    method BeginFrame(now: real, random: real, created: Option<Timers.Query>) returns (threw: bool)
      requires Valid()
      modifies this, counters, timers
      ensures Valid()
      ensures counters.Value() == FrameReset(old(counters.Value()))
      ensures frameStart == now && fpsSamples == old(fpsSamples) && lastFpsTs == old(lastFpsTs)
      ensures ShouldSample(mode, sampleRate, random) ==>
        timers.State() == Timers.BeginSpec(old(timers.State()), timers.isGL2, timers.hasExt1, timers.hasExt2, FRAME_TIMER, created) &&
        threw == Timers.BeginThrows(timers.isGL2, timers.hasExt1, timers.hasExt2, created)
      ensures !ShouldSample(mode, sampleRate, random) ==> timers.State() == old(timers.State()) && !threw
    {
      counters.frameId := counters.frameId + 1;
      frameStart := now;
      counters.drawCalls, counters.instancedDrawCalls,
        counters.triangles, counters.points, counters.lines,
        counters.textureBinds, counters.shaderSwitches,
        counters.bufferUploads, counters.postPasses, counters.custom := 0, 0, 0, 0, 0, 0, 0, 0, 0, map[];
      ghost var reset := counters.Value();
      assert reset == FrameReset(old(counters.Value()));
      threw := false;
      if ShouldSample(mode, sampleRate, random) {
        threw := timers.Begin(FRAME_TIMER, created);
      }
      assert counters.Value() == reset;
    }

    /**
     * `endFrame()`: `fps` is `1000 / (now - frameStart)`, `random` the
     * sampling draw, and `disjoint`, `available`, `ns` what the timers' poll
     * reads. Unless ending the frame timer throws, the timers are polled.
     */
    method EndFrame(fps: real, random: real, disjoint: bool, available: Timers.Query -> bool, ns: Timers.Query -> nat)
      returns (threw: bool)
      requires Valid()
      modifies this, timers
      ensures Valid()
      ensures fpsSamples == Rolling.Push(old(fpsSamples), fps, FPS_WINDOW)
      ensures frameStart == old(frameStart) && lastFpsTs == old(lastFpsTs)
      ensures var t := old(timers.State());
        var endThrows := Timers.Supported(timers.hasExt1, timers.hasExt2) && t.active != [] &&
                         !Timers.ApiExt(timers.isGL2, timers.hasExt1, timers.hasExt2);
        var e := if ShouldSample(mode, sampleRate, random) then Timers.EndSpec(t, timers.isGL2, timers.hasExt1, timers.hasExt2) else t;
        if ShouldSample(mode, sampleRate, random) && endThrows then threw && timers.State() == e
        else
          timers.State() == Timers.PollSpec(e, timers.isGL2, timers.hasExt1, timers.hasExt2, disjoint, available, ns) &&
          (threw <==> Timers.Supported(timers.hasExt1, timers.hasExt2) && !Timers.ApiExt(timers.isGL2, timers.hasExt1, timers.hasExt2))
    {
      PushFps(fps);
      if ShouldSample(mode, sampleRate, random) {
        threw := timers.End();
        if threw {
          return;
        }
      }
      threw := timers.Poll(disjoint, available, ns);
    }

    /** `pushFps(v)`: the window keeps the newest 60 rates. */
    method PushFps(v: real)
      requires Valid()
      modifies this
      ensures Valid()
      ensures fpsSamples == Rolling.Push(old(fpsSamples), v, FPS_WINDOW)
      ensures frameStart == old(frameStart) && lastFpsTs == old(lastFpsTs)
    {
      var w := fpsSamples + [v];
      if |w| > FPS_WINDOW {
        w := w[1..];
      }
      fpsSamples := w;
    }

    /** `getSnapshot()`; `ts` is the `Date.now()` reading. */
    method GetSnapshot(ts: real) returns (s: Snapshot)
      requires Valid()
      ensures s == SnapshotOf(ts, counters.Value(), fpsSamples, Timers.Stats(timers.timings))
      ensures CountersOf(s) == counters.Value()
    {
      var stats := timers.GetStats();
      s := SnapshotOf(ts, counters.Value(), fpsSamples, stats);
      SnapshotProps(ts, counters.Value(), fpsSamples, stats, 0.0, 0.0);
    }

    /** `getResources()`: the exposed byte total is the copy taken at creation, 0. */
    method GetResources() returns (r: ResourceReport)
      requires Valid()
      ensures r == ResourceReport(resources.byKind, 0, resources.list)
    {
      r := ResourceReport(resources.byKind, resources.exposedEstBytes, resources.list);
    }

    /** `getTimers()`. */
    method GetTimers() returns (r: map<string, Timers.Stat>)
      requires Valid()
      ensures r == Timers.Stats(timers.timings)
    {
      r := timers.GetStats();
    }

    /** `pushPass(name)`: one more post-processing pass, nothing else changes. */
    method PushPass(name: string)
      modifies counters
      ensures counters.Value() == old(counters.Value()).(postPasses := old(counters.postPasses) + 1)
    {
      counters.postPasses := counters.postPasses + 1;
    }

    /** `incCustom(key, delta = 1)`. */
    method IncCustom(key: string, delta: int := 1)
      modifies counters
      ensures counters.Value() == old(counters.Value()).(custom := Bump(old(counters.custom), key, delta))
    {
      counters.custom := counters.custom[key := (if key in counters.custom then counters.custom[key] else 0) + delta];
    }
  }
}
