/**
 * Draw-call instrumentation: the primitive estimator, the shared counter
 * record, and the counting side effects of the wrappers installed around
 * the GL entry points. The underlying GL calls themselves are opaque: a
 * wrapper's only observable effect here is on the counters and on the
 * last-program cell.
 */
module Instrument {
  import opened Wrappers

  /** An opaque GL object (texture, program, ...). */
  type Handle = nat

  const POINTS: int := 0x0000
  const LINES: int := 0x0001
  const LINE_LOOP: int := 0x0002
  const LINE_STRIP: int := 0x0003
  const TRIANGLES: int := 0x0004
  const TRIANGLE_STRIP: int := 0x0005
  const TRIANGLE_FAN: int := 0x0006

  // ---------------------------------------------------------------------------
  // Primitive estimate
  // ---------------------------------------------------------------------------

  datatype Prims = Prims(tris: int, lines: int, points: int)

  function Max0(x: int): int { if x < 0 then 0 else x }

  /** `estimatePrims(mode, count)`. */
  function EstimatePrims(mode: int, count: int): (p: Prims)
    ensures mode != POINTS ==> p.tris >= 0 && p.lines >= 0 && p.points == 0
    ensures p.tris == 0 || p.lines == 0
    ensures mode !in {POINTS, LINES, LINE_LOOP, LINE_STRIP, TRIANGLES, TRIANGLE_STRIP, TRIANGLE_FAN} ==>
      p == Prims(0, 0, 0)
  {
    if mode == TRIANGLES then Prims(Max0(count / 3), 0, 0)
    else if mode == TRIANGLE_STRIP || mode == TRIANGLE_FAN then Prims(Max0(count - 2), 0, 0)
    else if mode == LINES then Prims(0, Max0(count / 2), 0)
    else if mode == LINE_STRIP then Prims(0, Max0(count - 1), 0)
    else if mode == LINE_LOOP then Prims(0, Max0(count), 0)
    else if mode == POINTS then Prims(0, 0, count)
    else Prims(0, 0, 0)
  }

  /** Independent count: how many disjoint runs of `size` consecutive vertices fit in `n`. */
  function Groups(n: int, size: nat): nat
    requires size >= 1
    decreases n
  {
    if n < size then 0 else 1 + Groups(n - size, size)
  }

  /** Independent count: how many windows of `size` consecutive vertices slide over `n`. */
  function Windows(n: int, size: nat): nat
    requires size >= 1
    decreases n
  {
    if n < size then 0 else 1 + Windows(n - 1, size)
  }

  /** The runs fill all of `n` except a remainder shorter than one run. */
  lemma {:induction false} GroupsFill(n: int, size: nat)
    requires size >= 1
    ensures n < 0 ==> Groups(n, size) == 0
    ensures n >= 0 ==> Groups(n, size) * size <= n < Groups(n, size) * size + size
    decreases n
  {
    if n >= size {
      GroupsFill(n - size, size);
      assert Groups(n, size) * size == Groups(n - size, size) * size + size;
    }
  }

  lemma {:induction false} WindowsIsDifference(n: int, size: nat)
    requires size >= 1
    ensures Windows(n, size) == Max0(n - size + 1)
    decreases n
  {
    if n >= size {
      WindowsIsDifference(n - 1, size);
    }
  }

  /**
   * The estimate counts what the topology actually draws: separate triangles
   * and lines take disjoint runs of 3 and 2 vertices, strips and fans one
   * primitive per window of 3 (or 2) vertices, a loop one line per vertex,
   * and points are passed through unclamped.
   */
  lemma EstimateCountsPrimitives(count: int)
    ensures EstimatePrims(TRIANGLES, count) == Prims(Groups(count, 3), 0, 0)
    ensures EstimatePrims(TRIANGLE_STRIP, count) == Prims(Windows(count, 3), 0, 0)
    ensures EstimatePrims(TRIANGLE_FAN, count) == Prims(Windows(count, 3), 0, 0)
    ensures EstimatePrims(LINES, count) == Prims(0, Groups(count, 2), 0)
    ensures EstimatePrims(LINE_STRIP, count) == Prims(0, Windows(count, 2), 0)
    ensures EstimatePrims(LINE_LOOP, count) == Prims(0, Windows(count, 1), 0)
    ensures EstimatePrims(POINTS, count) == Prims(0, 0, count)
  {
    GroupsFill(count, 3);
    GroupsFill(count, 2);
    WindowsIsDifference(count, 3);
    WindowsIsDifference(count, 2);
    WindowsIsDifference(count, 1);
  }

  // ---------------------------------------------------------------------------
  // Counter record
  // ---------------------------------------------------------------------------

  datatype Counters = Counters(
    frameId: int,
    drawCalls: int,
    instancedDrawCalls: int,
    triangles: int,
    points: int,
    lines: int,
    textureBinds: int,
    shaderSwitches: int,
    bufferUploads: int,
    postPasses: int,
    custom: map<string, int>)

  /** Every per-frame counter is zero and no custom counter exists. */
  predicate PerFrameZero(c: Counters) {
    c.drawCalls == 0 && c.instancedDrawCalls == 0 && c.triangles == 0 && c.points == 0 &&
    c.lines == 0 && c.textureBinds == 0 && c.shaderSwitches == 0 && c.bufferUploads == 0 &&
    c.postPasses == 0 && c.custom == map[]
  }

  /** `newCounters()`. */
  function NewCounters(): (c: Counters)
    ensures c.frameId == 0 && PerFrameZero(c)
  {
    Counters(0, 0, 0, 0, 0, 0, 0, 0, 0, 0, map[])
  }

  /** The shared, mutable counter object that the wrappers and the session both update. */
  class CounterState {
    var frameId: int
    var drawCalls: int
    var instancedDrawCalls: int
    var triangles: int
    var points: int
    var lines: int
    var textureBinds: int
    var shaderSwitches: int
    var bufferUploads: int
    var postPasses: int
    var custom: map<string, int>

    function Value(): Counters
      reads this
    {
      Counters(frameId, drawCalls, instancedDrawCalls, triangles, points, lines,
               textureBinds, shaderSwitches, bufferUploads, postPasses, custom)
    }

    constructor ()
      ensures Value() == NewCounters()
    {
      frameId, drawCalls, instancedDrawCalls := 0, 0, 0;
      triangles, points, lines := 0, 0, 0;
      textureBinds, shaderSwitches, bufferUploads, postPasses := 0, 0, 0, 0;
      custom := map[];
    }

    /** Adds one draw call (an instanced one when `instanced`) and `primcount` copies of `p`. */
    method CountDraw(p: Prims, primcount: int, instanced: bool)
      modifies this
      ensures Value() == AddDraw(old(Value()), p, primcount, instanced)
    {
      drawCalls := drawCalls + 1;
      if instanced {
        instancedDrawCalls := instancedDrawCalls + 1;
      }
      triangles := triangles + p.tris * primcount;
      lines := lines + p.lines * primcount;
      points := points + p.points * primcount;
    }
  }

  /** The counters after one draw of `primcount` instances of `p`. */
  function AddDraw(c: Counters, p: Prims, primcount: int, instanced: bool): Counters {
    c.(drawCalls := c.drawCalls + 1,
       instancedDrawCalls := c.instancedDrawCalls + (if instanced then 1 else 0),
       triangles := c.triangles + p.tris * primcount,
       lines := c.lines + p.lines * primcount,
       points := c.points + p.points * primcount)
  }

  // ---------------------------------------------------------------------------
  // Wrapped entry points
  // ---------------------------------------------------------------------------

  datatype WrapOptions = WrapOptions(trackBinds: bool, trackPrograms: bool, trackInstancing: bool)

  /** A call reaching one of the wrapped GL entry points. */
  datatype Call =
    | DrawArrays(mode: int, first: int, count: int)
    | DrawElements(mode: int, count: int, indexType: int, offset: int)
    | DrawArraysInstanced(mode: int, first: int, count: int, primcount: int)
    | DrawElementsInstanced(mode: int, count: int, indexType: int, offset: int, primcount: int)
    | BindTexture(target: int, tex: Option<Handle>)
    | UseProgram(prog: Option<Handle>)
    | BufferData(target: int, usage: int)
    | BufferSubData(target: int, offset: int)

  /** What the wrappers observe: the counters and the last program passed to `useProgram`. */
  datatype WrapState = WrapState(counters: Counters, lastProg: Option<Handle>)

  /** The instanced wrappers exist: tracking is on and the context is WebGL2 or has the ANGLE extension. */
  predicate InstancingWrapped(opts: WrapOptions, isGL2: bool, hasAngle: bool) {
    opts.trackInstancing && (isGL2 || hasAngle)
  }

  /** The effect of one call on the wrapper state (unwrapped entry points change nothing). */
  function Step(opts: WrapOptions, isGL2: bool, hasAngle: bool, s: WrapState, call: Call): WrapState {
    match call
    case DrawArrays(mode, _, count) =>
      s.(counters := AddDraw(s.counters, EstimatePrims(mode, count), 1, false))
    case DrawElements(mode, count, _, _) =>
      s.(counters := AddDraw(s.counters, EstimatePrims(mode, count), 1, false))
    case DrawArraysInstanced(mode, _, count, primcount) =>
      if InstancingWrapped(opts, isGL2, hasAngle)
      then s.(counters := AddDraw(s.counters, EstimatePrims(mode, count), primcount, true))
      else s
    case DrawElementsInstanced(mode, count, _, _, primcount) =>
      if InstancingWrapped(opts, isGL2, hasAngle)
      then s.(counters := AddDraw(s.counters, EstimatePrims(mode, count), primcount, true))
      else s
    case BindTexture(_, tex) =>
      if opts.trackBinds && tex.Some?
      then s.(counters := s.counters.(textureBinds := s.counters.textureBinds + 1))
      else s
    case UseProgram(prog) =>
      if opts.trackPrograms && prog != s.lastProg
      then WrapState(s.counters.(shaderSwitches := s.counters.shaderSwitches + 1), prog)
      else s
    case BufferData(_, _) =>
      s.(counters := s.counters.(bufferUploads := s.counters.bufferUploads + 1))
    case BufferSubData(_, _) =>
      s.(counters := s.counters.(bufferUploads := s.counters.bufferUploads + 1))
  }

  /** A trace of calls, applied in order. */
  function Run(opts: WrapOptions, isGL2: bool, hasAngle: bool, s: WrapState, calls: seq<Call>): WrapState {
    if calls == [] then s
    else Step(opts, isGL2, hasAngle, Run(opts, isGL2, hasAngle, s, calls[..|calls| - 1]), calls[|calls| - 1])
  }

  /** The call is counted as a draw by the installed wrappers. */
  predicate CountedDraw(opts: WrapOptions, isGL2: bool, hasAngle: bool, call: Call) {
    call.DrawArrays? || call.DrawElements? ||
    ((call.DrawArraysInstanced? || call.DrawElementsInstanced?) && InstancingWrapped(opts, isGL2, hasAngle))
  }

  /** The number of calls in a trace satisfying `CountedDraw`. */
  function DrawsIn(opts: WrapOptions, isGL2: bool, hasAngle: bool, calls: seq<Call>): nat {
    if calls == [] then 0
    else
      var last := if CountedDraw(opts, isGL2, hasAngle, calls[|calls| - 1]) then 1 else 0;
      DrawsIn(opts, isGL2, hasAngle, calls[..|calls| - 1]) + last
  }

  /** The number of buffer uploads in a trace. */
  function UploadsIn(calls: seq<Call>): nat {
    if calls == [] then 0
    else
      var last := if calls[|calls| - 1].BufferData? || calls[|calls| - 1].BufferSubData? then 1 else 0;
      UploadsIn(calls[..|calls| - 1]) + last
  }

  /**
   * Over any trace, `drawCalls` grows by exactly the number of counted draws,
   * `bufferUploads` by the number of uploads whatever the options, instanced
   * draws never outnumber draws, and the counters no wrapper touches
   * (`frameId`, `postPasses`, `custom`) are unchanged.
   */
  lemma {:induction false} RunCounts(opts: WrapOptions, isGL2: bool, hasAngle: bool, s: WrapState, calls: seq<Call>)
    requires s.counters.instancedDrawCalls <= s.counters.drawCalls
    ensures var t := Run(opts, isGL2, hasAngle, s, calls).counters;
      t.drawCalls == s.counters.drawCalls + DrawsIn(opts, isGL2, hasAngle, calls) &&
      t.bufferUploads == s.counters.bufferUploads + UploadsIn(calls) &&
      t.instancedDrawCalls <= t.drawCalls &&
      t.frameId == s.counters.frameId && t.postPasses == s.counters.postPasses &&
      t.custom == s.counters.custom
    decreases |calls|
  {
    if calls != [] {
      RunCounts(opts, isGL2, hasAngle, s, calls[..|calls| - 1]);
    }
  }

  /** With programs tracked, `shaderSwitches` grows exactly when the program differs from the last one. */
  lemma UseProgramSwitch(opts: WrapOptions, isGL2: bool, hasAngle: bool, s: WrapState, prog: Option<Handle>)
    requires opts.trackPrograms
    ensures var t := Step(opts, isGL2, hasAngle, s, UseProgram(prog));
      t.lastProg == prog &&
      t.counters.shaderSwitches == s.counters.shaderSwitches + (if prog == s.lastProg then 0 else 1)
  {
  }

  /** Binding the same program twice in a row counts at most one switch. */
  lemma {:induction false} RepeatedProgramCountsOnce(opts: WrapOptions, isGL2: bool, hasAngle: bool, s: WrapState, prog: Option<Handle>, k: nat)
    requires opts.trackPrograms
    ensures var t := Run(opts, isGL2, hasAngle, s, seq(k + 1, _ => UseProgram(prog)));
      t.lastProg == prog &&
      t.counters.shaderSwitches == s.counters.shaderSwitches + (if prog == s.lastProg then 0 else 1)
    decreases k
  {
    var calls := seq(k + 1, _ => UseProgram(prog));
    if k > 0 {
      assert calls[..|calls| - 1] == seq(k, _ => UseProgram(prog));
      RepeatedProgramCountsOnce(opts, isGL2, hasAngle, s, prog, k - 1);
    } else {
      assert calls[..0] == [];
    }
  }

  /** The session object drawing one hundred 36-vertex TRIANGLES meshes counts 1200 triangles. */
  lemma {:induction false} RepeatedTriangleDraws(opts: WrapOptions, isGL2: bool, hasAngle: bool, s: WrapState, k: nat)
    ensures Run(opts, isGL2, hasAngle, s, seq(k, _ => DrawArrays(TRIANGLES, 0, 36))).counters.triangles ==
      s.counters.triangles + 12 * k
    decreases k
  {
    var calls := seq(k, _ => DrawArrays(TRIANGLES, 0, 36));
    if k > 0 {
      assert calls[..|calls| - 1] == seq(k - 1, _ => DrawArrays(TRIANGLES, 0, 36));
      RepeatedTriangleDraws(opts, isGL2, hasAngle, s, k - 1);
    }
  }

  /**
   * The GL context after `wrapGL`: every call reaches the wrapper for its
   * entry point, which updates the shared counters and then forwards to the
   * original (not modelled).
   */
  class WrappedGL {
    const counters: CounterState
    const opts: WrapOptions
    const isGL2: bool
    const hasAngle: bool
    var lastProg: Option<Handle>

    function State(): WrapState
      reads this, counters
    {
      WrapState(counters.Value(), lastProg)
    }

    /** `wrapGL(gl, counters, opts)`: the last-program cell starts empty. */
    constructor WrapGL(isGL2: bool, hasAngle: bool, counters: CounterState, opts: WrapOptions)
      ensures this.counters == counters && this.opts == opts
      ensures this.isGL2 == isGL2 && this.hasAngle == hasAngle
      ensures lastProg == None
    {
      this.counters := counters;
      this.opts := opts;
      this.isGL2 := isGL2;
      this.hasAngle := hasAngle;
      lastProg := None;
    }

    method DrawArrays(mode: int, first: int, count: int)
      modifies counters
      ensures State() == Step(opts, isGL2, hasAngle, old(State()), Call.DrawArrays(mode, first, count))
    {
      counters.CountDraw(EstimatePrims(mode, count), 1, false);
    }

    method DrawElements(mode: int, count: int, indexType: int, offset: int)
      modifies counters
      ensures State() == Step(opts, isGL2, hasAngle, old(State()), Call.DrawElements(mode, count, indexType, offset))
    {
      counters.CountDraw(EstimatePrims(mode, count), 1, false);
    }

    /** `drawArraysInstanced` (WebGL2) or `drawArraysInstancedANGLE` (WebGL1). */
    method DrawArraysInstanced(mode: int, first: int, count: int, primcount: int)
      modifies counters
      ensures State() == Step(opts, isGL2, hasAngle, old(State()), Call.DrawArraysInstanced(mode, first, count, primcount))
    {
      if InstancingWrapped(opts, isGL2, hasAngle) {
        counters.CountDraw(EstimatePrims(mode, count), primcount, true);
      }
    }

    /** `drawElementsInstanced` (WebGL2) or `drawElementsInstancedANGLE` (WebGL1). */
    method DrawElementsInstanced(mode: int, count: int, indexType: int, offset: int, primcount: int)
      modifies counters
      ensures State() == Step(opts, isGL2, hasAngle, old(State()), Call.DrawElementsInstanced(mode, count, indexType, offset, primcount))
    {
      if InstancingWrapped(opts, isGL2, hasAngle) {
        counters.CountDraw(EstimatePrims(mode, count), primcount, true);
      }
    }

    method BindTexture(target: int, tex: Option<Handle>)
      modifies counters
      ensures State() == Step(opts, isGL2, hasAngle, old(State()), Call.BindTexture(target, tex))
    {
      if opts.trackBinds && tex.Some? {
        counters.textureBinds := counters.textureBinds + 1;
      }
    }

    method UseProgram(prog: Option<Handle>)
      modifies this, counters
      ensures State() == Step(opts, isGL2, hasAngle, old(State()), Call.UseProgram(prog))
    {
      if opts.trackPrograms && prog != lastProg {
        counters.shaderSwitches := counters.shaderSwitches + 1;
        lastProg := prog;
      }
    }

    method BufferData(target: int, usage: int)
      modifies counters
      ensures State() == Step(opts, isGL2, hasAngle, old(State()), Call.BufferData(target, usage))
    {
      counters.bufferUploads := counters.bufferUploads + 1;
    }

    method BufferSubData(target: int, offset: int)
      modifies counters
      ensures State() == Step(opts, isGL2, hasAngle, old(State()), Call.BufferSubData(target, offset))
    {
      counters.bufferUploads := counters.bufferUploads + 1;
    }
  }
}
