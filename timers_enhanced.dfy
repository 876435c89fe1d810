/**
 * Hierarchical GPU timers: nested begin/end sections form a per-frame tree
 * of timer nodes, each with an optional GPU query; polling fills in GPU
 * times, keeps a 60-sample window per label and retires the finished
 * timers. Timer objects are shared between the stack, the active list,
 * the completed list and the tree, so they live in an arena keyed by
 * allocation order and every list holds references into it.
 */
module EnhancedTimers {
  import opened Wrappers
  import Rolling
  import Text

  /** A timer object, by allocation order; it also stands for the timer's unique id. */
  type NodeRef = nat
  /** A GPU query object, by identity. */
  type Query = nat

  datatype TimerType = FrameTimer | DrawTimer | ComputeTimer | ClearTimer | PassTimer | CustomTimer

  datatype DrawCallInfo = DrawCallInfo(
    primitiveMode: string,
    vertexCount: int,
    instanceCount: Option<int>,
    programId: Option<string>,
    shaderName: Option<string>)

  /** A timer's metadata: none, a draw call's info with its index, or a caller's value by identity. */
  datatype Metadata = NoMetadata | DrawMetadata(info: DrawCallInfo, drawCallIndex: nat) | UserMetadata(tag: nat)

  datatype TimerNode = TimerNode(
    name: string,
    kind: TimerType,
    startTime: real,
    endTime: Option<real>,
    gpuTime: Option<real>,
    cpuTime: Option<real>,
    metadata: Metadata,
    children: seq<NodeRef>)

  /** The most samples a label's window keeps. */
  const STATS_WINDOW: nat := 60

  /** The engine's observable state; `deleted` lists the queries handed to `deleteQuery` and `drawCalls` counts the draw functions run. */
  datatype EState = EState(
    hasExt: bool,
    nodes: map<NodeRef, TimerNode>,
    nextRef: NodeRef,
    queries: map<NodeRef, Query>,
    activeTimers: seq<NodeRef>,
    completedTimers: seq<NodeRef>,
    timerStack: seq<NodeRef>,
    frameTimeline: seq<NodeRef>,
    stats: map<string, seq<real>>,
    drawCallIndex: nat,
    enabled: bool,
    deleted: seq<Query>,
    drawCalls: nat)

  predicate Below(refs: seq<NodeRef>, n: nat) {
    forall i :: 0 <= i < |refs| ==> refs[i] < n
  }

  /** Every label's window holds between 1 and 60 samples. */
  predicate WindowsOk(stats: map<string, seq<real>>) {
    forall l :: l in stats ==> 1 <= |stats[l]| <= STATS_WINDOW
  }

  /** The arena's child links point forward and stay below `hi`. */
  predicate Forward(nodes: map<NodeRef, TimerNode>, hi: nat) {
    forall r, i :: r in nodes && 0 <= i < |nodes[r].children| ==> r < nodes[r].children[i] < hi
  }

  /** The arena is exactly the refs below `nextRef`, and a child is allocated after its parent. */
  ghost predicate Arena(nodes: map<NodeRef, TimerNode>, nextRef: NodeRef) {
    (forall r: NodeRef :: r in nodes <==> r < nextRef) && Forward(nodes, nextRef)
  }

  predicate KeysBelow(queries: map<NodeRef, Query>, n: nat) {
    forall r :: r in queries ==> r < n
  }

  /**
   * The arena is well formed; every list and query key refers into it; the
   * engine is enabled only with the extension; windows are bounded.
   */
  ghost predicate Inv(s: EState) {
    Arena(s.nodes, s.nextRef) && KeysBelow(s.queries, s.nextRef) &&
    Below(s.timerStack, s.nextRef) && Below(s.activeTimers, s.nextRef) &&
    Below(s.completedTimers, s.nextRef) && Below(s.frameTimeline, s.nextRef) &&
    (s.enabled ==> s.hasExt) && WindowsOk(s.stats)
  }

  /** The constructor: enabled exactly when the extension was found. */
  function Initial(hasExt: bool): (s: EState)
    ensures Inv(s) && s.enabled == hasExt
    ensures s.nodes == map[] && s.activeTimers == [] && s.frameTimeline == [] && s.stats == map[]
  {
    var none: map<NodeRef, TimerNode> := map[];
    assert Arena(none, 0);
    EState(hasExt, none, 0, map[], [], [], [], [], map[], 0, hasExt, [], 0)
  }

  // ---------------------------------------------------------------------------
  // begin / end
  // ---------------------------------------------------------------------------

  /** Append `r` to the children of `parent`. */
  function AddChild(nodes: map<NodeRef, TimerNode>, parent: NodeRef, r: NodeRef): map<NodeRef, TimerNode> {
    if parent in nodes then nodes[parent := nodes[parent].(children := nodes[parent].children + [r])] else nodes
  }

  /**
   * `begin(label, type, metadata)` at time `now`; `created` is what query
   * creation returned. The new timer becomes the last child of the stack top,
   * or the last root of the frame timeline, and is pushed on the stack and
   * the active list.
   */
  function BeginSpec(s: EState, name: string, kind: TimerType, meta: Metadata, now: real, created: Option<Query>): EState {
    if !s.enabled then s
    else
      var r := s.nextRef;
      var nested := |s.timerStack| > 0;
      var nodes := s.nodes[r := TimerNode(name, kind, now, None, None, None, meta, [])];
      s.(nodes := if nested then AddChild(nodes, s.timerStack[|s.timerStack| - 1], r) else nodes,
         nextRef := r + 1,
         queries := if s.hasExt && created.Some? then s.queries[r := created.value] else s.queries,
         timerStack := s.timerStack + [r],
         activeTimers := s.activeTimers + [r],
         frameTimeline := if nested then s.frameTimeline else s.frameTimeline + [r])
  }

  /** `end()` at time `now`: pop the stack top and stamp its end time and CPU time. */
  function EndSpec(s: EState, now: real): EState {
    if !s.enabled || s.timerStack == [] then s
    else
      var r := s.timerStack[|s.timerStack| - 1];
      var popped := s.(timerStack := s.timerStack[..|s.timerStack| - 1]);
      if r in s.nodes then
        popped.(nodes := s.nodes[r := s.nodes[r].(endTime := Some(now), cpuTime := Some(now - s.nodes[r].startTime))])
      else popped
  }

  /** The steps of `begin` on a state value. */
  method BeginStep(s: EState, name: string, kind: TimerType, meta: Metadata, now: real, created: Option<Query>)
    returns (t: EState)
    ensures t == BeginSpec(s, name, kind, meta, now, created)
  {
    if !s.enabled {
      return s;
    }
    var r := s.nextRef;
    var nodes := s.nodes[r := TimerNode(name, kind, now, None, None, None, meta, [])];
    var queries, timeline := s.queries, s.frameTimeline;
    if s.hasExt && created.Some? {
      queries := queries[r := created.value];
    }
    if |s.timerStack| > 0 {
      nodes := AddChild(nodes, s.timerStack[|s.timerStack| - 1], r);
    } else {
      timeline := timeline + [r];
    }
    t := s.(nodes := nodes, nextRef := r + 1, queries := queries, frameTimeline := timeline,
            timerStack := s.timerStack + [r], activeTimers := s.activeTimers + [r]);
  }

  /** The label `Draw_<index>_<primitiveMode>`. */
  function DrawLabel(index: nat, mode: string): string {
    "Draw_" + Text.NatToString(index) + "_" + mode
  }

  /**
   * `timeDrawCall(drawCallFn, info)`: the draw function always runs once;
   * when enabled it is bracketed by a 'draw' timer (begun at `t0`, ended at
   * `t1`) and the draw-call index advances. The run is counted after `end`,
   * which does not look at the counter (`EndIgnoresDrawCalls`).
   */
  function TimeDrawCallSpec(s: EState, info: DrawCallInfo, t0: real, created: Option<Query>, t1: real): EState {
    if !s.enabled then s.(drawCalls := s.drawCalls + 1)
    else EndSpec(DrawBegun(s, info, t0, created), t1).(drawCalls := s.drawCalls + 1)
  }

  /** The state after `timeDrawCall` has advanced the index and begun the 'draw' timer. */
  function DrawBegun(s: EState, info: DrawCallInfo, t0: real, created: Option<Query>): EState {
    var index := s.drawCallIndex;
    BeginSpec(s.(drawCallIndex := index + 1), DrawLabel(index, info.primitiveMode),
              DrawTimer, DrawMetadata(info, index), t0, created)
  }

  function ResetFrameSpec(s: EState): EState {
    s.(frameTimeline := [], drawCallIndex := 0)
  }

  function SetEnabledSpec(s: EState, enabled: bool): EState {
    s.(enabled := enabled && s.hasExt)
  }

  // ---------------------------------------------------------------------------
  // poll
  // ---------------------------------------------------------------------------

  function NsToMs(ns: nat): (ms: real)
    ensures 0.0 <= ms
  {
    ns as real / 1000000.0
  }

  /** `updateStats(label, time)`: push onto the label's window (created empty) and drop the oldest beyond 60. */
  function UpdateStats(stats: map<string, seq<real>>, name: string, time: real): map<string, seq<real>> {
    stats[name := Rolling.Push(if name in stats then stats[name] else [], time, STATS_WINDOW)]
  }

  /** What the poll loop updates: the arena, the queries, the windows, the deletion log and the timers completed so far. */
  datatype Scan = Scan(
    nodes: map<NodeRef, TimerNode>,
    queries: map<NodeRef, Query>,
    stats: map<string, seq<real>>,
    deleted: seq<Query>,
    completed: seq<NodeRef>)

  /**
   * One iteration of the poll loop: a timer without a query is skipped; one
   * whose result is available gets its GPU time, is recorded under its
   * label, has its query deleted and joins `completed`.
   */
  function PollStep(sc: Scan, r: NodeRef, available: Query -> bool, ns: Query -> nat): Scan {
    if r in sc.queries && r in sc.nodes && available(sc.queries[r]) then
      var ms := NsToMs(ns(sc.queries[r]));
      Scan(sc.nodes[r := sc.nodes[r].(gpuTime := Some(ms))],
           sc.queries - {r},
           UpdateStats(sc.stats, sc.nodes[r].name, ms),
           sc.deleted + [sc.queries[r]],
           sc.completed + [r])
    else sc
  }

  function PollFold(sc: Scan, refs: seq<NodeRef>, available: Query -> bool, ns: Query -> nat): Scan {
    if refs == [] then sc
    else PollStep(PollFold(sc, refs[..|refs| - 1], available, ns), refs[|refs| - 1], available, ns)
  }

  /** `list.filter(t => !completed.includes(t))`. */
  function Without(list: seq<NodeRef>, completed: seq<NodeRef>): (r: seq<NodeRef>)
    ensures forall x :: x in r <==> x in list && x !in completed
    ensures |r| <= |list|
  {
    if list == [] then []
    else (if list[0] in completed then [] else [list[0]]) + Without(list[1..], completed)
  }

  /** `poll()`: the loop over the active timers, then the filter and the append to the completed list. */
  function PollSpec(s: EState, available: Query -> bool, ns: Query -> nat): EState {
    if !s.enabled || !s.hasExt then s
    else
      PollApply(s, PollFold(Scan(s.nodes, s.queries, s.stats, s.deleted, []), s.activeTimers, available, ns))
  }

  /** After the loop: retire the completed timers from the active list and append them to the completed list. */
  function PollApply(s: EState, sc: Scan): EState {
    s.(nodes := sc.nodes, queries := sc.queries, stats := sc.stats, deleted := sc.deleted,
       activeTimers := Without(s.activeTimers, sc.completed),
       completedTimers := s.completedTimers + sc.completed)
  }

  /** Two arenas with the same nodes, except possibly for their GPU times. */
  ghost predicate OnlyGpuChanged(a: map<NodeRef, TimerNode>, b: map<NodeRef, TimerNode>) {
    b.Keys == a.Keys && forall r :: r in a ==> b[r] == a[r].(gpuTime := b[r].gpuTime)
  }

  lemma OnlyGpuTrans(a: map<NodeRef, TimerNode>, b: map<NodeRef, TimerNode>, c: map<NodeRef, TimerNode>)
    requires OnlyGpuChanged(a, b) && OnlyGpuChanged(b, c)
    ensures OnlyGpuChanged(a, c)
  {
    forall r | r in a ensures c[r] == a[r].(gpuTime := c[r].gpuTime) {
      assert b[r] == a[r].(gpuTime := b[r].gpuTime);
    }
  }

  /** The poll loop changes nodes only in their GPU times. */
  lemma {:induction false} PollFoldNodes(sc: Scan, refs: seq<NodeRef>, available: Query -> bool, ns: Query -> nat)
    ensures OnlyGpuChanged(sc.nodes, PollFold(sc, refs, available, ns).nodes)
    decreases |refs|
  {
    if refs != [] {
      var mid := PollFold(sc, refs[..|refs| - 1], available, ns);
      PollFoldNodes(sc, refs[..|refs| - 1], available, ns);
      var sc' := PollStep(mid, refs[|refs| - 1], available, ns);
      assert OnlyGpuChanged(mid.nodes, sc'.nodes);
      OnlyGpuTrans(sc.nodes, mid.nodes, sc'.nodes);
    }
  }

  /** The poll loop keeps every window between 1 and 60 samples. */
  lemma {:induction false} PollFoldWindows(sc: Scan, refs: seq<NodeRef>, available: Query -> bool, ns: Query -> nat)
    requires WindowsOk(sc.stats)
    ensures WindowsOk(PollFold(sc, refs, available, ns).stats)
    decreases |refs|
  {
    if refs != [] {
      var mid := PollFold(sc, refs[..|refs| - 1], available, ns);
      PollFoldWindows(sc, refs[..|refs| - 1], available, ns);
      var r := refs[|refs| - 1];
      if r in mid.queries && r in mid.nodes && available(mid.queries[r]) {
        var l := mid.nodes[r].name;
        var w := if l in mid.stats then mid.stats[l] else [];
        assert |w| <= STATS_WINDOW;
      }
    }
  }

  /** A label's window, empty when the label has none yet. */
  function Window(stats: map<string, seq<real>>, l: string): seq<real> {
    if l in stats then stats[l] else []
  }

  /** The GPU times of the timers in `xs` labelled `l`, in order. */
  function LabelTimes(nodes: map<NodeRef, TimerNode>, xs: seq<NodeRef>, l: string): seq<real> {
    if xs == [] then []
    else
      var x := xs[|xs| - 1];
      LabelTimes(nodes, xs[..|xs| - 1], l) + (if x in nodes && nodes[x].name == l then [nodes[x].gpuTime.GetOr(0.0)] else [])
  }

  lemma {:induction false} LabelTimesUpdate(nodes: map<NodeRef, TimerNode>, xs: seq<NodeRef>, r: NodeRef, n: TimerNode, l: string)
    requires r !in xs
    ensures LabelTimes(nodes[r := n], xs, l) == LabelTimes(nodes, xs, l)
    decreases |xs|
  {
    if xs != [] {
      LabelTimesUpdate(nodes, xs[..|xs| - 1], r, n, l);
    }
  }

  /**
   * The poll loop appends the GPU time of every timer it completes to its
   * label's window, in completion order, keeping the newest 60: each
   * window afterwards is the newest 60 of the old window followed by the
   * times of the newly completed timers with that label. The newly
   * completed timers hold no query any more.
   */
  lemma {:induction false} PollFoldStats(sc: Scan, refs: seq<NodeRef>, available: Query -> bool, ns: Query -> nat)
    requires WindowsOk(sc.stats)
    ensures var sc' := PollFold(sc, refs, available, ns);
      |sc.completed| <= |sc'.completed| &&
      (forall x :: x in sc'.completed[|sc.completed|..] ==> x !in sc'.queries) &&
      forall l :: Window(sc'.stats, l) ==
        Rolling.Newest(Window(sc.stats, l) + LabelTimes(sc'.nodes, sc'.completed[|sc.completed|..], l), STATS_WINDOW)
    decreases |refs|
  {
    var k := |sc.completed|;
    if refs == [] {
      assert sc.completed[k..] == [];
      forall l ensures Window(sc.stats, l) == Rolling.Newest(Window(sc.stats, l) + [], STATS_WINDOW) {
        assert Window(sc.stats, l) + [] == Window(sc.stats, l);
      }
    } else {
      var init, r := refs[..|refs| - 1], refs[|refs| - 1];
      var mid := PollFold(sc, init, available, ns);
      PollFoldStats(sc, init, available, ns);
      PollFoldWindows(sc, init, available, ns);
      var sc' := PollStep(mid, r, available, ns);
      assert sc' == PollFold(sc, refs, available, ns);
      if r in mid.queries && r in mid.nodes && available(mid.queries[r]) {
        var ms, name := NsToMs(ns(mid.queries[r])), mid.nodes[r].name;
        var ys := mid.completed[k..];
        assert sc'.completed[k..] == ys + [r];
        forall l ensures Window(sc'.stats, l) ==
          Rolling.Newest(Window(sc.stats, l) + LabelTimes(sc'.nodes, ys + [r], l), STATS_WINDOW)
        {
          WindowStep(sc.stats, mid.stats, mid.nodes, ys, r, ms, l);
        }
      }
    }
  }

  /**
   * `poll()` feeds `updateStats`: afterwards each label's window is the
   * newest 60 of its old window followed by the GPU times of the timers
   * this poll completed with that label, in completion order.
   */
  lemma PollStats(s: EState, available: Query -> bool, ns: Query -> nat)
    requires Inv(s)
    ensures var s' := PollSpec(s, available, ns);
      |s.completedTimers| <= |s'.completedTimers| &&
      forall l :: Window(s'.stats, l) ==
        Rolling.Newest(Window(s.stats, l) + LabelTimes(s'.nodes, s'.completedTimers[|s.completedTimers|..], l), STATS_WINDOW)
  {
    var s' := PollSpec(s, available, ns);
    var k := |s.completedTimers|;
    if !s.enabled || !s.hasExt {
      assert s'.completedTimers[k..] == [];
      forall l ensures Window(s.stats, l) == Rolling.Newest(Window(s.stats, l) + [], STATS_WINDOW) {
        assert Window(s.stats, l) + [] == Window(s.stats, l);
      }
    } else {
      var sc0 := Scan(s.nodes, s.queries, s.stats, s.deleted, []);
      PollFoldStats(sc0, s.activeTimers, available, ns);
      var sc := PollFold(sc0, s.activeTimers, available, ns);
      assert s'.completedTimers[k..] == sc.completed == sc.completed[0..];
    }
  }

  /** One completion appends its time to its own label's window and leaves the other windows alone. */
  lemma WindowStep(stats0: map<string, seq<real>>, stats: map<string, seq<real>>, nodes: map<NodeRef, TimerNode>,
                   ys: seq<NodeRef>, r: NodeRef, ms: real, l: string)
    requires WindowsOk(stats) && r in nodes && r !in ys
    requires Window(stats, l) == Rolling.Newest(Window(stats0, l) + LabelTimes(nodes, ys, l), STATS_WINDOW)
    ensures var nodes' := nodes[r := nodes[r].(gpuTime := Some(ms))];
      Window(UpdateStats(stats, nodes[r].name, ms), l) ==
      Rolling.Newest(Window(stats0, l) + LabelTimes(nodes', ys + [r], l), STATS_WINDOW)
  {
    CompletedTimes(nodes, ys, r, ms, l);
    PushWindow(stats, nodes[r].name, ms, l);
    if l == nodes[r].name {
      NewestAppend(Window(stats0, l), LabelTimes(nodes, ys, l), ms);
    } else {
      assert LabelTimes(nodes, ys, l) + [] == LabelTimes(nodes, ys, l);
    }
  }

  lemma NewestAppend(w0: seq<real>, ts: seq<real>, ms: real)
    ensures Rolling.Newest(Rolling.Newest(w0 + ts, STATS_WINDOW) + [ms], STATS_WINDOW) ==
            Rolling.Newest(w0 + (ts + [ms]), STATS_WINDOW)
  {
    Rolling.NewestSnoc(w0 + ts, ms, STATS_WINDOW);
    assert w0 + ts + [ms] == w0 + (ts + [ms]);
  }

  /** `updateStats` pushes onto the named window only. */
  lemma PushWindow(stats: map<string, seq<real>>, name: string, ms: real, l: string)
    requires WindowsOk(stats)
    ensures Window(UpdateStats(stats, name, ms), l) ==
      if l == name then Rolling.Newest(Window(stats, l) + [ms], STATS_WINDOW) else Window(stats, l)
  {
    if l == name {
      assert |Window(stats, l)| <= STATS_WINDOW;
    }
  }

  /** Completing `r` with time `ms` adds `ms` to the times of its own label only. */
  lemma CompletedTimes(nodes: map<NodeRef, TimerNode>, ys: seq<NodeRef>, r: NodeRef, ms: real, l: string)
    requires r in nodes && r !in ys
    ensures var nodes' := nodes[r := nodes[r].(gpuTime := Some(ms))];
      LabelTimes(nodes', ys + [r], l) == LabelTimes(nodes, ys, l) + (if nodes[r].name == l then [ms] else [])
  {
    var nodes' := nodes[r := nodes[r].(gpuTime := Some(ms))];
    LabelTimesSnoc(nodes', ys, r, l);
    LabelTimesUpdate(nodes, ys, r, nodes'[r], l);
  }

  lemma LabelTimesSnoc(nodes: map<NodeRef, TimerNode>, ys: seq<NodeRef>, r: NodeRef, l: string)
    ensures LabelTimes(nodes, ys + [r], l) ==
      LabelTimes(nodes, ys, l) + (if r in nodes && nodes[r].name == l then [nodes[r].gpuTime.GetOr(0.0)] else [])
  {
    assert (ys + [r])[..|ys|] == ys;
  }

  /**
   * Queries only disappear, keeping their values; each one that disappears
   * belongs to a completed timer; earlier completions stay in order.
   */
  ghost predicate QueriesShrink(sc: Scan, sc': Scan) {
    (forall r :: r in sc'.queries ==> r in sc.queries && sc'.queries[r] == sc.queries[r]) &&
    (forall r :: r in sc.queries && r !in sc'.queries ==> r in sc'.completed) &&
    |sc.completed| <= |sc'.completed| && sc'.completed[..|sc.completed|] == sc.completed
  }

  lemma QueriesShrinkTrans(a: Scan, b: Scan, c: Scan)
    requires QueriesShrink(a, b) && QueriesShrink(b, c)
    ensures QueriesShrink(a, c)
  {
    assert c.completed[..|a.completed|] == c.completed[..|b.completed|][..|a.completed|];
  }

  lemma {:induction false} PollFoldQueries(sc: Scan, refs: seq<NodeRef>, available: Query -> bool, ns: Query -> nat)
    ensures QueriesShrink(sc, PollFold(sc, refs, available, ns))
    decreases |refs|
  {
    if refs != [] {
      var mid := PollFold(sc, refs[..|refs| - 1], available, ns);
      PollFoldQueries(sc, refs[..|refs| - 1], available, ns);
      var sc' := PollStep(mid, refs[|refs| - 1], available, ns);
      assert sc'.completed[..|mid.completed|] == mid.completed;
      QueriesShrinkTrans(sc, mid, sc');
    }
  }

  /**
   * A timer joins `completed` exactly when it was scanned and its query was
   * available; it then has no query left and carries that query's GPU time.
   */
  ghost predicate Completion(sc: Scan, sc': Scan, refs: seq<NodeRef>, available: Query -> bool, ns: Query -> nat) {
    (forall x :: x in sc'.completed && x !in sc.completed ==>
      x in refs && x in sc.queries && x in sc.nodes && available(sc.queries[x]) && x !in sc'.queries &&
      x in sc'.nodes && sc'.nodes[x].gpuTime == Some(NsToMs(ns(sc.queries[x])))) &&
    (forall x :: x in refs && x in sc.queries && x in sc.nodes && available(sc.queries[x]) ==> x !in sc'.queries)
  }

  lemma {:induction false} PollFoldCompletion(sc: Scan, refs: seq<NodeRef>, available: Query -> bool, ns: Query -> nat)
    ensures Completion(sc, PollFold(sc, refs, available, ns), refs, available, ns)
    decreases |refs|
  {
    if refs != [] {
      var init, r := refs[..|refs| - 1], refs[|refs| - 1];
      var mid := PollFold(sc, init, available, ns);
      PollFoldCompletion(sc, init, available, ns);
      PollFoldQueries(sc, init, available, ns);
      PollFoldNodes(sc, init, available, ns);
      assert refs == init + [r];
      CompletionSnoc(sc, mid, init, r, available, ns);
    }
  }

  lemma CompletionSnoc(sc: Scan, mid: Scan, init: seq<NodeRef>, r: NodeRef, available: Query -> bool, ns: Query -> nat)
    requires Completion(sc, mid, init, available, ns) && QueriesShrink(sc, mid) && mid.nodes.Keys == sc.nodes.Keys
    ensures Completion(sc, PollStep(mid, r, available, ns), init + [r], available, ns)
  {
    var sc' := PollStep(mid, r, available, ns);
    var refs := init + [r];
    if r in mid.queries && r in mid.nodes && available(mid.queries[r]) {
      forall x | x in sc'.completed && x !in sc.completed
        ensures x in refs && x in sc.queries && x in sc.nodes && available(sc.queries[x]) && x !in sc'.queries
        ensures x in sc'.nodes && sc'.nodes[x].gpuTime == Some(NsToMs(ns(sc.queries[x])))
      {
        if x != r {
          assert x in mid.completed;
        }
      }
      forall x | x in refs && x in sc.queries && x in sc.nodes && available(sc.queries[x])
        ensures x !in sc'.queries
      {
        if x != r {
          assert x in init;
        }
      }
    } else {
      forall x | x in refs && x in sc.queries && x in sc.nodes && available(sc.queries[x])
        ensures x !in sc'.queries
      {
        if x !in init {
          assert x == r;
        }
      }
    }
  }

  /** The loop of `poll`: `for (const timer of this.activeTimers)`. */
  method PollLoop(sc0: Scan, active: seq<NodeRef>, available: Query -> bool, ns: Query -> nat) returns (sc: Scan)
    ensures sc == PollFold(sc0, active, available, ns)
  {
    sc := sc0;
    for i := 0 to |active|
      invariant sc == PollFold(sc0, active[..i], available, ns)
    {
      assert active[..i + 1][..i] == active[..i];
      var r := active[i];
      if r in sc.queries && r in sc.nodes {
        var q := sc.queries[r];
        if available(q) {
          var ms := NsToMs(ns(q));
          var name := sc.nodes[r].name;
          sc := Scan(sc.nodes[r := sc.nodes[r].(gpuTime := Some(ms))],
                     sc.queries - {r},
                     UpdateStats(sc.stats, name, ms),
                     sc.deleted + [q],
                     sc.completed + [r]);
        }
      }
    }
    assert active[..|active|] == active;
  }

  /** `poll()` on a state value: the early return, the loop, then the filter and the append. */
  method PollRun(s: EState, available: Query -> bool, ns: Query -> nat) returns (t: EState)
    ensures t == PollSpec(s, available, ns)
  {
    if !s.enabled || !s.hasExt {
      return s;
    }
    var sc := PollLoop(Scan(s.nodes, s.queries, s.stats, s.deleted, []), s.activeTimers, available, ns);
    t := s.(nodes := sc.nodes, queries := sc.queries, stats := sc.stats, deleted := sc.deleted,
            activeTimers := Without(s.activeTimers, sc.completed),
            completedTimers := s.completedTimers + sc.completed);
  }

  /**
   * Polling completes exactly the active timers whose query is available
   * (each then carries that query's GPU time and has no query left); every
   * other active timer stays active.
   */
  lemma PollCompletes(s: EState, available: Query -> bool, ns: Query -> nat, r: NodeRef)
    requires Inv(s) && s.enabled && r in s.activeTimers
    ensures var s' := PollSpec(s, available, ns);
      (r in s'.completedTimers[|s.completedTimers|..] <==> r in s.queries && available(s.queries[r])) &&
      (r in s.queries && available(s.queries[r]) ==>
         r !in s'.queries && r !in s'.activeTimers && r in s'.nodes && s'.nodes[r].gpuTime == Some(NsToMs(ns(s.queries[r])))) &&
      (!(r in s.queries && available(s.queries[r])) ==> r in s'.activeTimers)
  {
    var sc0 := Scan(s.nodes, s.queries, s.stats, s.deleted, []);
    var sc := PollFold(sc0, s.activeTimers, available, ns);
    PollFoldCompletion(sc0, s.activeTimers, available, ns);
    PollFoldQueries(sc0, s.activeTimers, available, ns);
    var s' := PollSpec(s, available, ns);
    assert s'.completedTimers[|s.completedTimers|..] == sc.completed;
    assert r in s.nodes by { var i :| 0 <= i < |s.activeTimers| && s.activeTimers[i] == r; }
  }

  // ---------------------------------------------------------------------------
  // getStats
  // ---------------------------------------------------------------------------

  datatype TimerStats = TimerStats(average: real, min: real, max: real, last: real, samples: nat)

  /** `getStats(label)`: null for a label without samples. */
  function GetStatsSpec(stats: map<string, seq<real>>, name: string): Option<TimerStats> {
    if name !in stats || |stats[name]| == 0 then None
    else
      var w := stats[name];
      var sorted := Rolling.SortAscending(w);
      Some(TimerStats(Rolling.Sum(w) / |w| as real, sorted[0], sorted[|w| - 1], w[|w| - 1], |w|))
  }

  /**
   * A label with samples reports min <= average <= max, with min and max
   * taken from the window and bounding every sample, last the newest sample
   * and samples the window length; a label without samples reports null.
   */
  lemma GetStatsBounds(stats: map<string, seq<real>>, name: string)
    ensures GetStatsSpec(stats, name).None? <==> name !in stats || stats[name] == []
    ensures GetStatsSpec(stats, name).Some? ==>
      var st, w := GetStatsSpec(stats, name).value, stats[name];
      st.min <= st.average <= st.max && st.min in w && st.max in w &&
      (forall i :: 0 <= i < |w| ==> st.min <= w[i] <= st.max) &&
      st.last == w[|w| - 1] && st.samples == |w|
  {
    if name in stats && |stats[name]| > 0 {
      var w := stats[name];
      WindowBounds(w, Rolling.SortAscending(w));
    }
  }

  /** The ends of an ascending permutation of a window bound its samples and their mean. */
  lemma WindowBounds(w: seq<real>, sorted: seq<real>)
    requires |w| >= 1 && |sorted| == |w| && multiset(sorted) == multiset(w)
    requires forall i, j :: 0 <= i < j < |sorted| ==> sorted[i] <= sorted[j]
    ensures sorted[0] <= Rolling.Sum(w) / |w| as real <= sorted[|w| - 1]
    ensures sorted[0] in w && sorted[|w| - 1] in w
    ensures forall i :: 0 <= i < |w| ==> sorted[0] <= w[i] <= sorted[|w| - 1]
  {
    assert Rolling.SortedBy(sorted, Rolling.Identity);
    Rolling.PermutedExtremes(w, sorted, Rolling.Identity);
    Rolling.MeanBounds(w, sorted[0], sorted[|w| - 1]);
  }

  /** `getAllStats`: the statistics of every label whose window has samples. */
  function AllStats(stats: map<string, seq<real>>): (r: map<string, TimerStats>)
    ensures forall l :: l in r <==> GetStatsSpec(stats, l).Some?
    ensures forall l :: l in r ==> GetStatsSpec(stats, l) == Some(r[l])
  {
    map l | l in stats && |stats[l]| > 0 :: GetStatsSpec(stats, l).value
  }

  /** The `for (const [label, samples] of this.stats)` loop, keeping labels with samples. */
  method AllStatsLoop(windows: map<string, seq<real>>) returns (r: map<string, TimerStats>)
    ensures r == AllStats(windows)
  {
    r := map[];
    var todo := windows.Keys;
    while todo != {}
      invariant todo <= windows.Keys
      invariant forall l :: l in r <==> l in windows && l !in todo && GetStatsSpec(windows, l).Some?
      invariant forall l :: l in r ==> GetStatsSpec(windows, l) == Some(r[l])
      decreases todo
    {
      var l :| l in todo;
      var st := GetStatsSpec(windows, l);
      if st.Some? {
        r := r[l := st.value];
      }
      todo := todo - {l};
    }
  }

  /** Under the invariant every window is non-empty, so every label with a window is reported. */
  lemma AllStatsCoversLabels(s: EState)
    requires Inv(s)
    ensures AllStats(s.stats).Keys == s.stats.Keys
  {
    forall l | l in s.stats ensures l in AllStats(s.stats) {
      assert 1 <= |s.stats[l]|;
    }
  }

  // ---------------------------------------------------------------------------
  // getBottlenecks
  // ---------------------------------------------------------------------------


  /** The `collectTimers` walk: pre-order, keeping the timers that have a GPU time. */
  function Collect(nodes: map<NodeRef, TimerNode>, refs: seq<NodeRef>, lo: nat, hi: nat): seq<NodeRef>
    requires Forward(nodes, hi)
    requires forall i :: 0 <= i < |refs| ==> lo <= refs[i] < hi
    decreases hi - lo, |refs|
  {
    if refs == [] then []
    else
      var r := refs[0];
      var self := if r in nodes && nodes[r].gpuTime.Some? then [r] else [];
      var below := if r in nodes then Collect(nodes, nodes[r].children, r + 1, hi) else [];
      self + below + Collect(nodes, refs[1..], lo, hi)
  }

  /** Every ref in `xs` is a node with a GPU time. */
  predicate AllTimed(nodes: map<NodeRef, TimerNode>, xs: seq<NodeRef>) {
    forall x :: x in xs ==> x in nodes && nodes[x].gpuTime.Some?
  }

  /** Every collected timer is a node with a GPU time. */
  lemma {:induction false} CollectTimed(nodes: map<NodeRef, TimerNode>, refs: seq<NodeRef>, lo: nat, hi: nat)
    requires Forward(nodes, hi)
    requires forall i :: 0 <= i < |refs| ==> lo <= refs[i] < hi
    ensures AllTimed(nodes, Collect(nodes, refs, lo, hi))
    decreases hi - lo, |refs|
  {
    if refs != [] {
      var r := refs[0];
      var self := if r in nodes && nodes[r].gpuTime.Some? then [r] else [];
      var below := if r in nodes then Collect(nodes, nodes[r].children, r + 1, hi) else [];
      var rest := Collect(nodes, refs[1..], lo, hi);
      if r in nodes {
        CollectTimed(nodes, nodes[r].children, r + 1, hi);
      }
      CollectTimed(nodes, refs[1..], lo, hi);
      AllTimedConcat(nodes, self, below, rest);
      assert Collect(nodes, refs, lo, hi) == self + below + rest;
    }
  }

  lemma AllTimedConcat(nodes: map<NodeRef, TimerNode>, a: seq<NodeRef>, b: seq<NodeRef>, c: seq<NodeRef>)
    requires AllTimed(nodes, a) && AllTimed(nodes, b) && AllTimed(nodes, c)
    ensures AllTimed(nodes, a + b + c)
  {
    forall x | x in a + b + c ensures x in nodes && nodes[x].gpuTime.Some? {
      if x !in a && x !in b {
        assert x in c;
      }
    }
  }

  /** Every listed timer that has a GPU time is collected. */
  lemma {:induction false} CollectRoots(nodes: map<NodeRef, TimerNode>, refs: seq<NodeRef>, lo: nat, hi: nat)
    requires Forward(nodes, hi)
    requires forall i :: 0 <= i < |refs| ==> lo <= refs[i] < hi
    ensures forall x :: x in refs && x in nodes && nodes[x].gpuTime.Some? ==> x in Collect(nodes, refs, lo, hi)
    decreases |refs|
  {
    if refs != [] {
      CollectRoots(nodes, refs[1..], lo, hi);
    }
  }

  datatype Bottleneck = Bottleneck(name: string, time: real, kind: TimerType)

  function ToBottleneck(n: TimerNode): Bottleneck {
    Bottleneck(n.name, n.gpuTime.GetOr(0.0), n.kind)
  }

  function ToBottlenecks(nodes: map<NodeRef, TimerNode>, refs: seq<NodeRef>): (r: seq<Bottleneck>)
    requires forall i :: 0 <= i < |refs| ==> refs[i] in nodes
    ensures |r| == |refs| && forall i :: 0 <= i < |refs| ==> r[i] == ToBottleneck(nodes[refs[i]])
  {
    if refs == [] then [] else [ToBottleneck(nodes[refs[0]])] + ToBottlenecks(nodes, refs[1..])
  }

  function NegTime(b: Bottleneck): real {
    -b.time
  }

  /** The end index `Array.prototype.slice(0, n)` uses on a list of length `len`. */
  function SliceEnd(len: nat, n: int): (e: nat)
    ensures e <= len
    ensures n >= 0 ==> e == if n <= len then n else len
    ensures n < 0 ==> e == if len + n >= 0 then len + n else 0
  {
    if n >= 0 then (if n <= len then n else len)
    else if len + n >= 0 then len + n else 0
  }

  /** The label, time and type of every collected timer, in collection order. */
  function Candidates(s: EState): (c: seq<Bottleneck>)
    requires Inv(s)
    ensures var refs := Collect(s.nodes, s.frameTimeline, 0, s.nextRef);
      |c| == |refs| && forall i :: 0 <= i < |refs| ==> refs[i] in s.nodes && c[i] == ToBottleneck(s.nodes[refs[i]])
  {
    var refs := Collect(s.nodes, s.frameTimeline, 0, s.nextRef);
    CollectTimed(s.nodes, s.frameTimeline, 0, s.nextRef);
    ToBottlenecks(s.nodes, refs)
  }

  /** `getBottlenecks(topN)`: the collected timers, by decreasing GPU time (stable), the first `topN` of them. */
  function Bottlenecks(s: EState, topN: int): seq<Bottleneck>
    requires Inv(s)
  {
    var sorted := Rolling.SortBy(Candidates(s), NegTime);
    sorted[..SliceEnd(|sorted|, topN)]
  }

  /**
   * The entries are the most expensive collected timers: they are taken
   * from the candidates (each at most as often as it occurs), and every
   * candidate left out takes no longer than any entry kept.
   */
  lemma BottlenecksTop(s: EState, topN: int)
    requires Inv(s)
    ensures var r, c := Bottlenecks(s, topN), Candidates(s);
      multiset(r) <= multiset(c) &&
      forall b, i :: b in multiset(c) - multiset(r) && 0 <= i < |r| ==> b.time <= r[i].time
  {
    var c := Candidates(s);
    var sorted := Rolling.SortBy(c, NegTime);
    var e := SliceEnd(|sorted|, topN);
    Rolling.TopSlice(c, sorted, NegTime, e);
    var r := sorted[..e];
    forall b: Bottleneck, i | b in multiset(c) - multiset(r) && 0 <= i < |r| ensures b.time <= r[i].time {
      assert NegTime(sorted[i]) <= NegTime(b);
    }
  }

  /**
   * The sort is stable: entries of equal time appear in the order their
   * timers were collected, and no earlier-collected timer of that time is
   * skipped for a later one.
   */
  lemma BottlenecksStable(s: EState, topN: int)
    requires Inv(s)
    ensures var r, c := Bottlenecks(s, topN), Candidates(s);
      forall v :: Rolling.KeyRun(r, NegTime, v) <= Rolling.KeyRun(c, NegTime, v)
  {
    var c := Candidates(s);
    var e := SliceEnd(|Rolling.SortBy(c, NegTime)|, topN);
    forall v ensures Rolling.KeyRun(Rolling.SortBy(c, NegTime)[..e], NegTime, v) <= Rolling.KeyRun(c, NegTime, v) {
      Rolling.SortedPrefixStable(c, NegTime, e, v);
    }
  }

  /**
   * At most `topN` entries (all of them when there are fewer), in
   * non-increasing time order, each one a collected timer's label, time and
   * type; they are the most expensive candidates, taken without
   * duplication, and equal times keep the collection order.
   */
  lemma BottlenecksProps(s: EState, topN: int)
    requires Inv(s)
    ensures var r := Bottlenecks(s, topN);
      var collected := Collect(s.nodes, s.frameTimeline, 0, s.nextRef);
      |r| == SliceEnd(|collected|, topN) &&
      (forall i, j :: 0 <= i < j < |r| ==> r[i].time >= r[j].time) &&
      (forall b :: b in r ==> exists x :: x in collected && x in s.nodes && s.nodes[x].gpuTime.Some? &&
                                      b == ToBottleneck(s.nodes[x]))
    ensures var r, c := Bottlenecks(s, topN), Candidates(s);
      multiset(r) <= multiset(c) &&
      (forall b, i :: b in multiset(c) - multiset(r) && 0 <= i < |r| ==> b.time <= r[i].time) &&
      (forall v :: Rolling.KeyRun(r, NegTime, v) <= Rolling.KeyRun(c, NegTime, v))
  {
    BottlenecksOrdered(s, topN);
    BottlenecksTop(s, topN);
    BottlenecksStable(s, topN);
  }

  /** Size, order and origin of the entries. */
  lemma BottlenecksOrdered(s: EState, topN: int)
    requires Inv(s)
    ensures var r := Bottlenecks(s, topN);
      var collected := Collect(s.nodes, s.frameTimeline, 0, s.nextRef);
      |r| == SliceEnd(|collected|, topN) &&
      (forall i, j :: 0 <= i < j < |r| ==> r[i].time >= r[j].time) &&
      (forall b :: b in r ==> exists x :: x in collected && x in s.nodes && s.nodes[x].gpuTime.Some? &&
                                      b == ToBottleneck(s.nodes[x]))
  {
    var bs := Candidates(s);
    SortedSlice(bs, SliceEnd(|bs|, topN));
    CandidatesOrigin(s);
  }

  /** A prefix of the sort by decreasing time is in decreasing time and drawn from the input. */
  lemma SortedSlice(bs: seq<Bottleneck>, e: nat)
    requires e <= |bs|
    ensures var sorted := Rolling.SortBy(bs, NegTime);
      |sorted| == |bs| &&
      (forall i, j :: 0 <= i < j < e ==> sorted[i].time >= sorted[j].time) &&
      forall b :: b in sorted[..e] ==> b in bs
  {
    var sorted := Rolling.SortBy(bs, NegTime);
    assert |sorted| == |bs| by { assert |multiset(sorted)| == |multiset(bs)|; }
    forall i, j | 0 <= i < j < e ensures sorted[i].time >= sorted[j].time {
      assert NegTime(sorted[i]) <= NegTime(sorted[j]);
    }
    forall b | b in sorted[..e] ensures b in bs {
      assert b in multiset(sorted);
    }
  }

  /** Every candidate is the label, time and type of a collected timer with a GPU time. */
  lemma CandidatesOrigin(s: EState)
    requires Inv(s)
    ensures var collected := Collect(s.nodes, s.frameTimeline, 0, s.nextRef);
      forall b :: b in Candidates(s) ==> exists x :: x in collected && x in s.nodes && s.nodes[x].gpuTime.Some? &&
                                                  b == ToBottleneck(s.nodes[x])
  {
    var refs := Collect(s.nodes, s.frameTimeline, 0, s.nextRef);
    var bs := Candidates(s);
    CollectTimed(s.nodes, s.frameTimeline, 0, s.nextRef);
    forall b | b in bs
      ensures exists x :: x in refs && x in s.nodes && s.nodes[x].gpuTime.Some? && b == ToBottleneck(s.nodes[x])
    {
      var k :| 0 <= k < |bs| && bs[k] == b;
      assert refs[k] in refs;
    }
  }

  // ---------------------------------------------------------------------------
  // The invariant across operations
  // ---------------------------------------------------------------------------

  lemma BeginKeepsInv(s: EState, name: string, kind: TimerType, meta: Metadata, now: real, created: Option<Query>)
    requires Inv(s)
    ensures Inv(BeginSpec(s, name, kind, meta, now, created))
  {
    if s.enabled {
      var s' := BeginSpec(s, name, kind, meta, now, created);
      var r := s.nextRef;
      ForwardAddLeaf(s.nodes, r, TimerNode(name, kind, now, None, None, None, meta, []), s.timerStack);
    }
  }

  /** Adding a childless node at `hi`, as a child of the stack top when there is one, keeps child links forward. */
  lemma ForwardAddLeaf(nodes: map<NodeRef, TimerNode>, hi: nat, leaf: TimerNode, stack: seq<NodeRef>)
    requires Forward(nodes, hi) && leaf.children == [] && Below(stack, hi)
    ensures var n := nodes[hi := leaf];
      Forward(if |stack| > 0 then AddChild(n, stack[|stack| - 1], hi) else n, hi + 1)
  {
    var n := nodes[hi := leaf];
    assert Forward(n, hi + 1);
    if |stack| > 0 {
      var p := stack[|stack| - 1];
      var n' := AddChild(n, p, hi);
      forall q, i | q in n' && 0 <= i < |n'[q].children| ensures q < n'[q].children[i] < hi + 1 {
        if q == p && i == |n[p].children| {
          assert n'[q].children[i] == hi;
        } else {
          assert n'[q].children[i] == n[q].children[i];
        }
      }
    }
  }

  /** Changing nodes without changing any child list keeps child links forward. */
  lemma ForwardSameChildren(nodes: map<NodeRef, TimerNode>, nodes': map<NodeRef, TimerNode>, hi: nat)
    requires Forward(nodes, hi)
    requires nodes'.Keys == nodes.Keys && forall r :: r in nodes ==> nodes'[r].children == nodes[r].children
    ensures Forward(nodes', hi)
  {
  }

  lemma EndKeepsInv(s: EState, now: real)
    requires Inv(s)
    ensures Inv(EndSpec(s, now))
  {
    if s.enabled && s.timerStack != [] {
      var s' := EndSpec(s, now);
      ForwardSameChildren(s.nodes, s'.nodes, s.nextRef);
    }
  }

  /** Ending a timer does not look at the draw-function counter. */
  /** `timeDrawCall` when enabled: begin, count the draw, end. */
  lemma TimeDrawCallSteps(s: EState, info: DrawCallInfo, t0: real, created: Option<Query>, t1: real, b: EState)
    requires s.enabled && b == DrawBegun(s, info, t0, created)
    ensures EndSpec(b.(drawCalls := s.drawCalls + 1), t1) == TimeDrawCallSpec(s, info, t0, created, t1)
  {
    EndIgnoresDrawCalls(b, t1, s.drawCalls + 1);
  }

  lemma EndIgnoresDrawCalls(b: EState, now: real, x: nat)
    ensures EndSpec(b.(drawCalls := x), now) == EndSpec(b, now).(drawCalls := x)
  {
    var b' := b.(drawCalls := x);
    if b.enabled && b.timerStack != [] {
      var r := b.timerStack[|b.timerStack| - 1];
      var popped := b.timerStack[..|b.timerStack| - 1];
      if r in b.nodes {
        var n := b.nodes[r := b.nodes[r].(endTime := Some(now), cpuTime := Some(now - b.nodes[r].startTime))];
        assert EndSpec(b', now) == b'.(timerStack := popped, nodes := n);
        assert EndSpec(b, now) == b.(timerStack := popped, nodes := n);
      } else {
        assert EndSpec(b', now) == b'.(timerStack := popped);
        assert EndSpec(b, now) == b.(timerStack := popped);
      }
    }
  }

  lemma TimeDrawCallKeepsInv(s: EState, info: DrawCallInfo, t0: real, created: Option<Query>, t1: real)
    requires Inv(s)
    ensures Inv(TimeDrawCallSpec(s, info, t0, created, t1))
  {
    if s.enabled {
      var index := s.drawCallIndex;
      var s1 := s.(drawCallIndex := index + 1);
      var b := DrawBegun(s, info, t0, created);
      BeginKeepsInv(s1, DrawLabel(index, info.primitiveMode), DrawTimer, DrawMetadata(info, index), t0, created);
      EndKeepsInv(b, t1);
      var e := EndSpec(b, t1);
      assert Inv(e.(drawCalls := s.drawCalls + 1)) by { assert Inv(e); }
    }
  }

  lemma PollKeepsInv(s: EState, available: Query -> bool, ns: Query -> nat)
    requires Inv(s)
    ensures Inv(PollSpec(s, available, ns))
  {
    if s.enabled && s.hasExt {
      var sc0 := Scan(s.nodes, s.queries, s.stats, s.deleted, []);
      var sc := PollFold(sc0, s.activeTimers, available, ns);
      var n := s.nextRef;
      PollFoldNodes(sc0, s.activeTimers, available, ns);
      PollFoldWindows(sc0, s.activeTimers, available, ns);
      PollFoldQueries(sc0, s.activeTimers, available, ns);
      PollFoldCompletion(sc0, s.activeTimers, available, ns);
      assert Arena(sc.nodes, n) by {
        ForwardSameChildren(s.nodes, sc.nodes, n);
      }
      assert KeysBelow(sc.queries, n);
      var active := Without(s.activeTimers, sc.completed);
      assert Below(active, n) by {
        forall i | 0 <= i < |active| ensures active[i] < n {
          assert active[i] in s.activeTimers;
        }
      }
      var completed := s.completedTimers + sc.completed;
      assert Below(completed, n) by {
        forall i | 0 <= i < |completed| ensures completed[i] < n {
          if i >= |s.completedTimers| {
            assert completed[i] in sc.completed;
          }
        }
      }
      assert PollSpec(s, available, ns) == PollApply(s, sc);
    }
  }

  // ---------------------------------------------------------------------------
  // Operation-level properties
  // ---------------------------------------------------------------------------

  /**
   * `end` after `begin` restores the stack; the new timer sits at the end of
   * the frame timeline or of the enclosing timer's children, is still
   * active, and carries CPU time `t1 - t0`. It needs only that the next ref
   * is unused and the stack top is an older node, which `Inv` provides
   * (`ReadyToBegin`).
   */
  lemma BeginThenEnd(s: EState, name: string, kind: TimerType, meta: Metadata, t0: real, created: Option<Query>, t1: real)
    requires s.enabled && s.hasExt && s.nextRef !in s.nodes && s.nextRef !in s.queries
    requires s.timerStack != [] ==> s.timerStack[|s.timerStack| - 1] in s.nodes && s.timerStack[|s.timerStack| - 1] < s.nextRef
    ensures var r := s.nextRef;
      var s' := EndSpec(BeginSpec(s, name, kind, meta, t0, created), t1);
      s'.timerStack == s.timerStack && s'.activeTimers == s.activeTimers + [r] &&
      r in s'.nodes && s'.nodes[r].name == name && s'.nodes[r].kind == kind &&
      s'.nodes[r].startTime == t0 && s'.nodes[r].endTime == Some(t1) && s'.nodes[r].cpuTime == Some(t1 - t0) &&
      (s.timerStack == [] ==> s'.frameTimeline == s.frameTimeline + [r]) &&
      (s.timerStack != [] ==>
        var p := s.timerStack[|s.timerStack| - 1];
        s'.frameTimeline == s.frameTimeline && s'.nodes[p].children == s.nodes[p].children + [r]) &&
      (r in s'.queries <==> created.Some?)
  {
    var b := BeginSpec(s, name, kind, meta, t0, created);
    assert b.timerStack[..|b.timerStack| - 1] == s.timerStack;
  }

  /** An enabled state under the invariant meets what `BeginThenEnd` needs. */
  lemma ReadyToBegin(s: EState)
    requires Inv(s) && s.enabled
    ensures s.hasExt && s.nextRef !in s.nodes && s.nextRef !in s.queries
    ensures s.timerStack != [] ==> s.timerStack[|s.timerStack| - 1] in s.nodes && s.timerStack[|s.timerStack| - 1] < s.nextRef
  {
    if s.timerStack != [] {
      assert s.timerStack[|s.timerStack| - 1] < s.nextRef;
    }
  }

  /** `timeDrawCall` runs the draw function once; when enabled it labels a 'draw' timer with the index and advances it. */
  lemma TimeDrawCallEffect(s: EState, info: DrawCallInfo, t0: real, created: Option<Query>, t1: real)
    requires Inv(s)
    ensures TimeDrawCallSpec(s, info, t0, created, t1).drawCalls == s.drawCalls + 1
    ensures !s.enabled ==> TimeDrawCallSpec(s, info, t0, created, t1) == s.(drawCalls := s.drawCalls + 1)
    ensures s.enabled ==>
      var s' := TimeDrawCallSpec(s, info, t0, created, t1);
      s'.drawCallIndex == s.drawCallIndex + 1 && s'.timerStack == s.timerStack &&
      s.nextRef in s'.nodes && s'.nodes[s.nextRef].name == DrawLabel(s.drawCallIndex, info.primitiveMode) &&
      s'.nodes[s.nextRef].kind == DrawTimer &&
      s'.nodes[s.nextRef].metadata == DrawMetadata(info, s.drawCallIndex)
  {
    if s.enabled {
      var index := s.drawCallIndex;
      var s1 := s.(drawCallIndex := index + 1);
      var name, meta := DrawLabel(index, info.primitiveMode), DrawMetadata(info, index);
      ReadyToBegin(s);
      BeginThenEnd(s1, name, DrawTimer, meta, t0, created, t1);
    }
  }

  /** Different indices give different draw labels. */
  lemma DrawLabelInjective(i: nat, j: nat, mode: string)
    requires DrawLabel(i, mode) == DrawLabel(j, mode)
    ensures i == j
  {
    var a, b := Text.NatToString(i), Text.NatToString(j);
    assert a + ['_'] + mode == ("Draw_" + a + "_" + mode)[5..];
    assert b + ['_'] + mode == ("Draw_" + b + "_" + mode)[5..];
    Text.DecimalRoundTrip(i);
    Text.DecimalRoundTrip(j);
    assert '_' !in a && '_' !in b;
    Text.SplitPrefix(a, mode, '_');
    Text.SplitPrefix(b, mode, '_');
    assert a == Text.Split(a + ['_'] + mode, '_')[0];
    Text.RadixRenderingInjective(i, j, 10);
  }

  // ---------------------------------------------------------------------------
  // The engine
  // ---------------------------------------------------------------------------

  class EnhancedGPUTimers {
    const hasExt: bool
    const isWebGL2: bool
    var nodes: map<NodeRef, TimerNode>
    var nextRef: NodeRef
    var queries: map<NodeRef, Query>
    var activeTimers: seq<NodeRef>
    var completedTimers: seq<NodeRef>
    var timerStack: seq<NodeRef>
    var frameTimeline: seq<NodeRef>
    var stats: map<string, seq<real>>
    var drawCallIndex: nat
    var enabled: bool
    var deleted: seq<Query>
    var drawCalls: nat

    function State(): EState
      reads this
    {
      EState(hasExt, nodes, nextRef, queries, activeTimers, completedTimers, timerStack, frameTimeline,
             stats, drawCallIndex, enabled, deleted, drawCalls)
    }

    ghost predicate Valid()
      reads this
    {
      Inv(State())
    }

    /** `new EnhancedGPUTimers(gl)`: `hasExt` says whether the version's timer extension was found. */
    constructor (isWebGL2: bool, hasExt: bool)
      ensures Valid() && State() == Initial(hasExt) && this.isWebGL2 == isWebGL2
    {
      this.hasExt, this.isWebGL2 := hasExt, isWebGL2;
      nodes, nextRef, queries := map[], 0, map[];
      activeTimers, completedTimers, timerStack, frameTimeline := [], [], [], [];
      stats, drawCallIndex, enabled, deleted, drawCalls := map[], 0, hasExt, [], 0;
    }

    method Begin(name: string, kind: TimerType, meta: Metadata, now: real, created: Option<Query>)
      requires Valid()
      modifies this
      ensures Valid()
      ensures State() == BeginSpec(old(State()), name, kind, meta, now, created)
    {
      var t := BeginStep(State(), name, kind, meta, now, created);
      nodes, nextRef, queries, frameTimeline, timerStack, activeTimers :=
        t.nodes, t.nextRef, t.queries, t.frameTimeline, t.timerStack, t.activeTimers;
      assert State() == t;
      BeginKeepsInv(old(State()), name, kind, meta, now, created);
    }

    method End(now: real)
      requires Valid()
      modifies this
      ensures Valid()
      ensures State() == EndSpec(old(State()), now)
    {
      ghost var s := State();
      if !enabled || timerStack == [] {
        return;
      }
      var r := timerStack[|timerStack| - 1];
      timerStack := timerStack[..|timerStack| - 1];
      if r in nodes {
        nodes := nodes[r := nodes[r].(endTime := Some(now), cpuTime := Some(now - nodes[r].startTime))];
      }
      assert State() == EndSpec(s, now);
      EndKeepsInv(s, now);
    }

    /** `timeDrawCall`; the draw function's only modelled effect is that it runs. */
    method TimeDrawCall(info: DrawCallInfo, t0: real, created: Option<Query>, t1: real)
      requires Valid()
      modifies this
      ensures Valid()
      ensures State() == TimeDrawCallSpec(old(State()), info, t0, created, t1)
    {
      if !enabled {
        drawCalls := drawCalls + 1;
        return;
      }
      ghost var s := State();
      var index := drawCallIndex;
      drawCallIndex := drawCallIndex + 1;
      ghost var s1 := s.(drawCallIndex := index + 1);
      assert State() == s1;
      Begin(DrawLabel(index, info.primitiveMode), DrawTimer, DrawMetadata(info, index), t0, created);
      ghost var b := State();
      assert b == DrawBegun(s, info, t0, created);
      drawCalls := drawCalls + 1;
      ghost var b1 := b.(drawCalls := s.drawCalls + 1);
      assert State() == b1;
      End(t1);
      TimeDrawCallSteps(s, info, t0, created, t1, b);
    }

    method BeginPass(passName: string, meta: Metadata, now: real, created: Option<Query>)
      requires Valid()
      modifies this
      ensures Valid()
      ensures State() == BeginSpec(old(State()), passName, PassTimer, meta, now, created)
    {
      Begin(passName, PassTimer, meta, now, created);
    }

    method EndPass(now: real)
      requires Valid()
      modifies this
      ensures Valid()
      ensures State() == EndSpec(old(State()), now)
    {
      End(now);
    }

    /** `poll()`: `available` and `ns` are each query's availability and result. */
    method Poll(available: Query -> bool, ns: Query -> nat)
      requires Valid()
      modifies this
      ensures Valid()
      ensures State() == PollSpec(old(State()), available, ns)
    {
      var t := PollRun(State(), available, ns);
      nodes, queries, stats, deleted, activeTimers, completedTimers :=
        t.nodes, t.queries, t.stats, t.deleted, t.activeTimers, t.completedTimers;
      assert State() == t;
      PollKeepsInv(old(State()), available, ns);
    }

    method ResetFrame()
      requires Valid()
      modifies this
      ensures Valid()
      ensures State() == ResetFrameSpec(old(State()))
    {
      frameTimeline := [];
      drawCallIndex := 0;
    }

    method SetEnabled(e: bool)
      requires Valid()
      modifies this
      ensures Valid()
      ensures State() == SetEnabledSpec(old(State()), e)
    {
      enabled := e && hasExt;
    }

    method IsSupported() returns (r: bool)
      ensures r == hasExt
    {
      r := hasExt;
    }

    method GetAllStats() returns (r: map<string, TimerStats>)
      requires Valid()
      ensures r == AllStats(stats)
      ensures r.Keys == stats.Keys
    {
      r := AllStatsLoop(stats);
      AllStatsCoversLabels(State());
    }

    method GetStats(name: string) returns (r: Option<TimerStats>)
      ensures r == GetStatsSpec(stats, name)
      ensures r.Some? ==> r.value.min <= r.value.average <= r.value.max && r.value.samples == |stats[name]|
    {
      r := GetStatsSpec(stats, name);
      GetStatsBounds(stats, name);
    }

    method GetBottlenecks(topN: int) returns (r: seq<Bottleneck>)
      requires Valid()
      ensures r == Bottlenecks(State(), topN)
      ensures topN >= 0 ==> |r| <= topN
      ensures forall i, j :: 0 <= i < j < |r| ==> r[i].time >= r[j].time
      ensures multiset(r) <= multiset(Candidates(State()))
      ensures forall b, i :: b in multiset(Candidates(State())) - multiset(r) && 0 <= i < |r| ==> b.time <= r[i].time
      ensures forall v :: Rolling.KeyRun(r, NegTime, v) <= Rolling.KeyRun(Candidates(State()), NegTime, v)
    {
      r := Bottlenecks(State(), topN);
      BottlenecksProps(State(), topN);
    }
  }
}
