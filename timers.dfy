/**
 * The simple GPU timer engine: labelled timer queries move from an active
 * stack (begin/end) to a pending list, and each poll records the results
 * that have become available into per-label aggregates with a bounded
 * sample window.
 */
module Timers {
  import opened Wrappers
  import Rolling

  /** A timer query object, by identity. */
  type Query = nat

  datatype Entry = Entry(name: string, q: Query)

  /** Per-label aggregates: last sample, running sum, count, all-time maximum and the sample window. */
  datatype Timings = Timings(last: Option<real>, sum: real, count: nat, max: real, samples: seq<real>)

  /** The most samples a label's window keeps. */
  const WINDOW: nat := 120

  /** The entry a first sample for a label starts from. */
  function Zero(): Timings {
    Timings(None, 0.0, 0, 0.0, [])
  }

  function MaxReal(a: real, b: real): real {
    if a >= b then a else b
  }

  /** A query result in nanoseconds, as milliseconds. */
  function ToMs(ns: nat): (ms: real)
    ensures 0.0 <= ms
  {
    ns as real / 1000000.0
  }

  /** Recording one sample: last, sum, count and max are updated and the window keeps its newest 120. */
  function Record(t: Timings, ms: real): (r: Timings)
    ensures r.last == Some(ms) && r.count == t.count + 1 && r.sum == t.sum + ms
    ensures t.max <= r.max && ms <= r.max && (r.max == t.max || r.max == ms)
    ensures |t.samples| <= WINDOW ==> r.samples == Rolling.Newest(t.samples + [ms], WINDOW)
  {
    Timings(Some(ms), t.sum + ms, t.count + 1, MaxReal(t.max, ms), Rolling.Push(t.samples, ms, WINDOW))
  }

  /** `map[name] ?? (map[name] = zero)`, then record. */
  function RecordNamed(m: map<string, Timings>, name: string, ms: real): (r: map<string, Timings>)
    ensures r.Keys == m.Keys + {name}
    ensures forall n :: n in m && n != name ==> r[n] == m[n]
  {
    m[name := Record(if name in m then m[name] else Zero(), ms)]
  }

  /** Recording the results of `done`, in order. */
  function RecordAll(m: map<string, Timings>, done: seq<Entry>, ns: Query -> nat): map<string, Timings> {
    if done == [] then m
    else
      var e := done[|done| - 1];
      RecordNamed(RecordAll(m, done[..|done| - 1], ns), e.name, ToMs(ns(e.q)))
  }

  /** The entries whose result is not yet available, in their original order. */
  function Kept(p: seq<Entry>, available: Query -> bool): seq<Entry> {
    if p == [] then []
    else Kept(p[..|p| - 1], available) + (if available(p[|p| - 1].q) then [] else [p[|p| - 1]])
  }

  /** The entries whose result is available, in their original order. */
  function Done(p: seq<Entry>, available: Query -> bool): seq<Entry> {
    if p == [] then []
    else Done(p[..|p| - 1], available) + (if available(p[|p| - 1].q) then [p[|p| - 1]] else [])
  }

  function Queries(es: seq<Entry>): (qs: seq<Query>)
    ensures |qs| == |es| && forall i :: 0 <= i < |es| ==> qs[i] == es[i].q
  {
    if es == [] then [] else Queries(es[..|es| - 1]) + [es[|es| - 1].q]
  }

  /** How many entries carry `name`. */
  function Occurrences(es: seq<Entry>, name: string): nat {
    if es == [] then 0
    else Occurrences(es[..|es| - 1], name) + (if es[|es| - 1].name == name then 1 else 0)
  }

  // ---------------------------------------------------------------------------
  // The engine's state and its operations
  // ---------------------------------------------------------------------------

  /** The engine's observable state; `deleted` lists the queries handed to `deleteQuery`, in order. */
  datatype TimersState = TimersState(
    active: seq<Entry>,
    pending: seq<Entry>,
    timings: map<string, Timings>,
    deleted: seq<Query>)

  /** `supported()`: either timer extension was found. */
  predicate Supported(hasExt1: bool, hasExt2: bool) {
    hasExt1 || hasExt2
  }

  /** The extension object the calls go through exists: the WebGL2 one on WebGL2, the WebGL1 one otherwise. */
  predicate ApiExt(isGL2: bool, hasExt1: bool, hasExt2: bool) {
    if isGL2 then hasExt2 else hasExt1
  }

  /**
   * `begin(name)`; `created` is what query creation returned. When the
   * extension the call goes through is missing the call throws before
   * pushing (on WebGL2 after creating the query), so nothing changes.
   */
  function BeginSpec(s: TimersState, isGL2: bool, hasExt1: bool, hasExt2: bool, name: string, created: Option<Query>): TimersState {
    if !Supported(hasExt1, hasExt2) || !ApiExt(isGL2, hasExt1, hasExt2) || created.None? then s
    else s.(active := s.active + [Entry(name, created.value)])
  }

  /** Whether `begin` throws: a missing extension object is dereferenced. */
  predicate BeginThrows(isGL2: bool, hasExt1: bool, hasExt2: bool, created: Option<Query>) {
    Supported(hasExt1, hasExt2) && !ApiExt(isGL2, hasExt1, hasExt2) && (!isGL2 || created.Some?)
  }

  /**
   * `end()`: the most recent active entry is popped and appended to
   * `pending`; with a missing extension object the pop happens and the
   * call then throws, so the entry is lost.
   */
  function EndSpec(s: TimersState, isGL2: bool, hasExt1: bool, hasExt2: bool): TimersState {
    if !Supported(hasExt1, hasExt2) || s.active == [] then s
    else
      var top := s.active[|s.active| - 1];
      var popped := s.(active := s.active[..|s.active| - 1]);
      if ApiExt(isGL2, hasExt1, hasExt2) then popped.(pending := s.pending + [top]) else popped
  }

  /**
   * `poll()`: a disjoint flag drops every pending entry without deleting its
   * query; otherwise the available entries are deleted, leave `pending` and
   * are recorded in order, and the rest stay pending in order.
   */
  function PollSpec(s: TimersState, isGL2: bool, hasExt1: bool, hasExt2: bool,
                    disjoint: bool, available: Query -> bool, ns: Query -> nat): TimersState {
    if !Supported(hasExt1, hasExt2) || !ApiExt(isGL2, hasExt1, hasExt2) then s
    else if disjoint then s.(pending := [])
    else
      var done := Done(s.pending, available);
      s.(pending := Kept(s.pending, available),
         timings := RecordAll(s.timings, done, ns),
         deleted := s.deleted + Queries(done))
  }

  // ---------------------------------------------------------------------------
  // What the aggregates keep
  // ---------------------------------------------------------------------------

  /**
   * A label's aggregates are consistent: samples are non-negative and at
   * most the maximum, the window holds at most 120 of them and no more than
   * were counted, the sum lies within count times the maximum, and `last`
   * is the newest sample.
   */
  ghost predicate TimingsInv(t: Timings) {
    0.0 <= t.max &&
    |t.samples| <= WINDOW && |t.samples| <= t.count &&
    (forall i :: 0 <= i < |t.samples| ==> 0.0 <= t.samples[i] <= t.max) &&
    0.0 <= t.sum <= Times(t.count, t.max) &&
    (t.count == 0 <==> t.last.None?) &&
    (t.last.Some? ==> |t.samples| >= 1 && t.samples[|t.samples| - 1] == t.last.value)
  }

  ghost predicate AllTimingsInv(m: map<string, Timings>) {
    forall n :: n in m ==> TimingsInv(m[n])
  }

  lemma ZeroInv()
    ensures TimingsInv(Zero())
  {
  }

  /** `n * x`, written as repeated addition. */
  function Times(n: nat, x: real): real {
    if n == 0 then 0.0 else Times(n - 1, x) + x
  }

  lemma {:induction false} TimesMonotone(n: nat, a: real, b: real)
    requires a <= b
    ensures Times(n, a) <= Times(n, b)
  {
    if n > 0 {
      TimesMonotone(n - 1, a, b);
    }
  }

  lemma {:induction false} TimesIsProduct(n: nat, x: real)
    ensures Times(n, x) == n as real * x
  {
    if n > 0 {
      TimesIsProduct(n - 1, x);
      assert n as real * x == (n - 1) as real * x + x;
    }
  }

  /** Recording a non-negative sample keeps a label's aggregates consistent. */
  lemma RecordKeepsInv(t: Timings, ms: real)
    requires TimingsInv(t) && 0.0 <= ms
    ensures TimingsInv(Record(t, ms))
  {
    var r := Record(t, ms);
    TimesMonotone(t.count, t.max, r.max);
    assert Times(r.count, r.max) == Times(t.count, r.max) + r.max;
    WindowStep(t.samples, ms, r.max);
  }

  /** Pushing a sample within [0, max] keeps every windowed sample within [0, max]. */
  lemma WindowStep(w: seq<real>, ms: real, max: real)
    requires |w| <= WINDOW && forall i :: 0 <= i < |w| ==> 0.0 <= w[i] <= max
    requires 0.0 <= ms <= max
    ensures forall i :: 0 <= i < |Rolling.Push(w, ms, WINDOW)| ==> 0.0 <= Rolling.Push(w, ms, WINDOW)[i] <= max
  {
    var v := w + [ms];
    assert forall i :: 0 <= i < |v| ==> 0.0 <= v[i] <= max;
  }

  /** Recording any sequence of completed queries keeps every label consistent. */
  lemma {:induction false} RecordAllKeepsInv(m: map<string, Timings>, done: seq<Entry>, ns: Query -> nat)
    requires AllTimingsInv(m)
    ensures AllTimingsInv(RecordAll(m, done, ns))
    decreases |done|
  {
    if done != [] {
      var e := done[|done| - 1];
      RecordAllKeepsInv(m, done[..|done| - 1], ns);
      RecordNamedKeepsInv(RecordAll(m, done[..|done| - 1], ns), e.name, ToMs(ns(e.q)));
    }
  }

  lemma RecordNamedKeepsInv(m: map<string, Timings>, name: string, ms: real)
    requires AllTimingsInv(m) && 0.0 <= ms
    ensures AllTimingsInv(RecordNamed(m, name, ms))
  {
    var t := if name in m then m[name] else Zero();
    ZeroInv();
    RecordKeepsInv(t, ms);
    InvUpdate(m, name, Record(t, ms));
  }

  lemma InvUpdate(m: map<string, Timings>, name: string, v: Timings)
    requires AllTimingsInv(m) && TimingsInv(v)
    ensures AllTimingsInv(m[name := v])
  {
    var m' := m[name := v];
    forall n | n in m' ensures TimingsInv(m'[n]) {
      if n != name {
        assert m'[n] == m[n];
      }
    }
  }

  /** Each completed query with a label adds exactly one to that label's count. */
  lemma {:induction false} RecordAllCounts(m: map<string, Timings>, done: seq<Entry>, ns: Query -> nat, name: string)
    ensures var m' := RecordAll(m, done, ns);
      (name in m' <==> name in m || Occurrences(done, name) > 0) &&
      (name in m' ==> m'[name].count == (if name in m then m[name].count else 0) + Occurrences(done, name))
    decreases |done|
  {
    if done != [] {
      RecordAllCounts(m, done[..|done| - 1], ns, name);
    }
  }

  /** The milliseconds of the entries of `done` labelled `name`, in order. */
  function LabelMs(done: seq<Entry>, name: string, ns: Query -> nat): seq<real> {
    if done == [] then []
    else
      var e := done[|done| - 1];
      LabelMs(done[..|done| - 1], name, ns) + (if e.name == name then [ToMs(ns(e.q))] else [])
  }

  lemma LabelMsSnoc(done: seq<Entry>, e: Entry, name: string, ns: Query -> nat)
    ensures LabelMs(done + [e], name, ns) == LabelMs(done, name, ns) + (if e.name == name then [ToMs(ns(e.q))] else [])
  {
    assert (done + [e])[..|done|] == done;
  }

  /** The largest of `a` and the values of `xs`: at least each of them, and one of them. */
  predicate IsMaxOf(r: real, a: real, xs: seq<real>) {
    a <= r && (forall i :: 0 <= i < |xs| ==> xs[i] <= r) && (r == a || exists i :: 0 <= i < |xs| && r == xs[i])
  }

  /** `r` is `t` after recording the non-empty samples `xs`, in order. */
  predicate Aggregated(t: Timings, xs: seq<real>, r: Timings) {
    xs != [] && r.sum == t.sum + Rolling.Sum(xs) && IsMaxOf(r.max, t.max, xs) &&
    r.last == Some(xs[|xs| - 1]) && r.samples == Rolling.Newest(t.samples + xs, WINDOW)
  }

  /** Recording one more sample extends the samples an entry has aggregated. */
  lemma AggregatedStep(t: Timings, ys: seq<real>, u: Timings, ms: real)
    requires |t.samples| <= WINDOW
    requires if ys == [] then u == t else Aggregated(t, ys, u)
    ensures Aggregated(t, ys + [ms], Record(u, ms))
  {
    var xs, r := ys + [ms], Record(u, ms);
    assert xs[..|ys|] == ys;
    assert Rolling.Sum(xs) == Rolling.Sum(ys) + ms;
    if ys == [] {
      assert r.max == t.max || r.max == xs[0];
    } else {
      Rolling.NewestSnoc(t.samples + ys, ms, WINDOW);
      assert t.samples + ys + [ms] == t.samples + xs;
      if r.max != u.max {
        assert r.max == xs[|ys|];
      } else if u.max != t.max {
        var i :| 0 <= i < |ys| && u.max == ys[i];
        assert r.max == xs[i];
      }
      forall i | 0 <= i < |xs| ensures xs[i] <= r.max {
        if i < |ys| { assert xs[i] == ys[i]; }
      }
    }
  }

  /**
   * After recording `done`, a label's aggregates are those it started with
   * (an empty entry if it had none) updated by exactly the samples recorded
   * under it: their sum is added, the maximum covers them, the last one is
   * `last`, and the window holds the newest 120 of the old window followed
   * by them. A label without samples in `done` is left alone.
   */
  lemma {:induction false} RecordAllAggregates(m: map<string, Timings>, done: seq<Entry>, ns: Query -> nat, name: string)
    requires name in m ==> |m[name].samples| <= WINDOW
    ensures var m', xs := RecordAll(m, done, ns), LabelMs(done, name, ns);
      var t := if name in m then m[name] else Zero();
      (xs == [] ==> (name in m' <==> name in m) && (name in m ==> m'[name] == m[name])) &&
      (xs != [] ==> name in m' && Aggregated(t, xs, m'[name]))
    decreases |done|
  {
    if done != [] {
      var init, e := done[..|done| - 1], done[|done| - 1];
      RecordAllAggregates(m, init, ns, name);
      var mid, ys, ms := RecordAll(m, init, ns), LabelMs(init, name, ns), ToMs(ns(e.q));
      assert done == init + [e];
      RecordAllSnoc(m, init, e, ns);
      LabelMsSnoc(init, e, name, ns);
      if e.name == name {
        var t := if name in m then m[name] else Zero();
        var u := if name in mid then mid[name] else Zero();
        AggregatedStep(t, ys, u, ms);
        assert RecordAll(m, done, ns)[name] == Record(u, ms);
      } else {
        assert ys + [] == ys;
      }
    }
  }

  /** Extending the scanned prefix by one entry extends `Kept` or `Done` by that entry. */
  lemma ScanStep(p: seq<Entry>, j: nat, available: Query -> bool)
    requires j < |p|
    ensures Kept(p[..j + 1], available) == Kept(p[..j], available) + (if available(p[j].q) then [] else [p[j]])
    ensures Done(p[..j + 1], available) == Done(p[..j], available) + (if available(p[j].q) then [p[j]] else [])
  {
    assert p[..j + 1][..j] == p[..j];
  }

  lemma RecordAllSnoc(m: map<string, Timings>, done: seq<Entry>, e: Entry, ns: Query -> nat)
    ensures RecordAll(m, done + [e], ns) == RecordNamed(RecordAll(m, done, ns), e.name, ToMs(ns(e.q)))
    ensures Queries(done + [e]) == Queries(done) + [e.q]
  {
    assert (done + [e])[..|done|] == done;
  }

  /** Polling splits the pending entries: every one is either kept (unavailable) or done (available). */
  lemma {:induction false} PollPartition(p: seq<Entry>, available: Query -> bool)
    ensures |Kept(p, available)| + |Done(p, available)| == |p|
    ensures forall e :: e in Kept(p, available) ==> e in p && !available(e.q)
    ensures forall e :: e in Done(p, available) ==> e in p && available(e.q)
    decreases |p|
  {
    if p != [] {
      PollPartition(p[..|p| - 1], available);
    }
  }

  /** With nothing available, every pending entry stays, in order. */
  lemma {:induction false} KeptNoneAvailable(p: seq<Entry>, available: Query -> bool)
    requires forall i :: 0 <= i < |p| ==> !available(p[i].q)
    ensures Kept(p, available) == p && Done(p, available) == []
    decreases |p|
  {
    if p != [] {
      KeptNoneAvailable(p[..|p| - 1], available);
      assert p[..|p| - 1] + [p[|p| - 1]] == p;
    }
  }

  /** `end` undoes the push of `begin`: the new entry moves from the top of the stack to the end of `pending`. */
  lemma EndAfterBegin(s: TimersState, isGL2: bool, hasExt1: bool, hasExt2: bool, name: string, q: Query)
    requires Supported(hasExt1, hasExt2) && ApiExt(isGL2, hasExt1, hasExt2)
    ensures var s' := EndSpec(BeginSpec(s, isGL2, hasExt1, hasExt2, name, Some(q)), isGL2, hasExt1, hasExt2);
      s'.active == s.active && s'.pending == s.pending + [Entry(name, q)] && s'.timings == s.timings
  {
    assert (s.active + [Entry(name, q)])[..|s.active|] == s.active;
  }

  /** No operation breaks the aggregates. */
  lemma PollKeepsInv(s: TimersState, isGL2: bool, hasExt1: bool, hasExt2: bool,
                     disjoint: bool, available: Query -> bool, ns: Query -> nat)
    requires AllTimingsInv(s.timings)
    ensures AllTimingsInv(PollSpec(s, isGL2, hasExt1, hasExt2, disjoint, available, ns).timings)
  {
    RecordAllKeepsInv(s.timings, Done(s.pending, available), ns);
  }

  // ---------------------------------------------------------------------------
  // stats()
  // ---------------------------------------------------------------------------

  datatype Stat = Stat(last: Option<real>, avg: real, p95: real, max: real)

  /** `Math.max(0, Math.floor(n * 0.95) - 1)`, with floor(0.95 n) written as (95 n) div 100. */
  function P95Index(n: nat): (i: nat)
    requires n >= 1
    ensures i < n
  {
    var k := (95 * n) / 100;
    if k >= 1 then k - 1 else 0
  }

  /** `t.count ? t.sum / t.count : 0`. */
  function Average(t: Timings): real {
    if t.count > 0 then t.sum / t.count as real else 0.0
  }

  /** The sorted window's element at `P95Index`, or 0 for an empty window. */
  function P95(w: seq<real>): real {
    var sorted := Rolling.SortAscending(w);
    if |sorted| > 0 then sorted[P95Index(|sorted|)] else 0.0
  }

  function StatOf(t: Timings): Stat {
    Stat(t.last, Average(t), P95(t.samples), t.max)
  }

  /** `stats()`: one entry per label. */
  function Stats(m: map<string, Timings>): (r: map<string, Stat>)
    ensures r.Keys == m.Keys
  {
    map n | n in m :: StatOf(m[n])
  }

  /**
   * For consistent aggregates the reported figures are ordered: the average
   * lies in [0, max], p95 is one of the window's samples and lies in
   * [0, max], and last and max are passed through.
   */
  lemma StatBounds(t: Timings)
    requires TimingsInv(t)
    ensures var st := StatOf(t);
      st.last == t.last && st.max == t.max &&
      0.0 <= st.avg <= st.max && 0.0 <= st.p95 <= st.max &&
      (|t.samples| > 0 ==> st.p95 in t.samples) &&
      (|t.samples| == 0 ==> st.p95 == 0.0) &&
      (t.count == 0 ==> st.avg == 0.0)
  {
    AverageBounds(t);
    if |t.samples| > 0 {
      P95InWindow(t.samples);
    }
  }

  /** The average of a consistent label lies in [0, max]. */
  lemma AverageBounds(t: Timings)
    requires TimingsInv(t)
    ensures 0.0 <= Average(t) <= t.max
  {
    if t.count > 0 {
      TimesIsProduct(t.count, t.max);
      Rolling.DivideBounds(t.sum, t.count as real, 0.0, t.max);
    }
  }

  /** p95 is one of the window's samples. */
  lemma P95InWindow(w: seq<real>)
    requires |w| > 0
    ensures P95(w) in w
  {
    var sorted := Rolling.SortAscending(w);
    var i := P95Index(|sorted|);
    assert sorted[i] in multiset(w) by { assert sorted[i] in multiset(sorted); }
  }

  /** Every label reported by `stats()` satisfies `StatBounds`. */
  lemma StatsBounds(m: map<string, Timings>, n: string)
    requires AllTimingsInv(m) && n in m
    ensures n in Stats(m) && 0.0 <= Stats(m)[n].avg <= Stats(m)[n].max && 0.0 <= Stats(m)[n].p95 <= Stats(m)[n].max
  {
    StatBounds(m[n]);
  }

  // ---------------------------------------------------------------------------
  // The engine
  // ---------------------------------------------------------------------------

  lemma SeqAssoc<T>(a: seq<T>, b: seq<T>, c: seq<T>)
    ensures (a + b) + c == a + (b + c)
  {
  }

  /**
   * The state of the `poll` loop after scanning `p[..j]`: the unavailable
   * entries so far, then the unscanned rest, are still pending; the
   * available ones so far have been recorded and deleted.
   */
  ghost predicate DrainInv(p: seq<Entry>, m: map<string, Timings>, d: seq<Query>, available: Query -> bool, ns: Query -> nat,
                           j: nat, pend: seq<Entry>, tim: map<string, Timings>, del: seq<Query>) {
    j <= |p| &&
    pend == Kept(p[..j], available) + p[j..] &&
    tim == RecordAll(m, Done(p[..j], available), ns) &&
    del == d + Queries(Done(p[..j], available))
  }

  /** The entry the loop looks at next is the next unscanned one. */
  lemma DrainEntry(p: seq<Entry>, m: map<string, Timings>, d: seq<Query>, available: Query -> bool, ns: Query -> nat,
                   j: nat, pend: seq<Entry>, tim: map<string, Timings>, del: seq<Query>)
    requires DrainInv(p, m, d, available, ns, j, pend, tim, del) && |Kept(p[..j], available)| < |pend|
    ensures j < |p| && pend[|Kept(p[..j], available)|] == p[j]
  {
  }

  /** Skipping an unavailable entry keeps the loop state. */
  lemma DrainSkip(p: seq<Entry>, m: map<string, Timings>, d: seq<Query>, available: Query -> bool, ns: Query -> nat,
                  j: nat, pend: seq<Entry>, tim: map<string, Timings>, del: seq<Query>)
    requires DrainInv(p, m, d, available, ns, j, pend, tim, del) && j < |p| && !available(p[j].q)
    ensures DrainInv(p, m, d, available, ns, j + 1, pend, tim, del)
    ensures |Kept(p[..j + 1], available)| == |Kept(p[..j], available)| + 1
  {
    var kept := Kept(p[..j], available);
    ScanStep(p, j, available);
    assert Kept(p[..j + 1], available) == kept + [p[j]];
    assert Done(p[..j + 1], available) == Done(p[..j], available);
    assert p[j..] == [p[j]] + p[j + 1..];
    SeqAssoc(kept, [p[j]], p[j + 1..]);
  }

  /** Taking an available entry out, recording and deleting it keeps the loop state. */
  lemma DrainTake(p: seq<Entry>, m: map<string, Timings>, d: seq<Query>, available: Query -> bool, ns: Query -> nat,
                  j: nat, pend: seq<Entry>, tim: map<string, Timings>, del: seq<Query>)
    requires DrainInv(p, m, d, available, ns, j, pend, tim, del) && j < |p| && available(p[j].q)
    ensures var i := |Kept(p[..j], available)|;
      i < |pend| && |Kept(p[..j + 1], available)| == i &&
      DrainInv(p, m, d, available, ns, j + 1, pend[..i] + pend[i + 1..],
               RecordNamed(tim, p[j].name, ToMs(ns(p[j].q))), del + [p[j].q])
  {
    var kept, done := Kept(p[..j], available), Done(p[..j], available);
    var i := |kept|;
    ScanStep(p, j, available);
    assert p[j..] == [p[j]] + p[j + 1..];
    assert pend[..i] == kept && pend[i + 1..] == p[j + 1..];
    RecordAllSnoc(m, done, p[j], ns);
    SeqAssoc(d, Queries(done), [p[j].q]);
  }

  /** The index-driven loop of `poll`, on the pending list, the aggregates and the deletion log. */
  method Drain(p: seq<Entry>, m: map<string, Timings>, d: seq<Query>, available: Query -> bool, ns: Query -> nat)
    returns (pend: seq<Entry>, tim: map<string, Timings>, del: seq<Query>)
    ensures pend == Kept(p, available)
    ensures tim == RecordAll(m, Done(p, available), ns)
    ensures del == d + Queries(Done(p, available))
  {
    ghost var j := 0;
    pend, tim, del := p, m, d;
    var i := 0;
    while i < |pend|
      invariant DrainInv(p, m, d, available, ns, j, pend, tim, del) && i == |Kept(p[..j], available)|
      decreases |pend| - i
    {
      DrainEntry(p, m, d, available, ns, j, pend, tim, del);
      var e := pend[i];
      if !available(e.q) {
        DrainSkip(p, m, d, available, ns, j, pend, tim, del);
        i := i + 1;
      } else {
        DrainTake(p, m, d, available, ns, j, pend, tim, del);
        del := del + [e.q];
        pend := pend[..i] + pend[i + 1..];
        tim := RecordNamed(tim, e.name, ToMs(ns(e.q)));
      }
      j := j + 1;
    }
    assert p[..j] == p;
  }

  class GPUTimers {
    const isGL2: bool
    const hasExt1: bool
    const hasExt2: bool
    var active: seq<Entry>
    var pending: seq<Entry>
    var timings: map<string, Timings>
    var deleted: seq<Query>

    function State(): TimersState
      reads this
    {
      TimersState(active, pending, timings, deleted)
    }

    ghost predicate Valid()
      reads this
    {
      AllTimingsInv(timings)
    }

    constructor (isGL2: bool, hasExt1: bool, hasExt2: bool)
      ensures Valid()
      ensures State() == TimersState([], [], map[], [])
      ensures this.isGL2 == isGL2 && this.hasExt1 == hasExt1 && this.hasExt2 == hasExt2
    {
      this.isGL2, this.hasExt1, this.hasExt2 := isGL2, hasExt1, hasExt2;
      active, pending, timings, deleted := [], [], map[], [];
    }

    /** `supported()`. */
    method IsSupported() returns (r: bool)
      ensures r <==> hasExt1 || hasExt2
    {
      r := hasExt1 || hasExt2;
    }

    /** `begin(name)`; `created` is what query creation returned. */
    method Begin(name: string, created: Option<Query>) returns (threw: bool)
      requires Valid()
      modifies this
      ensures Valid()
      ensures State() == BeginSpec(old(State()), isGL2, hasExt1, hasExt2, name, created)
      ensures threw == BeginThrows(isGL2, hasExt1, hasExt2, created)
    {
      threw := false;
      if !(hasExt1 || hasExt2) {
        return;
      }
      if !isGL2 && !hasExt1 {
        threw := true;
        return;
      }
      if created.None? {
        return;
      }
      if isGL2 && !hasExt2 {
        threw := true;
        return;
      }
      active := active + [Entry(name, created.value)];
    }

    /** `end()`. */
    method End() returns (threw: bool)
      requires Valid()
      modifies this
      ensures Valid()
      ensures State() == EndSpec(old(State()), isGL2, hasExt1, hasExt2)
      ensures threw <==> Supported(hasExt1, hasExt2) && old(active) != [] && !ApiExt(isGL2, hasExt1, hasExt2)
    {
      threw := false;
      if !(hasExt1 || hasExt2) || active == [] {
        return;
      }
      var item := active[|active| - 1];
      active := active[..|active| - 1];
      if (isGL2 && !hasExt2) || (!isGL2 && !hasExt1) {
        threw := true;
        return;
      }
      pending := pending + [item];
    }

    /**
     * `poll()`: `disjoint` is the GPU_DISJOINT flag, `available` and `ns` are
     * the query's availability and result.
     */
    method Poll(disjoint: bool, available: Query -> bool, ns: Query -> nat) returns (threw: bool)
      requires Valid()
      modifies this
      ensures Valid()
      ensures State() == PollSpec(old(State()), isGL2, hasExt1, hasExt2, disjoint, available, ns)
      ensures threw <==> Supported(hasExt1, hasExt2) && !ApiExt(isGL2, hasExt1, hasExt2)
    {
      threw := false;
      if !(hasExt1 || hasExt2) {
        return;
      }
      if (isGL2 && !hasExt2) || (!isGL2 && !hasExt1) {
        threw := true;
        return;
      }
      if disjoint {
        pending := [];
        return;
      }
      ghost var m := timings;
      pending, timings, deleted := Drain(pending, timings, deleted, available, ns);
      RecordAllKeepsInv(m, Done(old(pending), available), ns);
    }

    /** `stats()`. */
    method GetStats() returns (r: map<string, Stat>)
      requires Valid()
      ensures r == Stats(timings)
      ensures forall n :: n in r ==> 0.0 <= r[n].avg <= r[n].max && 0.0 <= r[n].p95 <= r[n].max
    {
      r := Stats(timings);
      forall n | n in r ensures 0.0 <= r[n].avg <= r[n].max && 0.0 <= r[n].p95 <= r[n].max {
        StatsBounds(timings, n);
      }
    }
  }
}
