# webgl-tools core, modelled in Dafny

This project models the instrumentation and accounting core of the
webgl-tools debugger (`packages/core/src`).

- **Capability detection.** The capability record is computed from the context version and the extensions it exposes.
- **Bytes-per-pixel fallback.** The memory estimate picks a bytes-per-pixel value from the pixel type alone.
- **Draw counting.** Wrapped draw, bind, program and upload entry points update a shared counter object. Primitive counts are estimated per topology.
- **Resource tracker.**
  - It keeps a registry of live GL objects, with ids like `tex_7` that are never reused.
  - It maps each handle to its id and keeps per-kind counts.
- **Simple GPU timers.**
  - A stack of active queries, a pending list and a disjoint-flag poll.
  - Per-label aggregates with a 120-sample window; `stats()` reports average and p95.
- **Enhanced GPU timers.**
  - A hierarchical timer tree with per-draw-call timing.
  - Polling moves timers from active to completed; each label keeps a 60-sample window.
  - `getStats` / `getAllStats` and `getBottlenecks`.
- **`#line` shader assembly and info-log parsing.**
  - `concatWithLineDirectives` joins source chunks and builds a line map.
  - `parseGLSLInfoLog` applies the `ERROR:\s*\d+:(\d+):\s*(.*)` pattern, with its `g` flag, and resolves lines through that map.
- **Enhanced shader error formatter.**
  - Errors are extracted from the log and classified as error or warning.
  - The source is shown with line numbers, and each error with three lines of context on either side.
  - The output has a header, a heading per error and a tips footer.
- **FBO inspector.**
  - Framebuffer capture, with the rows flipped so the top row comes first.
  - Single-pixel inspection with a hex colour, and framebuffer attachment info.
  - Per-channel histograms.
- **The `WebGLDebugger` session object.**
  - Frame begin/end with sampled frame timing and a 60-entry fps window.
  - Snapshots, custom counters and post-pass counts.

**Imperative versus functional.**
- Objects whose fields the source updates in place are classes with `modifies` clauses:
  - the counter object;
  - the wrapped context;
  - the resource tracker;
  - both timer engines;
  - the GL context the inspector binds framebuffers on;
  - the inspector;
  - the session.
- Each such method is proved against a specification function of the old state.
- The loops of the source are methods with invariants:
  - the poll loops;
  - the `#line` emitter;
  - the `re.exec` loops;
  - the context window;
  - the row flip;
  - the histogram count;
  - the attachment scan.
- Pure computations are functions:
  - primitive estimates;
  - ids;
  - statistics;
  - formatting;
  - the regular expression matcher.

**Parameters and oracles.** Everything the browser supplies is a parameter or an oracle function:
- clock readings (`performance.now()`, `Date.now()`);
- `Math.random()`;
- query availability and results;
- the GPU_DISJOINT flag;
- pixel contents (`readPixels`);
- attachment queries;
- the extensions `getExtension` returns.

GL objects are `nat` handles compared by identity. Floating-point values are `real`.

Modules: `Wrappers` (Option), `Text` (JavaScript string built-ins as used by
the source), `Rolling` (bounded windows, stable sort, sums), and one module
per source file: `Caps`, `Estimates`, `Instrument`, `Resources`, `Timers`,
`EnhancedTimers`, `ShaderErrors`, `ShaderErrorEnhanced`, `FboInspector`,
`Debugger` (`index.ts`).

## Model

| member | source | states |
|---|---|---|
| Caps.TimerKind | packages/core/src/caps.ts:21-30 | WebGL2 timing exactly when the context is WebGL2 and has the webgl2 timer extension; WebGL1 timing exactly when it is WebGL1 and has the WebGL1 extension |
| Caps.DetectCapabilities | packages/core/src/caps.ts:17-37 | webgl2 is the version; on WebGL2 instanced/vao/mrt/depthTexture are always on, on WebGL1 each holds iff its extension is present; colour-buffer float iff either float extension; half-float and debug-renderer-info iff their extensions |
| Caps.CapabilitiesMonotone | packages/core/src/caps.ts:24-36 | exposing more extensions never removes a capability, and a detected timer flavour stays the same |
| Estimates.BppFor | packages/core/src/estimates.ts:1-16 | 16 exactly for FLOAT, 8 exactly for HALF_FLOAT/HALF_FLOAT_OES, otherwise 4: four channels of the type's byte size |
| Instrument.EstimatePrims | packages/core/src/instrument.ts:33-45 | at most one of triangles/lines is non-zero; outside POINTS nothing is negative and no points are counted; an unknown mode counts nothing |
| Instrument.GroupsFill | packages/core/src/instrument.ts:36-39 | the independent run count fills the vertex count up to a remainder shorter than one run (floor division), and is 0 for negative counts |
| Instrument.WindowsIsDifference | packages/core/src/instrument.ts:37-41 | the independent sliding-window count is max(0, n - size + 1) |
| Instrument.EstimateCountsPrimitives | packages/core/src/instrument.ts:33-45 | every topology's estimate equals an independent count: disjoint runs for TRIANGLES/LINES, sliding windows for strips, fans and loops, the raw count for POINTS |
| Instrument.NewCounters | packages/core/src/instrument.ts:17-31 | frame 0 and every per-frame counter zero with no custom counter |
| Instrument.CounterState.constructor | packages/core/src/instrument.ts:17-31 | a fresh counter object holds `newCounters()` |
| Instrument.CounterState.CountDraw | packages/core/src/instrument.ts:84-89 | one draw (instanced when asked) adds one draw call and primcount copies of the estimate, nothing else changes |
| Instrument.RunCounts | packages/core/src/instrument.ts:53-164 | over any call trace, drawCalls grows by exactly the counted draws, bufferUploads by exactly the uploads whatever the options, instanced draws never exceed draws, and frameId/postPasses/custom are untouched |
| Instrument.UseProgramSwitch | packages/core/src/instrument.ts:138-148 | with programs tracked, shaderSwitches grows exactly when the program differs from the last one, which becomes the new last program |
| Instrument.RepeatedProgramCountsOnce | packages/core/src/instrument.ts:141-147 | binding the same program any number of times in a row counts at most one switch |
| Instrument.RepeatedTriangleDraws | packages/core/src/instrument.ts:59-64 | k draws of 36 TRIANGLES vertices add exactly 12 k triangles |
| Instrument.WrappedGL.WrapGL | packages/core/src/instrument.ts:53-56 | the wrapped context shares the given counter object and options, and the last-program cell starts empty |
| Instrument.WrappedGL.DrawArrays | packages/core/src/instrument.ts:59-66 | the counters move by one step of the trace semantics for `drawArrays` |
| Instrument.WrappedGL.DrawElements | packages/core/src/instrument.ts:70-77 | the same for `drawElements` |
| Instrument.WrappedGL.DrawArraysInstanced | packages/core/src/instrument.ts:79-115 | the same for `drawArraysInstanced` / `drawArraysInstancedANGLE`, counted only when the instanced wrapper was installed |
| Instrument.WrappedGL.DrawElementsInstanced | packages/core/src/instrument.ts:92-125 | the same for `drawElementsInstanced` / `drawElementsInstancedANGLE` |
| Instrument.WrappedGL.BindTexture | packages/core/src/instrument.ts:130-136 | the same for `bindTexture`: counts non-null binds when binds are tracked |
| Instrument.WrappedGL.UseProgram | packages/core/src/instrument.ts:138-148 | the same for `useProgram`: counts program changes when programs are tracked |
| Instrument.WrappedGL.BufferData | packages/core/src/instrument.ts:151-155 | the same for `bufferData`: always one upload |
| Instrument.WrappedGL.BufferSubData | packages/core/src/instrument.ts:157-161 | the same for `bufferSubData`: always one upload |
| Resources.IdPrefix | packages/core/src/resources.ts:22 | the prefix is the first three letters of the kind name |
| Resources.ResourceIdInjective | packages/core/src/resources.ts:22 | two ids are equal only for the same kind and the same counter value |
| Resources.CountKindRemove | packages/core/src/resources.ts:37-38 | splicing out one record lowers its own kind's count by one and no other |
| Resources.CountKindBound | packages/core/src/resources.ts:38 | no kind counts more records than there are |
| Resources.IndexOfId | packages/core/src/resources.ts:33 | `findIndex`: the first record with the id, or -1 exactly when no record has it |
| Resources.InitialState | packages/core/src/resources.ts:12-18 | an empty list and map, byte total 0, next id 1 |
| Resources.InitialInv | packages/core/src/resources.ts:12-18 | the initial tracker is consistent and every per-kind count is 0 and agrees with the list |
| Resources.AddKeepsInv | packages/core/src/resources.ts:21-29 | registering a fresh handle keeps the registry consistent and keeps per-kind counts equal to the records of each kind |
| Resources.DelKeepsInv | packages/core/src/resources.ts:30-41 | deleting keeps the registry consistent; a registered handle loses exactly its own record (one fewer record, only its id gone) and is unmapped |
| Resources.DelAgrees | packages/core/src/resources.ts:30-41 | per-kind counts stay equal to the list when the deleter's kind is the record's kind |
| Resources.AddThenDel | packages/core/src/resources.ts:21-41 | creating then deleting an object restores the tracker except that the id counter has advanced |
| Resources.UndoAdd | packages/core/src/resources.ts:21-41 | the same, for any state in which the next id is not already in the list |
| Resources.IndexOfLast | packages/core/src/resources.ts:26-33 | a record with a new id is found where it was appended |
| Resources.RegistryAdd | packages/core/src/resources.ts:21-29 | appending a record under the next id and mapping a fresh handle to it keeps ids unique, tied to increasing serials and in one-to-one correspondence with the mapped handles |
| Resources.SerialsFresh | packages/core/src/resources.ts:22 | the id the next counter value makes is not yet in the list |
| Resources.RegistryRemove | packages/core/src/resources.ts:31-40 | a mapped handle's id is found by `findIndex`, and splicing it out and unmapping the handle keeps the registry consistent with exactly that id gone |
| Resources.RegistrySplice | packages/core/src/resources.ts:37-40 | splicing out the record a mapped handle names and unmapping the handle keeps the registry consistent and removes exactly that id |
| Resources.AgreeRemove | packages/core/src/resources.ts:37-38 | splicing out a record and decrementing its own kind (floored at 0) keeps every count equal to the list |
| Resources.IdsUnique | packages/core/src/resources.ts:22 | ids built from strictly increasing serials are pairwise distinct |
| Resources.ResourceTracker.constructor | packages/core/src/resources.ts:11-18 | a consistent empty tracker whose exposed byte total is 0 |
| Resources.ResourceTracker.Add | packages/core/src/resources.ts:21-29 | the state becomes `AddSpec` and stays consistent, keeping per-kind agreement |
| Resources.ResourceTracker.Del | packages/core/src/resources.ts:30-41 | the state becomes `DelSpec`, stays consistent, and counts stay right when the kinds match |
| Resources.ResourceTracker.RemoveAt | packages/core/src/resources.ts:34-39 | exactly the record at the index is spliced out, its non-zero bytes subtracted and the kind decremented (floored at 0), nothing else changes |
| Resources.ResourceTracker.Create | packages/core/src/resources.ts:44-109 | a wrapped `create*` returns the original's result and registers it (shaders with their stage, textures and buffers with a stack) only when non-null |
| Resources.ResourceTracker.Delete | packages/core/src/resources.ts:50-114 | a wrapped `delete*` ignores null and otherwise behaves as `del` |
| Resources.ResourceTracker.CreateVertexArray | packages/core/src/resources.ts:116-127 | VAOs are registered only through the core-named wrapper, installed on WebGL2 or with the OES extension |
| Resources.ResourceTracker.DeleteVertexArray | packages/core/src/resources.ts:128-131 | VAO deletes go through `del` only on that same path |
| Resources.ResourceTracker.OnBufferUpload | packages/core/src/resources.ts:147 | only the internal byte total grows by the size |
| Resources.ResourceTracker.OnTextureUpload | packages/core/src/resources.ts:135-139 | only the internal byte total grows by width x height x bpp |
| Rolling.Newest | packages/core/src/timers.ts:70 | the newest `cap` elements: a suffix of length min(n, cap) |
| Rolling.Push | packages/core/src/timersEnhanced.ts:344-350 | push then shift beyond `cap` keeps exactly the newest `cap` and ends with the new sample |
| Rolling.PushAllNewest | packages/core/src/timersEnhanced.ts:339-351 | any number of pushes leaves exactly the newest `cap` of everything pushed |
| Rolling.NewestSnoc | packages/core/src/timers.ts:70 | trimming then appending agrees with appending then trimming |
| Rolling.Insert | packages/core/src/timersEnhanced.ts:299 | inserting into a sorted list keeps it sorted and adds exactly that element |
| Rolling.SortBy | packages/core/src/timersEnhanced.ts:299 | the result is sorted by key and a permutation of the input |
| Rolling.InsertKeyRun | packages/core/src/timersEnhanced.ts:299 | an inserted element goes before every element of equal key |
| Rolling.SortByStable | packages/core/src/timersEnhanced.ts:299 | the sort is stable: the elements of each key keep their relative order |
| Rolling.KeyRunConcat | packages/core/src/timersEnhanced.ts:299-300 | the elements of one key in a concatenation are those of each part, in order |
| Rolling.SortedPrefixStable | packages/core/src/timersEnhanced.ts:299-300 | within any prefix of the sort, the elements of one key are a prefix of those in the input |
| Rolling.TopSlice | packages/core/src/timersEnhanced.ts:299-300 | a prefix of a sorted permutation is drawn from the input, and every element left over has a key at least that of each prefix element |
| Rolling.SortedExtremes | packages/core/src/timersEnhanced.ts:245-251 | the ends of the sorted list are elements of the input holding its least and greatest keys |
| Rolling.PermutedExtremes | packages/core/src/timersEnhanced.ts:245-251 | the same for any sorted permutation |
| Rolling.SortAscending | packages/core/src/timers.ts:77 | numeric ascending sort: same length, ordered, a permutation |
| Rolling.SumBounds | packages/core/src/timersEnhanced.ts:246 | a sum of n samples lies between n times any lower and upper bound |
| Rolling.MeanBounds | packages/core/src/timersEnhanced.ts:246-249 | the mean of a non-empty window lies between any bounds on its samples |
| Text.NatToRadix | packages/core/src/fboInspector.ts:136 | `toString(base)` yields at least one digit, all of the base |
| Text.RadixRoundTrip | packages/core/src/fboInspector.ts:136 | reading a rendered number back gives the number |
| Text.RadixRenderingInjective | packages/core/src/resources.ts:22 | different numbers render differently |
| Text.DecimalRoundTrip | packages/core/src/shaderErrors.ts:28 | `String(n)` is all decimal digits and `parseInt` of it is n |
| Text.PadStart | packages/core/src/shaderErrorEnhanced.ts:43 | `padStart` has length max(width, n), ends with the string and is filled before it |
| Text.Hex2RoundTrip | packages/core/src/fboInspector.ts:136 | a byte becomes exactly two hex digits that denote it |
| Text.ToLower | packages/core/src/shaderErrorEnhanced.ts:104 | `toLowerCase` maps each (ASCII) character and keeps the length |
| Text.ToUpper | packages/core/src/shaderErrorEnhanced.ts:51 | `toUpperCase` maps each (ASCII) character and keeps the length |
| Text.Contains | packages/core/src/shaderErrorEnhanced.ts:104 | `includes` holds exactly when the text occurs at some position |
| Text.Split | packages/core/src/shaderErrors.ts:11 | `split` yields at least one piece, none containing the separator |
| Text.JoinSplit | packages/core/src/shaderErrorEnhanced.ts:39-44 | joining the pieces with the separator gives the string back |
| Text.SplitJoin | packages/core/src/shaderErrorEnhanced.ts:42-44 | splitting a join of separator-free pieces gives the pieces back |
| Text.SplitCount | packages/core/src/shaderErrors.ts:11 | there is one more piece than there are separators |
| Text.TerminatedSplit | packages/core/src/shaderErrors.ts:11-16 | emitting every piece followed by the separator gives the input plus one trailing separator |
| Text.ConcatContainsPart | packages/core/src/shaderErrorEnhanced.ts:107 | every section occurs in the joined output |
| Timers.ToMs | packages/core/src/timers.ts:63 | the millisecond value is never negative |
| Timers.Record | packages/core/src/timers.ts:69-70 | last is the sample, count grows by one, the sum grows by the sample, max becomes the larger of the old max and the sample, the window holds the newest 120 |
| Timers.RecordNamed | packages/core/src/timers.ts:68-70 | the label gains an entry and every other label is unchanged |
| Timers.Queries | packages/core/src/timers.ts:65 | the queries of the entries, in order |
| Timers.RecordKeepsInv | packages/core/src/timers.ts:69-70 | recording a non-negative sample keeps a label consistent: samples within [0, max], at most 120 and at most count of them, sum within count x max, last the newest sample |
| Timers.RecordAllKeepsInv | packages/core/src/timers.ts:53-71 | recording any sequence of results keeps every label consistent |
| Timers.RecordNamedKeepsInv | packages/core/src/timers.ts:68-70 | recording under a label, created on first use, keeps every label consistent |
| Timers.RecordAllCounts | packages/core/src/timers.ts:68-69 | each completed query adds exactly one to its own label's count |
| Timers.AggregatedStep | packages/core/src/timers.ts:68-70 | recording one more sample extends what an entry has aggregated: sum, maximum, last sample and window |
| Timers.RecordAllAggregates | packages/core/src/timers.ts:53-71 | after a poll records its results, each label's sum is its old sum plus the sum of the ms recorded under it, its max is the largest of the old max and those ms, its last is the last of them and its window is the newest 120 of the old window followed by them; a label with nothing recorded is unchanged |
| Timers.PollPartition | packages/core/src/timers.ts:53-71 | every pending entry is either kept (unavailable) or done (available), in order |
| Timers.KeptNoneAvailable | packages/core/src/timers.ts:58 | with nothing available every pending entry stays, in order |
| Timers.EndAfterBegin | packages/core/src/timers.ts:22-38 | `end` after `begin` leaves the stack as it was and appends the new entry to pending |
| Timers.PollKeepsInv | packages/core/src/timers.ts:41-72 | polling never breaks a label's consistency |
| Timers.P95Index | packages/core/src/timers.ts:78 | the p95 index is a valid index of a non-empty window |
| Timers.Stats | packages/core/src/timers.ts:74-82 | one entry per recorded label |
| Timers.StatBounds | packages/core/src/timers.ts:77-79 | for a consistent label the average and p95 lie in [0, max], p95 is a windowed sample, last and max are passed through |
| Timers.AverageBounds | packages/core/src/timers.ts:79 | the average lies in [0, max] |
| Timers.P95InWindow | packages/core/src/timers.ts:77-78 | p95 is one of the window's samples |
| Timers.StatsBounds | packages/core/src/timers.ts:74-82 | every label reported by `stats()` has average and p95 in [0, max] |
| Timers.Drain | packages/core/src/timers.ts:53-71 | the index loop with splicing leaves the unavailable entries in order, records the available ones in order and logs their deletions |
| Timers.DrainSkip | packages/core/src/timers.ts:55-58 | an unavailable entry stays pending at its place and the index moves past it |
| Timers.DrainTake | packages/core/src/timers.ts:60-70 | an available entry is spliced out of pending where it stood, recorded under its label and its query deleted, and the index stays |
| Timers.GPUTimers.constructor | packages/core/src/timers.ts:13-18 | empty stack, pending list, map and deletion log, with the extensions found |
| Timers.GPUTimers.IsSupported | packages/core/src/timers.ts:20 | supported exactly when either timer extension was found |
| Timers.GPUTimers.Begin | packages/core/src/timers.ts:22-29 | the state becomes `BeginSpec`; it throws exactly when the extension object the call goes through is missing |
| Timers.GPUTimers.End | packages/core/src/timers.ts:31-38 | the state becomes `EndSpec`; it throws exactly when supported, an entry was active and the call's extension object is missing |
| Timers.GPUTimers.Poll | packages/core/src/timers.ts:41-72 | the state becomes `PollSpec` (disjoint drops all pending); it throws exactly when supported without the call's extension object |
| Timers.GPUTimers.GetStats | packages/core/src/timers.ts:74-82 | `stats()`, with every average and p95 in [0, max] |
| EnhancedTimers.Initial | packages/core/src/timersEnhanced.ts:50-65 | a consistent empty engine, enabled exactly when the extension was found |
| EnhancedTimers.BeginStep | packages/core/src/timersEnhanced.ts:70-113 | the steps of `begin` produce `BeginSpec` |
| EnhancedTimers.NsToMs | packages/core/src/timersEnhanced.ts:210 | the GPU time in milliseconds is never negative |
| EnhancedTimers.Without | packages/core/src/timersEnhanced.ts:227 | `filter(t => !completed.includes(t))` keeps exactly the timers not completed and never grows |
| EnhancedTimers.PollFoldNodes | packages/core/src/timersEnhanced.ts:185-224 | the poll loop changes timers only in their GPU times |
| EnhancedTimers.PollFoldWindows | packages/core/src/timersEnhanced.ts:339-351 | every label's window keeps between 1 and 60 samples |
| EnhancedTimers.PollFoldStats | packages/core/src/timersEnhanced.ts:184-224 | after the loop each label's window is the newest 60 of its old window followed by the GPU times of the timers completed with that label, in completion order; the completed timers hold no query |
| EnhancedTimers.PollStats | packages/core/src/timersEnhanced.ts:180-229 | the same for the whole `poll()`: the windows gain exactly the GPU times of the timers this poll appended to the completed list |
| EnhancedTimers.WindowStep | packages/core/src/timersEnhanced.ts:212 | one completion adds its GPU time to its own label's window and leaves the other windows alone |
| EnhancedTimers.PushWindow | packages/core/src/timersEnhanced.ts:339-351 | `updateStats` pushes onto the named window, keeping its newest 60, and leaves the other windows alone |
| EnhancedTimers.CompletedTimes | packages/core/src/timersEnhanced.ts:209-210 | setting a timer's GPU time adds it to the times of its own label only |
| EnhancedTimers.PollFoldQueries | packages/core/src/timersEnhanced.ts:185-224 | queries only disappear, each for a timer that completed |
| EnhancedTimers.PollFoldCompletion | packages/core/src/timersEnhanced.ts:199-223 | a timer completes exactly when scanned with an available query; it then has no query and carries that query's GPU time |
| EnhancedTimers.PollLoop | packages/core/src/timersEnhanced.ts:185-224 | the `for` loop computes the poll fold |
| EnhancedTimers.PollRun | packages/core/src/timersEnhanced.ts:180-229 | the early return, loop, filter and append produce `PollSpec` |
| EnhancedTimers.PollCompletes | packages/core/src/timersEnhanced.ts:180-229 | an active timer is newly completed iff its query is available, then has that GPU time and leaves the active list; otherwise it stays active |
| EnhancedTimers.GetStatsBounds | packages/core/src/timersEnhanced.ts:241-255 | null exactly for a label without samples; otherwise min <= average <= max, min and max are samples bounding every sample, last is the newest, samples the count |
| EnhancedTimers.WindowBounds | packages/core/src/timersEnhanced.ts:245-251 | the ends of an ascending permutation of a window bound all its samples and their mean |
| EnhancedTimers.AllStats | packages/core/src/timersEnhanced.ts:260-269 | exactly the labels with samples, each with its `getStats` result |
| EnhancedTimers.AllStatsLoop | packages/core/src/timersEnhanced.ts:263-266 | the loop over the stats map computes `AllStats` |
| EnhancedTimers.AllStatsCoversLabels | packages/core/src/timersEnhanced.ts:260-269 | under the invariant every label with a window is reported |
| EnhancedTimers.CollectTimed | packages/core/src/timersEnhanced.ts:285-294 | every collected timer has a GPU time |
| EnhancedTimers.CollectRoots | packages/core/src/timersEnhanced.ts:285-296 | every listed timer with a GPU time is collected |
| EnhancedTimers.ToBottlenecks | packages/core/src/timersEnhanced.ts:301-305 | one entry per timer, in order, with its label, time and type |
| EnhancedTimers.SliceEnd | packages/core/src/timersEnhanced.ts:300 | `slice(0, n)` ends at min(n, len), counting from the end for negative n |
| EnhancedTimers.BottlenecksProps | packages/core/src/timersEnhanced.ts:282-306 | at most topN entries (all when fewer), in non-increasing time, each a collected timer's label, time and type; they are the most expensive candidates (no candidate left out takes longer than an entry kept), taken without duplication, and timers of equal time keep their collection order |
| EnhancedTimers.BottlenecksOrdered | packages/core/src/timersEnhanced.ts:282-306 | size, non-increasing order and origin of the entries |
| EnhancedTimers.BottlenecksTop | packages/core/src/timersEnhanced.ts:279-306 | the entries are drawn from the candidates (as a sub-multiset) and every candidate left out has a time no larger than any entry |
| EnhancedTimers.BottlenecksStable | packages/core/src/timersEnhanced.ts:298-300 | among entries of equal time, the entries are the first of those candidates in collection order |
| EnhancedTimers.Candidates | packages/core/src/timersEnhanced.ts:283-296 | one candidate per collected timer, in collection order, with its label, time and type |
| EnhancedTimers.CandidatesOrigin | packages/core/src/timersEnhanced.ts:286-289 | every candidate is a collected timer with a GPU time |
| EnhancedTimers.SortedSlice | packages/core/src/timersEnhanced.ts:298-300 | a prefix of the sort by decreasing time is in decreasing time and drawn from the input |
| EnhancedTimers.BeginKeepsInv | packages/core/src/timersEnhanced.ts:70-113 | `begin` keeps the arena consistent (links forward, stack, active, timeline and queries refer to existing timers) |
| EnhancedTimers.EndKeepsInv | packages/core/src/timersEnhanced.ts:118-137 | `end` keeps it consistent |
| EnhancedTimers.TimeDrawCallKeepsInv | packages/core/src/timersEnhanced.ts:142-161 | `timeDrawCall` keeps it consistent |
| EnhancedTimers.PollKeepsInv | packages/core/src/timersEnhanced.ts:180-229 | `poll` keeps it consistent |
| EnhancedTimers.BeginThenEnd | packages/core/src/timersEnhanced.ts:70-137 | end after begin restores the stack; the new timer is last in the timeline or its parent's children, still active, with CPU time t1 - t0 |
| EnhancedTimers.ReadyToBegin | packages/core/src/timersEnhanced.ts:70-113 | an enabled consistent engine has an unused next timer and an older stack top |
| EnhancedTimers.TimeDrawCallSteps | packages/core/src/timersEnhanced.ts:151-160 | begin, count the draw, end gives the `timeDrawCall` state |
| EnhancedTimers.EndIgnoresDrawCalls | packages/core/src/timersEnhanced.ts:118-137 | `end` does not look at the draw counter |
| EnhancedTimers.TimeDrawCallEffect | packages/core/src/timersEnhanced.ts:142-161 | the draw always runs once; enabled, the index advances and a 'draw' timer labelled `Draw_<index>_<mode>` is begun and ended; disabled, nothing else changes |
| EnhancedTimers.DrawLabelInjective | packages/core/src/timersEnhanced.ts:151 | different draw indices give different labels |
| EnhancedTimers.EnhancedGPUTimers.constructor | packages/core/src/timersEnhanced.ts:50-65 | the engine starts as `Initial` |
| EnhancedTimers.EnhancedGPUTimers.Begin | packages/core/src/timersEnhanced.ts:70-113 | the state becomes `BeginSpec` and stays consistent |
| EnhancedTimers.EnhancedGPUTimers.End | packages/core/src/timersEnhanced.ts:118-137 | the state becomes `EndSpec` and stays consistent |
| EnhancedTimers.EnhancedGPUTimers.TimeDrawCall | packages/core/src/timersEnhanced.ts:142-161 | the state becomes `TimeDrawCallSpec` and stays consistent |
| EnhancedTimers.EnhancedGPUTimers.BeginPass | packages/core/src/timersEnhanced.ts:166-168 | a 'pass' timer is begun |
| EnhancedTimers.EnhancedGPUTimers.EndPass | packages/core/src/timersEnhanced.ts:173-175 | the same as `end` |
| EnhancedTimers.EnhancedGPUTimers.Poll | packages/core/src/timersEnhanced.ts:180-229 | the state becomes `PollSpec` and stays consistent |
| EnhancedTimers.EnhancedGPUTimers.ResetFrame | packages/core/src/timersEnhanced.ts:274-277 | only the timeline and the draw index are cleared; statistics stay |
| EnhancedTimers.EnhancedGPUTimers.SetEnabled | packages/core/src/timersEnhanced.ts:328-330 | enabled only when asked and the extension exists |
| EnhancedTimers.EnhancedGPUTimers.IsSupported | packages/core/src/timersEnhanced.ts:335-337 | supported exactly when the extension was found |
| EnhancedTimers.EnhancedGPUTimers.GetAllStats | packages/core/src/timersEnhanced.ts:260-269 | every label with a window is reported with its statistics |
| EnhancedTimers.EnhancedGPUTimers.GetStats | packages/core/src/timersEnhanced.ts:241-255 | `getStats(label)`, with min <= average <= max and the window length as sample count |
| EnhancedTimers.EnhancedGPUTimers.GetBottlenecks | packages/core/src/timersEnhanced.ts:282-306 | at most topN entries in non-increasing time order, drawn from the collected timers, no candidate left out taking longer than an entry kept, equal times in collection order |
| ShaderErrors.ChunkEntries | packages/core/src/shaderErrors.ts:12-13 | one map entry per line of the chunk |
| ShaderErrors.EmitLines | packages/core/src/shaderErrors.ts:11-16 | the inner loop appends every line with a newline and one entry per line numbered on from the running counter |
| ShaderErrors.ConcatWithLineDirectives | packages/core/src/shaderErrors.ts:5-19 | the loops produce the chunk-by-chunk result |
| ShaderErrors.ConcatMapNumbers | packages/core/src/shaderErrors.ts:8-15 | one entry per line of every chunk, with global line numbers 1, 2, 3, ... across chunks |
| ShaderErrors.ConcatMapChunk | packages/core/src/shaderErrors.ts:12-13 | within each chunk file lines restart at 1 and carry the chunk's file |
| ShaderErrors.CodeRoundTrip | packages/core/src/shaderErrors.ts:9-16 | the code splits into a `#line 1` directive and each chunk's lines, chunk by chunk, plus a final empty piece; each chunk's lines join back to its code |
| ShaderErrors.SkipSpacesRun | packages/core/src/shaderErrors.ts:25 | `\s*` stops at the first non-space |
| ShaderErrors.SkipDigitsRun | packages/core/src/shaderErrors.ts:25 | `\d+` runs stop at the first non-digit |
| ShaderErrors.LineEndRun | packages/core/src/shaderErrors.ts:25 | `.*` stops at the first line terminator |
| ShaderErrors.MatchAt | packages/core/src/shaderErrors.ts:25 | a match's pieces lie in order within the log |
| ShaderErrors.LineCaptureDigits | packages/core/src/shaderErrors.ts:25 | capture 1 is a run of digits |
| ShaderErrors.MatchAtShape | packages/core/src/shaderErrors.ts:25 | a match starts with "ERROR:", its raw text is the matched slice and its message runs to the end of the line |
| ShaderErrors.MatchAtWhen | packages/core/src/shaderErrors.ts:25 | conversely, text so shaped matches with exactly those captures |
| ShaderErrors.Exec | packages/core/src/shaderErrors.ts:27 | a match found by `exec` lies after `lastIndex` |
| ShaderErrors.ExecLeftmost | packages/core/src/shaderErrors.ts:27 | `exec` returns the leftmost match at or after `lastIndex`, and nothing exactly when there is none |
| ShaderErrors.MatchesOrdered | packages/core/src/shaderErrors.ts:27 | successive matches do not overlap and come in log order |
| ShaderErrors.MatchesAreMatches | packages/core/src/shaderErrors.ts:27 | every match in the list is a match of the pattern at its start |
| ShaderErrors.NoTagNoMatch | packages/core/src/shaderErrors.ts:25-27 | a log without "ERROR:" has no match |
| ShaderErrors.RenderedMatch | packages/core/src/shaderErrors.ts:25-28 | `ERROR: <k>:<n>: <msg>` matches, with line parseInt(n) and that message |
| ShaderErrors.RenderedLineMatches | packages/core/src/shaderErrors.ts:25-28 | a compiler line for numbers k and n yields line n and the message |
| ShaderErrors.FindLine | packages/core/src/shaderErrors.ts:29 | `find` returns the first entry for the line, or none exactly when no entry has it |
| ShaderErrors.ParseGLSLInfoLog | packages/core/src/shaderErrors.ts:22-33 | the `exec` loop yields the resolved matches in order |
| ShaderErrors.ResolveAllOrder | packages/core/src/shaderErrors.ts:27-31 | each result comes from one match, in log order, and a match yields a result exactly when its line is mapped |
| ShaderErrors.ParsedErrorsComeFromMatches | packages/core/src/shaderErrors.ts:22-33 | every parsed error is a mapped match's file, file line, message and raw text |
| ShaderErrorEnhanced.Pushed | packages/core/src/shaderErrorEnhanced.ts:31-38 | one record per match |
| ShaderErrorEnhanced.ExtractErrors | packages/core/src/shaderErrorEnhanced.ts:27-38 | the `exec` loop records every match in log order |
| ShaderErrorEnhanced.Classify | packages/core/src/shaderErrorEnhanced.ts:102-106 | line and message kept, source the shader type, a warning exactly when the lower-cased message contains "warning" |
| ShaderErrorEnhanced.Classified | packages/core/src/shaderErrorEnhanced.ts:102-106 | one classified error per error |
| ShaderErrorEnhanced.GutterReadsNumber | packages/core/src/shaderErrorEnhanced.ts:43 | a gutter is spaces, then the line number's decimal digits, then " \| " |
| ShaderErrorEnhanced.NumberedLines | packages/core/src/shaderErrorEnhanced.ts:42-43 | line i is the gutter of i + 1 then source line i |
| ShaderErrorEnhanced.NumberedSourceLines | packages/core/src/shaderErrorEnhanced.ts:39-44 | the numbered source has exactly one line per source line, each numbered from 1 |
| ShaderErrorEnhanced.NumberedLinesSplit | packages/core/src/shaderErrorEnhanced.ts:42-44 | the joined numbered lines split back into them |
| ShaderErrorEnhanced.ContextLineShape | packages/core/src/shaderErrorEnhanced.ts:68-86 | each context line shows the numbered source line; only the error line has the '>' marker, the colour and the caret line |
| ShaderErrorEnhanced.MarkedShape | packages/core/src/shaderErrorEnhanced.ts:71-82 | the error line starts in red, carries the '>' marker followed by the numbered line, and ends with the red `^^^` caret line |
| ShaderErrorEnhanced.ContextWindow | packages/core/src/shaderErrorEnhanced.ts:64-87 | source line i is shown exactly when within three lines of the error, once and in order; an error past the end shows nothing |
| ShaderErrorEnhanced.RenderContext | packages/core/src/shaderErrorEnhanced.ts:68-87 | the loop produces the context window |
| ShaderErrorEnhanced.RenderError | packages/core/src/shaderErrorEnhanced.ts:56-90 | one turn of `forEach` pushes the heading, the context and a blank line |
| ShaderErrorEnhanced.FormatShaderError | packages/core/src/shaderErrorEnhanced.ts:21-110 | the whole method yields the classified errors, the joined sections and the numbered source |
| ShaderErrorEnhanced.ErrorsFromLog | packages/core/src/shaderErrorEnhanced.ts:27-38 | error i carries match i's line and message, the shader type, and a warning exactly when its message mentions one |
| ShaderErrorEnhanced.NoErrorsOutput | packages/core/src/shaderErrorEnhanced.ts:49-99 | without errors the output is the header and the tips |
| ShaderErrorEnhanced.NoTagNoErrors | packages/core/src/shaderErrorEnhanced.ts:27-38 | a log without "ERROR:" gives no error and only the header and tips |
| ShaderErrorEnhanced.RenderedLineFirst | packages/core/src/shaderErrorEnhanced.ts:28-37 | a log starting with a compiler error line yields that line number and message first |
| ShaderErrorEnhanced.BlocksHeading | packages/core/src/shaderErrorEnhanced.ts:56-62 | where error i's heading lies among the sections |
| ShaderErrorEnhanced.SectionsHeadings | packages/core/src/shaderErrorEnhanced.ts:47-107 | the banner and error i's heading text occur in the joined sections |
| ShaderErrorEnhanced.OutputHeadings | packages/core/src/shaderErrorEnhanced.ts:49-62 | the output names the shader type in capitals and reads "Error i+1/n at line L:" for every error |
| ShaderErrorEnhanced.BannerNames | packages/core/src/shaderErrorEnhanced.ts:51 | the banner is "VERTEX" or "FRAGMENT" followed by " SHADER COMPILATION FAILED" |
| ShaderErrorEnhanced.HeaderHasBanner | packages/core/src/shaderErrorEnhanced.ts:50-53 | the header holds the banner after its marker |
| ShaderErrorEnhanced.HeadingHasText | packages/core/src/shaderErrorEnhanced.ts:59-62 | each heading holds "Error i+1/n at line L:" after its marker |
| FboInspector.Context.constructor | packages/core/src/fboInspector.ts:32-34 | the context keeps its binding, version, viewport and oracles, with no bind logged yet |
| FboInspector.Context.BindFramebuffer | packages/core/src/fboInspector.ts:59 | the binding becomes the framebuffer and the bind is logged |
| FboInspector.FlippedAt | packages/core/src/fboInspector.ts:74-83 | byte c of pixel (x, y) of the flipped image is byte c of pixel (x, h - 1 - y) of the original |
| FboInspector.ReadAt | packages/core/src/fboInspector.ts:67-68 | the read's byte for pixel (x, y), channel c, is the framebuffer's texel, rows counted from the bottom |
| FboInspector.HistBin | packages/core/src/fboInspector.ts:322-348 | bin v counts exactly the pixels whose channel is v |
| FboInspector.HistTotal | packages/core/src/fboInspector.ts:320-348 | the bins add up to the number of pixels |
| FboInspector.CaptureShape | packages/core/src/fboInspector.ts:47-92 | a capture is null exactly for an empty viewport of the default framebuffer; otherwise it has the size read (512 x 512 for an FBO), four bytes per pixel |
| FboInspector.ReadFlipped | packages/core/src/fboInspector.ts:68-84 | reading h rows bottom-up and flipping puts pixel (x, h - 1 - y) at (x, y) |
| FboInspector.ImageFlips | packages/core/src/fboInspector.ts:71-84 | the same for image data so produced |
| FboInspector.CaptureFlips | packages/core/src/fboInspector.ts:47-92 | byte c of pixel (x, y) of a capture, top row first, is channel c of the framebuffer's pixel (x, height - 1 - y) |
| FboInspector.HexColorReads | packages/core/src/fboInspector.ts:135-137 | the hex colour is '#' and six hex digits whose pairs read back as red, green and blue |
| FboInspector.FBOInspector.constructor | packages/core/src/fboInspector.ts:32-42 | maxTextureSize falls back to 4096 when missing or 0, float inspection to true when missing |
| FboInspector.FBOInspector.CaptureFramebuffer | packages/core/src/fboInspector.ts:47-92 | the result is the capture of the framebuffer, and the previous binding is restored after binding the target |
| FboInspector.FBOInspector.InspectPixel | packages/core/src/fboInspector.ts:97-150 | the four bytes of the pixel in the target framebuffer and their hex colour, with the binding restored |
| FboInspector.FBOInspector.GetFramebufferInfo | packages/core/src/fboInspector.ts:155-228 | counts texture colour attachments over 1 (WebGL1) or MAX_COLOR_ATTACHMENTS points, 512 x 512 once a named texture is seen, depth/stencil present when attached, binding restored |
| FboInspector.FBOInspector.CreateHistogram | packages/core/src/fboInspector.ts:313-351 | 256 bins: all zero when nothing was captured, else the channel's histogram over every pixel |
| FboInspector.CountBytes | packages/core/src/fboInspector.ts:322-348 | the loop computes the histogram of the channel over all pixels |
| FboInspector.NamedTextureStep | packages/core/src/fboInspector.ts:187-203 | a named texture is seen after one more point iff it was already or that point holds a named texture |
| FboInspector.FlipRows | packages/core/src/fboInspector.ts:74-84 | the nested loops write exactly the row-flipped image |
| FboInspector.CopyPixel | packages/core/src/fboInspector.ts:76-82 | one pixel's four bytes come from the mirrored row and nothing else is written |
| Debugger.TrackOptions | packages/core/src/index.ts:27-33 | binds, programs and instancing are tracked exactly when the mode is not 'off' |
| Debugger.SamplingByMode | packages/core/src/index.ts:58 | 'full' samples every frame, 'off' none, 'sampled' every frame for rate >= 1 and none for rate <= 0 |
| Debugger.FrameReset | packages/core/src/index.ts:36-45 | the frame number advances and every per-frame counter is zero |
| Debugger.Bump | packages/core/src/index.ts:94 | the key gains delta (from 0 when new) and other keys are unchanged |
| Debugger.BumpTwice | packages/core/src/index.ts:94 | two increments of a key add up |
| Debugger.BumpCommutes | packages/core/src/index.ts:94 | increments of different keys commute |
| Debugger.FrameCounts | packages/core/src/index.ts:36-45 | after `beginFrame` and any calls, the frame's counters hold exactly that frame's draws and uploads, no pass and no custom counter |
| Debugger.OffTracksNothing | packages/core/src/index.ts:27-33 | in 'off' mode binds, switches and instanced draws never count, plain draws still do |
| Debugger.SnapshotProps | packages/core/src/index.ts:65-85 | a snapshot copies every counter; fps is 0 without samples and within the samples' bounds otherwise; cpuMs x fps = 1000; gpuMs is the frame timer's last time |
| Debugger.WebGLDebugger.constructor | packages/core/src/index.ts:19-34 | capabilities detected, fresh counters, timers and tracker, mode 'sampled' and rate 0.25 by default, wrapping per mode |
| Debugger.WebGLDebugger.BeginFrame | packages/core/src/index.ts:36-48 | counters reset for the next frame; the frame timer begins exactly when the frame is sampled |
| Debugger.WebGLDebugger.EndFrame | packages/core/src/index.ts:50-56 | the fps window is pushed; the frame timer ends when sampled, then the timers are polled unless `end` threw |
| Debugger.WebGLDebugger.PushFps | packages/core/src/index.ts:60-63 | the window keeps the newest 60 rates |
| Debugger.WebGLDebugger.GetSnapshot | packages/core/src/index.ts:65-85 | the snapshot of the counters, fps window and timer statistics |
| Debugger.WebGLDebugger.GetResources | packages/core/src/index.ts:87-89 | live counts and list, with the exposed byte total 0 |
| Debugger.WebGLDebugger.GetTimers | packages/core/src/index.ts:91 | the simple timers' statistics |
| Debugger.WebGLDebugger.PushPass | packages/core/src/index.ts:93 | one more post pass, nothing else changes |
| Debugger.WebGLDebugger.IncCustom | packages/core/src/index.ts:94 | the custom counter is bumped by delta, nothing else changes |

## Left out

- The code differs from the intended behaviour in four places, and the model follows the code in each:
  - `estimatePrims` returns `count` unclamped for POINTS.
  - `del` decrements the *deleter's* kind, so per-kind counts agree with the list only when the kinds match (`Resources.DelAgrees`).
  - The `estBytes` the tracker object exposes is a copy taken at creation and stays 0.
  - VAOs created through `createVertexArrayOES` are not tracked.
- Some upload accounting exists in the code but is never reached:
  - no wrapper calls `onBufferUpload`;
  - `onTextureUpload` is defined and never called;
  - per-record byte estimates are therefore always absent.
- There is no `setMode`, no re-wrapping and no restoring of original entry points in the code, so none is modelled.
- Time and randomness are parameters: clock readings (`performance.now()`, `Date.now()`) and `Math.random()`.
- Debugger.WebGLDebugger.EndFrame: the fps value `1000 / dur` is a parameter, since floating-point division is not modelled.
- Floating-point values are exact reals:
  - millisecond conversions;
  - sums and averages;
  - fps means.
- Rounding and IEEE special values (`Infinity`, `NaN`) are not modelled.
- Timers.P95Index: `Math.floor(n * 0.95)` is taken as `(95 n) div 100`, the exact decimal value; a floating-point product rounded below an integer would differ.
- Counters, ids and byte totals are unbounded integers. JavaScript numbers lose precision above 2^53.
- The timer id string (`label_Date.now()_Math.random()`) is replaced by a reference that grows with each allocation. Timers are nodes in an arena keyed by that reference, not aliased objects.
- The draw function passed to `timeDrawCall` has no modelled effect beyond running once.
- `getFrameTimeline` (a getter) and `exportTimeline` (JSON with `Date.now()`) are not modelled.
- `exportSession` (JSON), `mountOverlay` and `unmountOverlay` (empty) are not modelled.
- Console output is not modelled:
  - the `logCreates` option;
  - `console.warn`;
  - the captured stack text, which is replaced by a marker.
- `Timers.Drain` and `EnhancedTimers.PollRun` run on state values; the class methods assign the results back to their fields.
- The pattern `ERROR:\s*\d+:(\d+):\s*(.*)` is modelled by a hand-written greedy matcher:
  - `\s` covers the ECMAScript white space set and line terminators, so `\s*` may cross a newline before the message;
  - `.` excludes line terminators.
- `parseInt` is exact on digit strings; JavaScript loses precision above 2^53.
- `String(n)` is not modelled in exponent form (n at least 10^21).
- `toLowerCase` and `toUpperCase` are modelled on ASCII letters only.
- `formatShaderErrorHTML` and `getStyles` (HTML and CSS text for the overlay) are not modelled. The `column` field is never set by the source and is not modelled.
- From the FBO inspector, several operations are not modelled:
  - `compareFramebuffers` (square roots over floats);
  - `exportAsBlob` (canvas and Promise);
  - the 'luminance' histogram channel (float rounding);
  - the float `readPixels` path of `inspectPixel` and `canReadFloats`;
  - the `rgba` and `normalized` Float32 arrays.
- Other FBO details:
  - `readPixels` is the texel oracle;
  - the offscreen canvases are not modelled;
  - the unused `attachment` parameter of `captureFramebuffer` is not modelled;
  - histogram bins are unbounded naturals, not wrapping `Uint32Array` cells;
  - writing defaults back into the caller's options object is not modelled.
- The GL calls themselves are left out, such as beginning, ending and deleting queries on the driver. Only their observable bookkeeping is modelled, such as the query deletion log.
- EnhancedTimers.PollFoldWindows: states only the bound on window sizes; what the windows hold is stated by EnhancedTimers.PollFoldStats and EnhancedTimers.PollStats.
- Debugger.Bump: `counters.custom` is a plain object, modelled as a map from strings. Keys naming `Object.prototype` members behave differently in the source and not in the model. `"constructor"` becomes the inherited function's source text with the delta appended as a string, and `"__proto__"` stores nothing.
- Debugger.WebGLDebugger.IncCustom: the same plain-object keys are not modelled, and `delta` is an integer, so fractional deltas are not modelled.
- Timers.RecordNamed: the label map is a plain object. For a label naming an `Object.prototype` member (`"constructor"`, `"__proto__"`, ...), `map[name] ?? ...` finds the inherited value and the push throws inside `poll`. The model records the sample as for any other label.
- Timers.Stats: the result is a map, so the key order `Object.entries` gives (integer-like labels first, then insertion order) is not modelled.
