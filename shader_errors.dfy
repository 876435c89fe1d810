/**
 * Shader source concatenation with `#line` directives and a line map, and
 * the scan of a GLSL info log for `ERROR: <n>:<line>: <message>` entries
 * that are mapped back to the originating file and line.
 */
module ShaderErrors {
  import opened Wrappers
  import Text

  // ---------------------------------------------------------------------------
  // concatWithLineDirectives
  // ---------------------------------------------------------------------------

  datatype SourceChunk = SourceChunk(file: string, code: string)
  datatype LineEntry = LineEntry(glslLine: nat, file: string, fileLine: nat)
  datatype MappedSource = MappedSource(code: string, entries: seq<LineEntry>)

  /** The directive line emitted before every chunk. */
  const LINE_DIRECTIVE := "#line 1"

  /** `ch.code.split('\n')`. */
  function ChunkLines(ch: SourceChunk): seq<string> {
    Text.Split(ch.code, '\n')
  }

  /** The map entries of one chunk whose first line gets global number `first`. */
  function ChunkEntries(ch: SourceChunk, first: nat): (es: seq<LineEntry>)
    ensures |es| == |ChunkLines(ch)|
  {
    seq(|ChunkLines(ch)|, i requires 0 <= i < |ChunkLines(ch)| => LineEntry(first + i, ch.file, i + 1))
  }

  /** The text lines the output holds for a list of chunks: a directive, then the chunk's lines, for each chunk. */
  function OutputLines(chunks: seq<SourceChunk>): seq<string> {
    if chunks == [] then []
    else OutputLines(chunks[..|chunks| - 1]) + [LINE_DIRECTIVE] + ChunkLines(chunks[|chunks| - 1])
  }

  /** The number of lines the chunks contribute to the map. */
  function TotalLines(chunks: seq<SourceChunk>): nat {
    if chunks == [] then 0 else TotalLines(chunks[..|chunks| - 1]) + |ChunkLines(chunks[|chunks| - 1])|
  }

  /** The result `concatWithLineDirectives` builds, chunk by chunk. */
  function ConcatSpec(chunks: seq<SourceChunk>): MappedSource {
    if chunks == [] then MappedSource("", [])
    else
      var prev := ConcatSpec(chunks[..|chunks| - 1]);
      var ch := chunks[|chunks| - 1];
      MappedSource(prev.code + LINE_DIRECTIVE + "\n" + Text.Terminated(ChunkLines(ch), '\n'),
                   prev.entries + ChunkEntries(ch, |prev.entries| + 1))
  }

  /** The specification of one more chunk, in terms of that of the chunks before it. */
  lemma ConcatSpecStep(chunks: seq<SourceChunk>, j: nat)
    requires j < |chunks|
    ensures var prev := ConcatSpec(chunks[..j]);
      ConcatSpec(chunks[..j + 1]) ==
        MappedSource(prev.code + LINE_DIRECTIVE + "\n" + Text.Terminated(ChunkLines(chunks[j]), '\n'),
                     prev.entries + ChunkEntries(chunks[j], |prev.entries| + 1))
  {
    assert chunks[..j + 1][..j] == chunks[..j];
  }

  /** Emitting line `i` extends the emitted text by that line and a newline. */
  lemma LineStep(head: string, lines: seq<string>, i: nat)
    requires i < |lines|
    ensures head + Text.Terminated(lines[..i + 1], '\n') == head + Text.Terminated(lines[..i], '\n') + lines[i] + "\n"
  {
    assert lines[..i + 1][..i] == lines[..i];
  }

  /** Emitting line `i` extends the map by that line's entry. */
  lemma EntryStep(prev: seq<LineEntry>, es: seq<LineEntry>, i: nat, entries: seq<LineEntry>)
    requires i < |es| && entries == prev + es[..i]
    ensures entries + [es[i]] == prev + es[..i + 1]
  {
    assert es[..i + 1] == es[..i] + [es[i]];
  }

  /**
   * The inner loop of `concatWithLineDirectives` for one chunk: every line of
   * the chunk is appended to the code with a newline, and gets a map entry
   * with the next global line number and its line number in the file.
   */
  method EmitLines(ch: SourceChunk, code0: string, entries0: seq<LineEntry>, glslLine0: nat)
      returns (code: string, entries: seq<LineEntry>, glslLine: nat)
    requires glslLine0 == |entries0| + 1
    ensures code == code0 + Text.Terminated(ChunkLines(ch), '\n')
    ensures entries == entries0 + ChunkEntries(ch, glslLine0)
    ensures glslLine == |entries| + 1
  {
    code, entries, glslLine := code0, entries0, glslLine0;
    ghost var es := ChunkEntries(ch, glslLine0);
    var lines := Text.Split(ch.code, '\n');
    for i := 0 to |lines|
      invariant code == code0 + Text.Terminated(lines[..i], '\n')
      invariant entries == entries0 + es[..i]
      invariant glslLine == glslLine0 + i
    {
      LineStep(code0, lines, i);
      EntryStep(entries0, es, i, entries);
      entries := entries + [LineEntry(glslLine, ch.file, i + 1)];
      code := code + lines[i] + "\n";
      glslLine := glslLine + 1;
    }
    assert lines[..|lines|] == lines;
    assert es[..|lines|] == es;
  }

  /** `concatWithLineDirectives(chunks)`. */
  method ConcatWithLineDirectives(chunks: seq<SourceChunk>) returns (r: MappedSource)
    ensures r == ConcatSpec(chunks)
  {
    var entries: seq<LineEntry> := [];
    var code := "";
    var glslLine: nat := 1;
    for j := 0 to |chunks|
      invariant MappedSource(code, entries) == ConcatSpec(chunks[..j])
      invariant glslLine == |entries| + 1
    {
      ConcatSpecStep(chunks, j);
      code := code + LINE_DIRECTIVE + "\n";
      code, entries, glslLine := EmitLines(chunks[j], code, entries, glslLine);
    }
    assert chunks[..|chunks|] == chunks;
    r := MappedSource(code, entries);
  }

  /** The number of map entries that come before chunk `j`. */
  function Offset(chunks: seq<SourceChunk>, j: nat): nat
    requires j <= |chunks|
  {
    TotalLines(chunks[..j])
  }

  /** A slice of the first part of a concatenation is a slice of that part. */
  lemma SliceLeft(a: seq<LineEntry>, b: seq<LineEntry>, lo: nat, hi: nat)
    requires lo <= hi <= |a|
    ensures (a + b)[lo..hi] == a[lo..hi]
  {
  }

  /** The second part of a concatenation is its slice after the first part. */
  lemma SliceRight(a: seq<LineEntry>, b: seq<LineEntry>)
    ensures (a + b)[|a|..|a| + |b|] == b
  {
  }

  /**
   * The map has one entry per line of every chunk, and global line numbers
   * run 1, 2, 3, ... across all chunks.
   */
  lemma {:induction false} ConcatMapNumbers(chunks: seq<SourceChunk>)
    ensures var m := ConcatSpec(chunks).entries;
      |m| == TotalLines(chunks) &&
      (forall k :: 0 <= k < |m| ==> m[k].glslLine == k + 1)
    decreases |chunks|
  {
    if chunks != [] {
      var init, ch := chunks[..|chunks| - 1], chunks[|chunks| - 1];
      ConcatMapNumbers(init);
      var prev := ConcatSpec(init).entries;
      var es := ChunkEntries(ch, |prev| + 1);
      var m := ConcatSpec(chunks).entries;
      assert m == prev + es;
      forall k | 0 <= k < |m| ensures m[k].glslLine == k + 1 {
        if k >= |prev| {
          assert m[k] == es[k - |prev|];
        }
      }
    }
  }

  /**
   * File line numbers restart at 1 in each chunk: the entries of chunk `j`
   * are the chunk's own entries, starting at position `Offset(chunks, j)`.
   */
  lemma {:induction false} ConcatMapChunk(chunks: seq<SourceChunk>, j: nat)
    requires j < |chunks|
    ensures Offset(chunks, j) + |ChunkLines(chunks[j])| <= |ConcatSpec(chunks).entries|
    ensures ConcatSpec(chunks).entries[Offset(chunks, j)..Offset(chunks, j) + |ChunkLines(chunks[j])|] ==
      ChunkEntries(chunks[j], Offset(chunks, j) + 1)
    decreases |chunks|
  {
    var init, ch := chunks[..|chunks| - 1], chunks[|chunks| - 1];
    var prev := ConcatSpec(init).entries;
    var es := ChunkEntries(ch, |prev| + 1);
    assert ConcatSpec(chunks).entries == prev + es;
    if j < |chunks| - 1 {
      ConcatMapChunk(init, j);
      assert chunks[..j] == init[..j];
      assert init[j] == chunks[j];
      var lo := Offset(init, j);
      var hi := lo + |ChunkLines(init[j])|;
      assert Offset(chunks, j) == lo;
      SliceLeft(prev, es, lo, hi);
      assert (prev + es)[lo..hi] == ChunkEntries(chunks[j], lo + 1);
      assert hi == Offset(chunks, j) + |ChunkLines(chunks[j])|;
    } else {
      ConcatMapNumbers(init);
      assert chunks[..j] == init;
      assert Offset(chunks, j) == |prev|;
      SliceRight(prev, es);
      assert (prev + es)[|prev|..|prev| + |es|] == ChunkEntries(chunks[j], |prev| + 1);
      assert |prev| + |es| == Offset(chunks, j) + |ChunkLines(chunks[j])|;
    }
  }

  /** A list of pieces, none containing the separator, each followed by it, splits back into the pieces and a final empty piece. */
  lemma {:induction false} SplitTerminated(parts: seq<string>, sep: char)
    requires forall k :: 0 <= k < |parts| ==> sep !in parts[k]
    ensures Text.Split(Text.Terminated(parts, sep), sep) == parts + [""]
    decreases |parts|
  {
    if parts == [] {
    } else {
      Text.TerminatedCons(parts[0], parts[1..], sep);
      SplitTerminated(parts[1..], sep);
      Text.SplitPrefix(parts[0], Text.Terminated(parts[1..], sep), sep);
      assert parts == [parts[0]] + parts[1..];
    }
  }

  lemma {:induction false} ConcatCodeTerminated(chunks: seq<SourceChunk>)
    ensures ConcatSpec(chunks).code == Text.Terminated(OutputLines(chunks), '\n')
    decreases |chunks|
  {
    if chunks != [] {
      var init, ch := chunks[..|chunks| - 1], chunks[|chunks| - 1];
      ConcatCodeTerminated(init);
      TerminatedAppend(OutputLines(init) + [LINE_DIRECTIVE], ChunkLines(ch), '\n');
    }
  }

  lemma {:induction false} TerminatedAppend(a: seq<string>, b: seq<string>, term: char)
    ensures Text.Terminated(a + b, term) == Text.Terminated(a, term) + Text.Terminated(b, term)
    decreases |b|
  {
    if b != [] {
      assert (a + b)[..|a + b| - 1] == a + b[..|b| - 1];
      TerminatedAppend(a, b[..|b| - 1], term);
    } else {
      assert a + b == a;
    }
  }

  lemma {:induction false} OutputLinesNoNewline(chunks: seq<SourceChunk>)
    ensures forall k :: 0 <= k < |OutputLines(chunks)| ==> '\n' !in OutputLines(chunks)[k]
    decreases |chunks|
  {
    if chunks != [] {
      OutputLinesNoNewline(chunks[..|chunks| - 1]);
    }
  }

  /**
   * The emitted code, split on '\n', is a `#line 1` directive followed by the
   * chunk's lines for every chunk, then the empty piece after the final
   * newline; joining a chunk's lines back with '\n' gives its code.
   */
  lemma CodeRoundTrip(chunks: seq<SourceChunk>)
    ensures Text.Split(ConcatSpec(chunks).code, '\n') == OutputLines(chunks) + [""]
    ensures forall j :: 0 <= j < |chunks| ==> Text.Join(ChunkLines(chunks[j]), "\n") == chunks[j].code
  {
    ConcatCodeTerminated(chunks);
    OutputLinesNoNewline(chunks);
    SplitTerminated(OutputLines(chunks), '\n');
    forall j | 0 <= j < |chunks| ensures Text.Join(ChunkLines(chunks[j]), "\n") == chunks[j].code {
      Text.JoinSplit(chunks[j].code, '\n');
    }
  }

  // ---------------------------------------------------------------------------
  // The pattern /ERROR:\s*\d+:(\d+):\s*(.*)/g
  // ---------------------------------------------------------------------------

  /** ECMAScript `\s`: white space and line terminators. */
  predicate IsSpace(c: char) {
    c == '\t' || c == '\n' || c == '\U{000B}' || c == '\U{000C}' || c == '\r' || c == ' ' ||
    c == '\U{00A0}' || c == '\U{1680}' || ('\U{2000}' <= c <= '\U{200A}') || c == '\U{2028}' ||
    c == '\U{2029}' || c == '\U{202F}' || c == '\U{205F}' || c == '\U{3000}' || c == '\U{FEFF}'
  }

  /** The characters `.` does not match. */
  predicate IsLineTerminator(c: char) {
    c == '\n' || c == '\r' || c == '\U{2028}' || c == '\U{2029}'
  }

  /** The end of the longest run of white space starting at `i`. */
  function SkipSpaces(s: string, i: nat): (j: nat)
    requires i <= |s|
    ensures i <= j <= |s|
    decreases |s| - i
  {
    if i < |s| && IsSpace(s[i]) then SkipSpaces(s, i + 1) else i
  }

  /** The end of the longest run of decimal digits starting at `i`. */
  function SkipDigits(s: string, i: nat): (j: nat)
    requires i <= |s|
    ensures i <= j <= |s|
    decreases |s| - i
  {
    if i < |s| && Text.IsDigit(s[i]) then SkipDigits(s, i + 1) else i
  }

  /** The end of the line starting at `i`: the first line terminator, or the end of the text. */
  function LineEnd(s: string, i: nat): (j: nat)
    requires i <= |s|
    ensures i <= j <= |s|
    decreases |s| - i
  {
    if i < |s| && !IsLineTerminator(s[i]) then LineEnd(s, i + 1) else i
  }

  /** `SkipSpaces` stops at the first character that is not white space. */
  lemma {:induction false} SkipSpacesRun(s: string, i: nat)
    requires i <= |s|
    ensures forall k :: i <= k < SkipSpaces(s, i) ==> IsSpace(s[k])
    ensures SkipSpaces(s, i) < |s| ==> !IsSpace(s[SkipSpaces(s, i)])
    decreases |s| - i
  {
    if i < |s| && IsSpace(s[i]) {
      SkipSpacesRun(s, i + 1);
    }
  }

  /** `SkipDigits` stops at the first character that is not a digit. */
  lemma {:induction false} SkipDigitsRun(s: string, i: nat)
    requires i <= |s|
    ensures forall k :: i <= k < SkipDigits(s, i) ==> Text.IsDigit(s[k])
    ensures SkipDigits(s, i) < |s| ==> !Text.IsDigit(s[SkipDigits(s, i)])
    decreases |s| - i
  {
    if i < |s| && Text.IsDigit(s[i]) {
      SkipDigitsRun(s, i + 1);
    }
  }

  /** `LineEnd` stops at the first line terminator. */
  lemma {:induction false} LineEndRun(s: string, i: nat)
    requires i <= |s|
    ensures forall k :: i <= k < LineEnd(s, i) ==> !IsLineTerminator(s[k])
    ensures LineEnd(s, i) < |s| ==> IsLineTerminator(s[LineEnd(s, i)])
    decreases |s| - i
  {
    if i < |s| && !IsLineTerminator(s[i]) {
      LineEndRun(s, i + 1);
    }
  }

  /**
   * Where the pattern matched: the whole match is `s[start..end]`, capture 1
   * (the line number) is `s[lineStart..lineEnd]` and capture 2 (the message)
   * is `s[msgStart..end]`.
   */
  datatype Span = Span(start: nat, lineStart: nat, lineEnd: nat, msgStart: nat, end: nat)

  /** The match object: where it starts and ends, capture 1 as a number, capture 2 and the matched text. */
  datatype LogMatch = LogMatch(start: nat, end: nat, line: nat, message: string, raw: string)

  const ERROR_TAG := "ERROR:"

  /** The literal "ERROR:" at `p`, compared character by character. */
  predicate TagAt(s: string, p: nat) {
    p + 6 <= |s| && s[p] == 'E' && s[p + 1] == 'R' && s[p + 2] == 'R' && s[p + 3] == 'O' && s[p + 4] == 'R' && s[p + 5] == ':'
  }

  /** `TagAt` is an occurrence of `ERROR_TAG`. */
  lemma TagAtOccurs(s: string, p: nat)
    ensures TagAt(s, p) <==> Text.OccursAt(s, ERROR_TAG, p)
  {
    if Text.OccursAt(s, ERROR_TAG, p) {
      assert s[p..p + 6][0] == 'E' && s[p..p + 6][1] == 'R' && s[p..p + 6][2] == 'R';
      assert s[p..p + 6][3] == 'O' && s[p..p + 6][4] == 'R' && s[p..p + 6][5] == ':';
    }
    if TagAt(s, p) {
      assert s[p..p + 6] == ERROR_TAG;
    }
  }

  /**
   * The pattern anchored at `p`. Every quantifier is followed by a character
   * it cannot match, so the greedy runs are the only way to match.
   */
  function MatchAt(s: string, p: nat): (r: Option<Span>)
    requires p <= |s|
    ensures r.Some? ==> r.value.start == p < r.value.lineStart < r.value.lineEnd < r.value.msgStart <= r.value.end <= |s|
  {
    if !TagAt(s, p) then None
    else
      var a := SkipSpaces(s, p + |ERROR_TAG|);
      var b := SkipDigits(s, a);
      if b == a || b == |s| || s[b] != ':' then None
      else
        var c := SkipDigits(s, b + 1);
        if c == b + 1 || c == |s| || s[c] != ':' then None
        else
          var d := SkipSpaces(s, c + 1);
          Some(Span(p, b + 1, c, d, LineEnd(s, d)))
  }

  /** Whether the pattern matches at `p`. */
  predicate MatchesAt(s: string, p: nat) {
    p <= |s| && MatchAt(s, p).Some?
  }

  /** Capture 1 of a match is a run of digits. */
  lemma LineCaptureDigits(s: string, p: nat)
    requires MatchesAt(s, p)
    ensures var sp := MatchAt(s, p).value; forall k :: sp.lineStart <= k < sp.lineEnd ==> Text.IsDigit(s[k])
  {
    SkipDigitsRun(s, MatchAt(s, p).value.lineStart);
  }

  /** The match object `re.exec` returns for the match at `p`. */
  function MatchObject(s: string, p: nat): (m: LogMatch)
    requires MatchesAt(s, p)
    ensures m.start == p < m.end <= |s|
  {
    var sp := MatchAt(s, p).value;
    LineCaptureDigits(s, p);
    LogMatch(p, sp.end, Text.DecimalValue(s[sp.lineStart..sp.lineEnd]), s[sp.msgStart..sp.end], s[p..sp.end])
  }

  /**
   * A match starts with "ERROR:", its raw text is the matched slice, and its
   * message is the rest of the line: it holds no line terminator and is
   * followed by one or by the end of the log.
   */
  lemma MatchAtShape(s: string, p: nat)
    requires MatchesAt(s, p)
    ensures var m := MatchObject(s, p);
      Text.OccursAt(s, ERROR_TAG, p) && m.raw == s[p..m.end] &&
      |m.message| <= m.end - p && m.message == s[m.end - |m.message|..m.end] &&
      (forall k :: 0 <= k < |m.message| ==> !IsLineTerminator(m.message[k])) &&
      (m.end == |s| || IsLineTerminator(s[m.end]))
  {
    TagAtOccurs(s, p);
    LineEndRun(s, MatchAt(s, p).value.msgStart);
  }

  /** The leftmost position in [from, n] at which `hit` holds, if any. */
  function Leftmost(hit: nat -> bool, n: nat, from: nat): (r: Option<nat>)
    requires from <= n
    ensures r.Some? ==> from <= r.value <= n && hit(r.value) && forall q :: from <= q < r.value ==> !hit(q)
    ensures r.None? ==> forall q :: from <= q <= n ==> !hit(q)
    decreases n - from
  {
    if hit(from) then Some(from) else if from == n then None else Leftmost(hit, n, from + 1)
  }

  /** `re.exec(s)` with `re.lastIndex == from`. */
  function Exec(s: string, from: nat): (r: Option<LogMatch>)
    requires from <= |s|
    ensures r.Some? ==> from <= r.value.start < r.value.end <= |s|
  {
    match Leftmost((p: nat) => MatchesAt(s, p), |s|, from)
    case None => None
    case Some(p) => Some(MatchObject(s, p))
  }

  /**
   * `Exec` returns the match object at the leftmost position at or after
   * `from` where the pattern matches, and nothing when it matches nowhere
   * there.
   */
  lemma ExecLeftmost(s: string, from: nat)
    requires from <= |s|
    ensures Exec(s, from).Some? ==> MatchesAt(s, Exec(s, from).value.start) && Exec(s, from).value == MatchObject(s, Exec(s, from).value.start)
    ensures Exec(s, from).Some? ==> forall q :: from <= q < Exec(s, from).value.start ==> !MatchesAt(s, q)
    ensures Exec(s, from).None? ==> forall q :: from <= q <= |s| ==> !MatchesAt(s, q)
  {
    var hit := (p: nat) => MatchesAt(s, p);
    var r := Leftmost(hit, |s|, from);
    forall q: nat | from <= q <= |s| && (r.None? || q < r.value) ensures !MatchesAt(s, q) {
      assert !hit(q);
    }
  }

  /** Every match of the global pattern from `from` on, in order. */
  function MatchesFrom(s: string, from: nat): seq<LogMatch>
    requires from <= |s|
    decreases |s| - from
  {
    match Exec(s, from)
    case None => []
    case Some(m) => [m] + MatchesFrom(s, m.end)
  }

  /** Matches that lie within [from, n], do not overlap and come in order. */
  ghost predicate Ordered(ms: seq<LogMatch>, from: nat, n: nat) {
    (forall i :: 0 <= i < |ms| ==> from <= ms[i].start < ms[i].end <= n) &&
    (forall i, j :: 0 <= i < j < |ms| ==> ms[i].end <= ms[j].start)
  }

  /** A match followed by ordered matches after its end is ordered. */
  lemma OrderedCons(m: LogMatch, rest: seq<LogMatch>, from: nat, n: nat)
    requires from <= m.start < m.end <= n && Ordered(rest, m.end, n)
    ensures Ordered([m] + rest, from, n)
  {
    var ms := [m] + rest;
    forall i | 0 <= i < |ms| ensures from <= ms[i].start < ms[i].end <= n {
      if i > 0 {
        assert ms[i] == rest[i - 1];
      }
    }
    forall i, j | 0 <= i < j < |ms| ensures ms[i].end <= ms[j].start {
      assert ms[j] == rest[j - 1];
      if i > 0 {
        assert ms[i] == rest[i - 1];
      }
    }
  }

  /** The matches lie after `from`, do not overlap and come in log order. */
  lemma {:induction false} MatchesOrdered(s: string, from: nat)
    requires from <= |s|
    ensures Ordered(MatchesFrom(s, from), from, |s|)
    decreases |s| - from
  {
    match Exec(s, from)
    case None =>
    case Some(m) =>
      MatchesOrdered(s, m.end);
      OrderedCons(m, MatchesFrom(s, m.end), from, |s|);
  }

  /** Each element of the list is the match object of a match of the pattern at its own start. */
  lemma {:induction false} MatchesAreMatches(s: string, from: nat, i: nat)
    requires from <= |s| && i < |MatchesFrom(s, from)|
    ensures MatchesAt(s, MatchesFrom(s, from)[i].start)
    ensures MatchesFrom(s, from)[i] == MatchObject(s, MatchesFrom(s, from)[i].start)
    decreases |s| - from
  {
    var m := Exec(s, from).value;
    ExecLeftmost(s, from);
    assert MatchesFrom(s, from) == [m] + MatchesFrom(s, m.end);
    if i > 0 {
      MatchesAreMatches(s, m.end, i - 1);
    }
  }

  /** A log in which "ERROR:" never occurs has no match. */
  lemma NoTagNoMatch(s: string)
    requires forall p :: 0 <= p <= |s| ==> !Text.OccursAt(s, ERROR_TAG, p)
    ensures MatchesFrom(s, 0) == []
  {
    ExecLeftmost(s, 0);
    match Exec(s, 0)
    case None =>
    case Some(m) =>
      MatchAtShape(s, m.start);
      assert false;
  }

  /**
   * `s` from `p` reads "ERROR:", white space up to `a`, digits up to `b`,
   * ':', digits up to `c`, ':', white space up to `d` (ended by a character
   * that is not white space) and no line terminator up to `e`, which ends the
   * line.
   */
  ghost predicate Shaped(s: string, p: nat, a: nat, b: nat, c: nat, d: nat, e: nat) {
    TagAt(s, p) && p + 6 <= a < b && b + 1 < c < |s| && c + 1 <= d <= e <= |s| &&
    (forall k :: p + 6 <= k < a ==> IsSpace(s[k])) &&
    (forall k :: a <= k < b ==> Text.IsDigit(s[k])) && s[b] == ':' &&
    (forall k :: b + 1 <= k < c ==> Text.IsDigit(s[k])) && s[c] == ':' &&
    (forall k :: c + 1 <= k < d ==> IsSpace(s[k])) && (d == |s| || !IsSpace(s[d])) &&
    (forall k :: d <= k < e ==> !IsLineTerminator(s[k])) && (e == |s| || IsLineTerminator(s[e]))
  }

  /** The converse of `MatchAtShape`: a text so shaped matches with exactly those captures. */
  lemma MatchAtWhen(s: string, p: nat, a: nat, b: nat, c: nat, d: nat, e: nat)
    requires Shaped(s, p, a, b, c, d, e)
    ensures MatchesAt(s, p) && MatchAt(s, p) == Some(Span(p, b + 1, c, d, e))
  {
    SkipSpacesTo(s, p + 6, a);
    SkipDigitsTo(s, a, b);
    SkipDigitsTo(s, b + 1, c);
    SkipSpacesTo(s, c + 1, d);
    LineEndTo(s, d, e);
    MatchAtFrom(s, p, a, b, c, d, e);
  }

  /** The match read off where each greedy run stops. */
  lemma MatchAtFrom(s: string, p: nat, a: nat, b: nat, c: nat, d: nat, e: nat)
    requires TagAt(s, p) && p + 6 <= a < b && b + 1 < c < |s| && c + 1 <= d <= e <= |s| && s[b] == ':' && s[c] == ':'
    requires SkipSpaces(s, p + 6) == a && SkipDigits(s, a) == b && SkipDigits(s, b + 1) == c
    requires SkipSpaces(s, c + 1) == d && LineEnd(s, d) == e
    ensures MatchesAt(s, p) && MatchAt(s, p) == Some(Span(p, b + 1, c, d, e))
  {
    assert |ERROR_TAG| == 6;
  }

  /** The match object of a text so shaped: capture 1 read as a number, capture 2 and the matched text. */
  lemma MatchObjectWhen(s: string, p: nat, a: nat, b: nat, c: nat, d: nat, e: nat, digits: string, message: string, raw: string)
    requires Shaped(s, p, a, b, c, d, e)
    requires s[b + 1..c] == digits && s[d..e] == message && s[p..e] == raw
    ensures MatchesAt(s, p)
    ensures MatchObject(s, p) == LogMatch(p, e, Text.DecimalValue(digits), message, raw)
  {
    MatchAtWhen(s, p, a, b, c, d, e);
  }

  /** `ERROR: <k>:<n>: <message>`, the line a GLSL compiler writes for an error, with `k` and `n` in decimal. */
  function Rendered(k: string, n: string, message: string): string {
    ERROR_TAG + " " + k + ":" + n + ": " + message
  }

  /** Where the pieces of a rendered line lie. */
  lemma RenderedShaped(k: string, n: string, message: string, rest: string)
    requires |k| >= 1 && forall i :: 0 <= i < |k| ==> Text.IsDigit(k[i])
    requires |n| >= 1 && forall i :: 0 <= i < |n| ==> Text.IsDigit(n[i])
    requires message != [] && !IsSpace(message[0])
    requires forall i :: 0 <= i < |message| ==> !IsLineTerminator(message[i])
    requires rest == [] || IsLineTerminator(rest[0])
    ensures Shaped(Rendered(k, n, message) + rest, 0, 7, 7 + |k|, 8 + |k| + |n|, 10 + |k| + |n|, |Rendered(k, n, message)|)
  {
    var line := Rendered(k, n, message);
    var s := line + rest;
    forall i | 7 <= i < 7 + |k| ensures Text.IsDigit(s[i]) {
      assert s[i] == k[i - 7];
    }
    forall i | 8 + |k| <= i < 8 + |k| + |n| ensures Text.IsDigit(s[i]) {
      assert s[i] == n[i - (8 + |k|)];
    }
    forall i | 10 + |k| + |n| <= i < |line| ensures !IsLineTerminator(s[i]) {
      assert s[i] == message[i - (10 + |k| + |n|)];
    }
    assert s[7 + |k|] == ':' && s[8 + |k| + |n|] == ':' && s[9 + |k| + |n|] == ' ';
    assert s[10 + |k| + |n|] == message[0];
    assert |line| == |s| || s[|line|] == rest[0];
    assert TagAt(s, 0);
  }

  /** The slices of a rendered line that the captures take. */
  lemma RenderedSlices(k: string, n: string, message: string, rest: string)
    ensures var s := Rendered(k, n, message) + rest;
      var c := 8 + |k| + |n|;
      |Rendered(k, n, message)| == c + 2 + |message| <= |s| &&
      s[7 + |k| + 1..c] == n && s[10 + |k| + |n|..|Rendered(k, n, message)|] == message &&
      s[0..|Rendered(k, n, message)|] == Rendered(k, n, message)
  {
    var s := Rendered(k, n, message) + rest;
    var c := 8 + |k| + |n|;
    assert s == ERROR_TAG + " " + k + ":" + n + (": " + message + rest);
    assert s == ERROR_TAG + " " + k + ":" + n + ": " + message + rest;
  }

  /** A rendered line with any digit strings matches, with capture 1 read as a number. */
  lemma RenderedMatch(k: string, n: string, message: string, rest: string)
    requires |k| >= 1 && forall i :: 0 <= i < |k| ==> Text.IsDigit(k[i])
    requires |n| >= 1 && forall i :: 0 <= i < |n| ==> Text.IsDigit(n[i])
    requires message != [] && !IsSpace(message[0])
    requires forall i :: 0 <= i < |message| ==> !IsLineTerminator(message[i])
    requires rest == [] || IsLineTerminator(rest[0])
    ensures MatchesAt(Rendered(k, n, message) + rest, 0)
    ensures MatchObject(Rendered(k, n, message) + rest, 0) ==
      LogMatch(0, |Rendered(k, n, message)|, Text.DecimalValue(n), message, Rendered(k, n, message))
  {
    var line := Rendered(k, n, message);
    RenderedShaped(k, n, message, rest);
    RenderedSlices(k, n, message, rest);
    MatchObjectWhen(line + rest, 0, 7, 7 + |k|, 8 + |k| + |n|, 10 + |k| + |n|, |line|, n, message, line);
  }

  /**
   * A log line rendered as `ERROR: <k>:<n>: <message>` and ended by a line
   * terminator or the end of the log matches with line `n` and that message.
   * The message must not start with white space: `\s*` would take it, and,
   * as line terminators are white space too, an empty message would make
   * capture 2 the next line of the log.
   */
  lemma RenderedLineMatches(k: nat, n: nat, message: string, rest: string)
    requires message != [] && !IsSpace(message[0])
    requires forall i :: 0 <= i < |message| ==> !IsLineTerminator(message[i])
    requires rest == [] || IsLineTerminator(rest[0])
    ensures var line := Rendered(Text.NatToString(k), Text.NatToString(n), message);
      MatchesAt(line + rest, 0) && MatchObject(line + rest, 0) == LogMatch(0, |line|, n, message, line)
  {
    Text.DecimalRoundTrip(k);
    Text.DecimalRoundTrip(n);
    RenderedMatch(Text.NatToString(k), Text.NatToString(n), message, rest);
  }

  lemma {:induction false} SkipSpacesTo(s: string, i: nat, j: nat)
    requires i <= j <= |s|
    requires forall k :: i <= k < j ==> IsSpace(s[k])
    requires j == |s| || !IsSpace(s[j])
    ensures SkipSpaces(s, i) == j
    decreases j - i
  {
    if i < j {
      SkipSpacesTo(s, i + 1, j);
    }
  }

  lemma {:induction false} SkipDigitsTo(s: string, i: nat, j: nat)
    requires i <= j <= |s|
    requires forall k :: i <= k < j ==> Text.IsDigit(s[k])
    requires j < |s| && !Text.IsDigit(s[j])
    ensures SkipDigits(s, i) == j
    decreases j - i
  {
    if i < j {
      SkipDigitsTo(s, i + 1, j);
    }
  }

  lemma {:induction false} LineEndTo(s: string, i: nat, j: nat)
    requires i <= j <= |s|
    requires forall k :: i <= k < j ==> !IsLineTerminator(s[k])
    requires j == |s| || IsLineTerminator(s[j])
    ensures LineEnd(s, i) == j
    decreases j - i
  {
    if i < j {
      LineEndTo(s, i + 1, j);
    }
  }

  // ---------------------------------------------------------------------------
  // parseGLSLInfoLog
  // ---------------------------------------------------------------------------

  datatype ParsedError = ParsedError(file: string, line: nat, message: string, raw: string)

  /** `entries.findIndex(e => e.glslLine === line)`: the first entry for that line, or -1. */
  function FindLine(entries: seq<LineEntry>, line: nat): (i: int)
    ensures -1 <= i < |entries|
    ensures i >= 0 ==> entries[i].glslLine == line && forall k :: 0 <= k < i ==> entries[k].glslLine != line
    ensures i == -1 ==> forall k :: 0 <= k < |entries| ==> entries[k].glslLine != line
  {
    if entries == [] then -1
    else if entries[0].glslLine == line then 0
    else
      var i := FindLine(entries[1..], line);
      if i == -1 then -1 else i + 1
  }

  /** The error one match yields, when its line is in the entries. */
  function Resolve(m: LogMatch, entries: seq<LineEntry>): Option<ParsedError> {
    var i := FindLine(entries, m.line);
    if i < 0 then None else Some(ParsedError(entries[i].file, entries[i].fileLine, m.message, m.raw))
  }

  /** The errors a list of matches yields, in order. */
  function ResolveAll(ms: seq<LogMatch>, entries: seq<LineEntry>): seq<ParsedError> {
    if ms == [] then []
    else
      var init := ResolveAll(ms[..|ms| - 1], entries);
      match Resolve(ms[|ms| - 1], entries)
      case None => init
      case Some(e) => init + [e]
  }

  /** What `parseGLSLInfoLog(info, mapped)` returns. */
  function ParseSpec(info: string, entries: seq<LineEntry>): seq<ParsedError> {
    ResolveAll(MatchesFrom(info, 0), entries)
  }

  /** Resolving one more match appends its error, when it has one. */
  lemma ResolveAllSnoc(ms: seq<LogMatch>, m: LogMatch, entries: seq<LineEntry>)
    ensures Resolve(m, entries).None? ==> ResolveAll(ms + [m], entries) == ResolveAll(ms, entries)
    ensures Resolve(m, entries).Some? ==> ResolveAll(ms + [m], entries) == ResolveAll(ms, entries) + [Resolve(m, entries).value]
  {
    assert (ms + [m])[..|ms|] == ms;
  }

  /** Moving the next match from the ones to come to the ones seen keeps the whole list. */
  lemma ShiftSeen(all: seq<LogMatch>, seen: seq<LogMatch>, m: LogMatch, rest: seq<LogMatch>)
    requires all == seen + ([m] + rest)
    ensures all == (seen + [m]) + rest
  {
  }

  /** One more `exec` moves its match from the matches still to come to the ones seen. */
  lemma MatchesStep(s: string, seen: seq<LogMatch>, from: nat)
    requires from <= |s| && MatchesFrom(s, 0) == seen + MatchesFrom(s, from)
    ensures Exec(s, from).Some? ==>
      MatchesFrom(s, 0) == (seen + [Exec(s, from).value]) + MatchesFrom(s, Exec(s, from).value.end)
    ensures Exec(s, from).None? ==> MatchesFrom(s, 0) == seen
  {
    match Exec(s, from)
    case None =>
      assert seen + [] == seen;
    case Some(m) =>
      assert MatchesFrom(s, from) == [m] + MatchesFrom(s, m.end);
      ShiftSeen(MatchesFrom(s, 0), seen, m, MatchesFrom(s, m.end));
  }

  /** `parseGLSLInfoLog(info, mapped)`: the `re.exec` loop. */
  method ParseGLSLInfoLog(info: string, mapped: MappedSource) returns (out: seq<ParsedError>)
    ensures out == ParseSpec(info, mapped.entries)
  {
    out := [];
    var lastIndex := 0;
    ghost var seen: seq<LogMatch> := [];
    while true
      invariant lastIndex <= |info|
      invariant MatchesFrom(info, 0) == seen + MatchesFrom(info, lastIndex)
      invariant out == ResolveAll(seen, mapped.entries)
      decreases |info| - lastIndex
    {
      MatchesStep(info, seen, lastIndex);
      match Exec(info, lastIndex)
      case None =>
        break;
      case Some(m) =>
        var i := FindLine(mapped.entries, m.line);
        ResolveAllSnoc(seen, m, mapped.entries);
        if i >= 0 {
          out := out + [ParsedError(mapped.entries[i].file, mapped.entries[i].fileLine, m.message, m.raw)];
        }
        seen := seen + [m];
        lastIndex := m.end;
    }
  }

  /** The matches, among `ms`, whose line is in the entries, by position. */
  function Hits(ms: seq<LogMatch>, entries: seq<LineEntry>): seq<nat> {
    if ms == [] then []
    else
      var init := Hits(ms[..|ms| - 1], entries);
      if FindLine(entries, ms[|ms| - 1].line) >= 0 then init + [|ms| - 1] else init
  }

  /**
   * Each result comes from exactly one match, in log order: result `i` is
   * match `idx[i]` resolved through the first entries entry for its line, the
   * positions increase, and a match is used exactly when its line is mapped.
   */
  lemma {:induction false} ResolveAllOrder(ms: seq<LogMatch>, entries: seq<LineEntry>)
    ensures var out, idx := ResolveAll(ms, entries), Hits(ms, entries);
      |idx| == |out| <= |ms| &&
      (forall i, j :: 0 <= i < j < |idx| ==> idx[i] < idx[j]) &&
      (forall i :: 0 <= i < |idx| ==> idx[i] < |ms| && Resolve(ms[idx[i]], entries) == Some(out[i])) &&
      (forall j :: 0 <= j < |ms| ==> (j in idx <==> FindLine(entries, ms[j].line) >= 0))
    decreases |ms|
  {
    if ms != [] {
      var init := ms[..|ms| - 1];
      ResolveAllOrder(init, entries);
      var out, idx := ResolveAll(ms, entries), Hits(ms, entries);
      forall j | 0 <= j < |ms| ensures j in idx <==> FindLine(entries, ms[j].line) >= 0 {
        if j < |ms| - 1 {
          assert ms[j] == init[j];
        }
      }
    }
  }

  /**
   * Every parsed error comes from a match of the pattern in the log whose
   * line number is in the entries: file and line are those of the first entry
   * for it, message is capture 2 and raw the matched text.
   */
  lemma ParsedErrorsComeFromMatches(info: string, entries: seq<LineEntry>)
    ensures forall e :: e in ParseSpec(info, entries) ==>
      exists m :: (m in MatchesFrom(info, 0) && FindLine(entries, m.line) >= 0 &&
        e == ParsedError(entries[FindLine(entries, m.line)].file, entries[FindLine(entries, m.line)].fileLine, m.message, m.raw))
  {
    var ms := MatchesFrom(info, 0);
    ResolveAllOrder(ms, entries);
    var out, idx := ResolveAll(ms, entries), Hits(ms, entries);
    forall e | e in out
      ensures exists m :: (m in ms && FindLine(entries, m.line) >= 0 &&
        e == ParsedError(entries[FindLine(entries, m.line)].file, entries[FindLine(entries, m.line)].fileLine, m.message, m.raw))
    {
      var i :| 0 <= i < |out| && out[i] == e;
      assert ms[idx[i]] in ms;
    }
  }
}
