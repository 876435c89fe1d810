/**
 * The shader error formatter of shaderErrorEnhanced.ts
 * (`ShaderErrorFormatter.formatShaderError`): it extracts the errors of a
 * GLSL info log with the same `ERROR: <n>:<line>: <message>` pattern as
 * shaderErrors.ts (modelled in `ShaderErrors`), numbers the lines of the
 * shader source, renders each error with up to three lines of context on
 * either side, and classifies every error as a warning when its message
 * mentions "warning" in any letter case.
 */
module ShaderErrorEnhanced {
  import Text
  import ShaderErrors

  datatype ShaderType = Vertex | Fragment

  /** The name of the shader type as passed in: 'vertex' or 'fragment'. */
  function TypeName(t: ShaderType): string {
    match t
    case Vertex => "vertex"
    case Fragment => "fragment"
  }

  datatype Severity = Error | Warning

  /** One reported error. The optional `column` of the record is never set and is left out. */
  datatype ShaderErrorInfo = ShaderErrorInfo(line: nat, message: string, severity: Severity, source: ShaderType)

  datatype EnhancedShaderError = EnhancedShaderError(errors: seq<ShaderErrorInfo>, formattedOutput: string, sourceWithLineNumbers: string)

  /** Source lines shown on each side of an error line. */
  const CONTEXT_LINES: nat := 3

  // ---------------------------------------------------------------------------
  // Error extraction
  // ---------------------------------------------------------------------------

  /** The record pushed for one match of the log: always an error of the shader being formatted. */
  function Recorded(m: ShaderErrors.LogMatch, t: ShaderType): ShaderErrorInfo {
    ShaderErrorInfo(m.line, m.message, Error, t)
  }

  /** The records pushed for the matches `ms`, in order. */
  function Pushed(ms: seq<ShaderErrors.LogMatch>, t: ShaderType): (es: seq<ShaderErrorInfo>)
    ensures |es| == |ms|
  {
    seq(|ms|, i requires 0 <= i < |ms| => Recorded(ms[i], t))
  }

  lemma PushedSnoc(ms: seq<ShaderErrors.LogMatch>, m: ShaderErrors.LogMatch, t: ShaderType)
    ensures Pushed(ms + [m], t) == Pushed(ms, t) + [Recorded(m, t)]
  {
    assert forall i :: 0 <= i < |ms| ==> (ms + [m])[i] == ms[i];
  }

  /** The `exec` loop over the log: one record per match, in log order. */
  method ExtractErrors(infoLog: string, t: ShaderType) returns (errors: seq<ShaderErrorInfo>)
    ensures errors == Pushed(ShaderErrors.MatchesFrom(infoLog, 0), t)
  {
    errors := [];
    var lastIndex := 0;
    ghost var seen: seq<ShaderErrors.LogMatch> := [];
    while true
      invariant lastIndex <= |infoLog|
      invariant ShaderErrors.MatchesFrom(infoLog, 0) == seen + ShaderErrors.MatchesFrom(infoLog, lastIndex)
      invariant errors == Pushed(seen, t)
      decreases |infoLog| - lastIndex
    {
      ShaderErrors.MatchesStep(infoLog, seen, lastIndex);
      match ShaderErrors.Exec(infoLog, lastIndex)
      case None =>
        break;
      case Some(m) =>
        PushedSnoc(seen, m, t);
        errors := errors + [Recorded(m, t)];
        seen := seen + [m];
        lastIndex := m.end;
    }
  }

  /** The final `errors.map`: the severity follows the lower-cased message, the source is the shader type. */
  function Classify(e: ShaderErrorInfo, t: ShaderType): (r: ShaderErrorInfo)
    ensures r.line == e.line && r.message == e.message && r.source == t
    ensures r.severity == Warning <==> exists i :: Text.OccursAt(Text.ToLower(e.message), "warning", i)
  {
    e.(severity := if Text.Contains(Text.ToLower(e.message), "warning") then Warning else Error, source := t)
  }

  function Classified(es: seq<ShaderErrorInfo>, t: ShaderType): (r: seq<ShaderErrorInfo>)
    ensures |r| == |es|
  {
    seq(|es|, i requires 0 <= i < |es| => Classify(es[i], t))
  }

  // ---------------------------------------------------------------------------
  // Line numbers
  // ---------------------------------------------------------------------------

  /** The gutter of line number `n`: the number left-padded with spaces to width 4, then " | ". */
  function Gutter(n: nat): string {
    Text.PadStart(Text.NatToString(n), 4, ' ') + " | "
  }

  /** A gutter reads as spaces, then the decimal digits of the line number (which read
      back as that number, see `Text.DecimalRoundTrip`), then " | ". */
  lemma GutterReadsNumber(n: nat)
    ensures |Text.NatToString(n)| + 3 <= |Gutter(n)|
    ensures Gutter(n)[|Gutter(n)| - 3 - |Text.NatToString(n)|..] == Text.NatToString(n) + " | "
    ensures forall i :: 0 <= i < |Gutter(n)| - 3 - |Text.NatToString(n)| ==> Gutter(n)[i] == ' '
  {
    var d := Text.NatToString(n);
    var p := Text.PadStart(d, 4, ' ');
    assert Gutter(n) == p + " | ";
    assert (p + " | ")[|p| - |d|..] == p[|p| - |d|..] + " | ";
  }

  /** A source line behind the gutter of its number. */
  function Numbered(n: nat, line: string): string {
    Gutter(n) + line
  }

  /** A numbered line breaks only where its source line does. */
  lemma NumberedNoNewline(n: nat, line: string)
    requires '\n' !in line
    ensures '\n' !in Numbered(n, line)
  {
    var d := Text.NatToString(n);
    var p := Text.PadStart(d, 4, ' ');
    Text.DecimalRoundTrip(n);
    forall i | 0 <= i < |p| ensures p[i] != '\n' {
      if i >= |p| - |d| {
        assert p[i] == p[|p| - |d|..][i - (|p| - |d|)];
      }
    }
    assert Numbered(n, line) == p + " | " + line;
  }

  /** The source lines, each behind the gutter of its 1-based number. */
  function NumberedLines(lines: seq<string>): (r: seq<string>)
    ensures |r| == |lines| && forall i :: 0 <= i < |lines| ==> r[i] == Numbered(i + 1, lines[i])
  {
    seq(|lines|, i requires 0 <= i < |lines| => Numbered(i + 1, lines[i]))
  }

  /** `sourceWithLineNumbers`. */
  function NumberedSource(source: string): string {
    Text.Join(NumberedLines(Text.Split(source, '\n')), "\n")
  }

  /**
   * The numbered source has exactly one line per source line: line `i` is
   * the gutter of number `i + 1` followed by source line `i`.
   */
  lemma NumberedSourceLines(source: string)
    ensures var lines := Text.Split(source, '\n');
      var out := Text.Split(NumberedSource(source), '\n');
      |out| == |lines| && forall i :: 0 <= i < |lines| ==> out[i] == Numbered(i + 1, lines[i])
  {
    var lines := Text.Split(source, '\n');
    assert NumberedSource(source) == Text.Join(NumberedLines(lines), "\n");
    NumberedLinesSplit(lines);
  }

  /** Joining numbered lines that hold no newline and splitting again gives them back. */
  lemma NumberedLinesSplit(lines: seq<string>)
    requires |lines| >= 1 && forall k :: 0 <= k < |lines| ==> '\n' !in lines[k]
    ensures Text.Split(Text.Join(NumberedLines(lines), "\n"), '\n') == NumberedLines(lines)
  {
    var numbered := NumberedLines(lines);
    forall k | 0 <= k < |numbered| ensures '\n' !in numbered[k] {
      NumberedNoNewline(k + 1, lines[k]);
    }
    Text.SplitJoin(numbered, '\n');
  }

  // ---------------------------------------------------------------------------
  // Context of an error
  // ---------------------------------------------------------------------------

  /** `Math.max(0, lineNum - CONTEXT_LINES)`. */
  function ContextStart(lineNum: int): nat {
    if lineNum - CONTEXT_LINES > 0 then lineNum - CONTEXT_LINES else 0
  }

  /** `Math.min(lines.length - 1, lineNum + CONTEXT_LINES)`. */
  function ContextEnd(count: nat, lineNum: int): int {
    if count - 1 < lineNum + CONTEXT_LINES then count - 1 else lineNum + CONTEXT_LINES
  }

  const RED := "\U{1B}[31m"
  const RESET := "\U{1B}[0m"
  const CARET := "        ^^^"

  /** A line with its marker character and a blank in front. */
  function Shown(marker: char, numbered: string): string {
    [marker] + " " + numbered
  }

  /** The error line: in red, followed by a red caret line. */
  function Highlighted(shown: string): string {
    RED + shown + RESET + "\n" + RED + CARET + RESET
  }

  /** Context line `i` for the error at 0-based line `lineNum`: marked, coloured and pointed at when it is that line. */
  function ContextLine(lines: seq<string>, i: nat, lineNum: int): string
    requires i < |lines|
  {
    var shown := Shown(if i == lineNum then '>' else ' ', Numbered(i + 1, lines[i]));
    if i == lineNum then Highlighted(shown) else shown
  }

  lemma ShownShape(marker: char, numbered: string)
    ensures Shown(marker, numbered)[0] == marker
    ensures Text.OccursAt(Shown(marker, numbered), numbered, 2)
  {
    Text.OccursBetween([marker] + " ", numbered, "");
    assert [marker] + " " + numbered + "" == Shown(marker, numbered);
  }

  lemma HighlightedShape(shown: string)
    requires shown != []
    ensures Highlighted(shown)[0] == RED[0] && Highlighted(shown)[|RED|] == shown[0]
    ensures Text.OccursAt(Highlighted(shown), shown, |RED|)
    ensures Text.OccursAt(Highlighted(shown), CARET + RESET, |Highlighted(shown)| - |CARET + RESET|)
  {
    var h := Highlighted(shown);
    var tail := RESET + "\n" + RED + CARET + RESET;
    assert h == RED + shown + tail;
    Text.OccursBetween(RED, shown, tail);
    var head := RED + shown + RESET + "\n" + RED;
    assert h == head + (CARET + RESET) + "";
    Text.OccursBetween(head, CARET + RESET, "");
  }

  /**
   * A context line shows the numbered source line; only the error line
   * carries the '>' marker (behind the colour code) and the caret line,
   * every other line starts with a blank.
   */
  lemma ContextLineShape(lines: seq<string>, i: nat, lineNum: int)
    requires i < |lines|
    ensures ContextLine(lines, i, lineNum)[0] == ' ' <==> i != lineNum
    ensures i == lineNum ==>
      var cl := ContextLine(lines, i, lineNum);
      cl[|RED|] == '>' && Text.OccursAt(cl, CARET + RESET, |cl| - |CARET + RESET|)
    ensures Text.OccursAt(ContextLine(lines, i, lineNum), Numbered(i + 1, lines[i]), if i == lineNum then |RED| + 2 else 2)
  {
    if i == lineNum {
      MarkedShape(Numbered(i + 1, lines[i]));
    } else {
      ShownShape(' ', Numbered(i + 1, lines[i]));
    }
  }

  /** The marked line starts with the colour code, then '>', and ends with the caret line. */
  lemma MarkedShape(numbered: string)
    ensures var cl := Highlighted(Shown('>', numbered));
      cl[0] != ' ' && cl[|RED|] == '>' && Text.OccursAt(cl, CARET + RESET, |cl| - |CARET + RESET|) &&
      Text.OccursAt(cl, numbered, |RED| + 2)
  {
    var shown := Shown('>', numbered);
    ShownShape('>', numbered);
    HighlightedShape(shown);
    Text.OccursWithin(Highlighted(shown), shown, |RED|, numbered, 2);
  }

  /** Context lines `lo` up to, not including, `i`, in source order. */
  function ContextSpan(lines: seq<string>, lineNum: int, lo: nat, i: nat): (r: seq<string>)
    requires lo <= i <= |lines|
    ensures |r| == i - lo
    decreases i
  {
    if i == lo then [] else ContextSpan(lines, lineNum, lo, i - 1) + [ContextLine(lines, i - 1, lineNum)]
  }

  lemma {:induction false} ContextSpanAt(lines: seq<string>, lineNum: int, lo: nat, i: nat, j: nat)
    requires lo <= i <= |lines| && j < i - lo
    ensures ContextSpan(lines, lineNum, lo, i)[j] == ContextLine(lines, lo + j, lineNum)
    decreases i
  {
    var init, last := ContextSpan(lines, lineNum, lo, i - 1), ContextLine(lines, i - 1, lineNum);
    assert ContextSpan(lines, lineNum, lo, i) == init + [last];
    if j < i - 1 - lo {
      ContextSpanAt(lines, lineNum, lo, i - 1, j);
      assert (init + [last])[j] == init[j];
    } else {
      assert (init + [last])[j] == last && i - 1 == lo + j;
    }
  }

  /** The context lines for the error at 0-based line `lineNum`. */
  function Context(lines: seq<string>, lineNum: int): seq<string>
    requires |lines| >= 1
  {
    var lo, hi := ContextStart(lineNum), ContextEnd(|lines|, lineNum);
    if hi < lo then [] else ContextSpan(lines, lineNum, lo, hi + 1)
  }

  /**
   * The context shows source line `i` exactly when it is at most three lines
   * from the error line, each once and in order; an error line past the end
   * of the source has no context.
   */
  lemma ContextWindow(lines: seq<string>, lineNum: int)
    requires |lines| >= 1
    ensures var ctx := Context(lines, lineNum);
      (forall j :: 0 <= j < |ctx| ==>
        var i := ContextStart(lineNum) + j;
        i < |lines| && lineNum - CONTEXT_LINES <= i <= lineNum + CONTEXT_LINES && ctx[j] == ContextLine(lines, i, lineNum)) &&
      (forall i :: 0 <= i < |lines| && lineNum - CONTEXT_LINES <= i <= lineNum + CONTEXT_LINES ==>
        ContextStart(lineNum) <= i < ContextStart(lineNum) + |ctx| && ctx[i - ContextStart(lineNum)] == ContextLine(lines, i, lineNum))
    ensures lineNum - CONTEXT_LINES >= |lines| ==> Context(lines, lineNum) == []
  {
    var ctx := Context(lines, lineNum);
    var lo, hi := ContextStart(lineNum), ContextEnd(|lines|, lineNum);
    forall j | 0 <= j < |ctx| ensures ctx[j] == ContextLine(lines, lo + j, lineNum) {
      ContextSpanAt(lines, lineNum, lo, hi + 1, j);
    }
    forall i | 0 <= i < |lines| && lineNum - CONTEXT_LINES <= i <= lineNum + CONTEXT_LINES
      ensures lo <= i < lo + |ctx| && ctx[i - lo] == ContextLine(lines, i, lineNum)
    {
      assert ctx[i - lo] == ContextLine(lines, lo + (i - lo), lineNum);
    }
  }

  /** The `for` loop over the context window. */
  method RenderContext(lines: seq<string>, lineNum: int) returns (out: seq<string>)
    requires |lines| >= 1
    ensures out == Context(lines, lineNum)
  {
    var lo, hi := ContextStart(lineNum), ContextEnd(|lines|, lineNum);
    out := [];
    var i := lo;
    while i <= hi
      invariant lo <= i && (hi < lo ==> i == lo && out == [])
      invariant lo <= hi ==> i <= hi + 1 && out == ContextSpan(lines, lineNum, lo, i)
      decreases hi - i
    {
      out := out + [ContextLine(lines, i, lineNum)];
      i := i + 1;
    }
  }

  // ---------------------------------------------------------------------------
  // Formatted output
  // ---------------------------------------------------------------------------

  /** "<TYPE> SHADER COMPILATION FAILED". */
  function Banner(t: ShaderType): string {
    Text.ToUpper(TypeName(t)) + " SHADER COMPILATION FAILED"
  }

  function Header(t: ShaderType): string {
    "\n\U{1F534} " + Banner(t) + "\n" + Text.Repeat('\U{2550}', 50) + "\n"
  }

  /** "Error <i>/<n> at line <L>:". */
  function HeadingText(idx: nat, count: nat, line: nat): string {
    "Error " + Text.NatToString(idx + 1) + "/" + Text.NatToString(count) + " at line " + Text.NatToString(line) + ":"
  }

  function Heading(e: ShaderErrorInfo, idx: nat, count: nat): string {
    "\n\U{274C} " + HeadingText(idx, count, e.line) + "\n" + "   " + e.message + "\n\n"
  }

  const FOOTER := Text.Repeat('\U{2500}', 50) + "\n" +
    "\U{1F4A1} Tips:\n" +
    "   \U{2022} Check uniform/varying declarations match between shaders\n" +
    "   \U{2022} Verify all variables are declared before use\n" +
    "   \U{2022} Ensure correct GLSL version syntax\n"

  /** The sections pushed for error `idx`: its heading, its context lines and a blank line. */
  function ErrorSections(errs: seq<ShaderErrorInfo>, idx: nat, lines: seq<string>): seq<string>
    requires idx < |errs| && |lines| >= 1
  {
    [Heading(errs[idx], idx, |errs|)] + Context(lines, errs[idx].line - 1) + ["\n"]
  }

  /** The sections pushed for the first `k` errors. */
  function Blocks(errs: seq<ShaderErrorInfo>, k: nat, lines: seq<string>): seq<string>
    requires k <= |errs| && |lines| >= 1
  {
    if k == 0 then [] else Blocks(errs, k - 1, lines) + ErrorSections(errs, k - 1, lines)
  }

  function Sections(errs: seq<ShaderErrorInfo>, lines: seq<string>, t: ShaderType): seq<string>
    requires |lines| >= 1
  {
    [Header(t)] + Blocks(errs, |errs|, lines) + [FOOTER]
  }

  /** The errors as the log yields them, before classification. */
  function RawErrors(infoLog: string, t: ShaderType): seq<ShaderErrorInfo> {
    Pushed(ShaderErrors.MatchesFrom(infoLog, 0), t)
  }

  /** The `formattedOutput` of a formatting call. */
  function Output(source: string, infoLog: string, t: ShaderType): string {
    Text.Concat(Sections(RawErrors(infoLog, t), Text.Split(source, '\n'), t))
  }

  /** The result of `formatShaderError(source, infoLog, shaderType)`. */
  function Format(source: string, infoLog: string, t: ShaderType): EnhancedShaderError {
    EnhancedShaderError(Classified(RawErrors(infoLog, t), t), Output(source, infoLog, t), NumberedSource(source))
  }

  lemma AppendAssoc(a: seq<string>, b: seq<string>, c: seq<string>)
    ensures a + b + c == a + (b + c)
  {
  }

  /** The sections one turn of the `forEach` pushes. */
  method RenderError(errors: seq<ShaderErrorInfo>, idx: nat, lines: seq<string>) returns (block: seq<string>)
    requires idx < |errors| && |lines| >= 1
    ensures block == ErrorSections(errors, idx, lines)
  {
    var context := RenderContext(lines, errors[idx].line - 1);
    block := [Heading(errors[idx], idx, |errors|)] + context + ["\n"];
  }

  /** `formatShaderError`: the extraction loop, the `forEach` over the errors with the context loop inside, and the final map. */
  method FormatShaderError(source: string, infoLog: string, t: ShaderType) returns (r: EnhancedShaderError)
    ensures r == Format(source, infoLog, t)
  {
    var errors := ExtractErrors(infoLog, t);
    var lines := Text.Split(source, '\n');
    var sections := [Header(t)];
    for idx := 0 to |errors|
      invariant sections == [Header(t)] + Blocks(errors, idx, lines)
    {
      var block := RenderError(errors, idx, lines);
      AppendAssoc([Header(t)], Blocks(errors, idx, lines), block);
      sections := sections + block;
    }
    sections := sections + [FOOTER];
    r := EnhancedShaderError(Classified(errors, t), Text.Concat(sections), NumberedSource(source));
  }

  // ---------------------------------------------------------------------------
  // Properties of a formatting call
  // ---------------------------------------------------------------------------

  /**
   * Error `i` comes from match `i` of the pattern on the log: it carries the
   * match's line number and message, the shader type as its source, and is a
   * warning exactly when the lower-cased message contains "warning".
   */
  lemma ErrorsFromLog(source: string, infoLog: string, t: ShaderType, i: nat)
    requires i < |Format(source, infoLog, t).errors|
    ensures var ms := ShaderErrors.MatchesFrom(infoLog, 0);
      var e := Format(source, infoLog, t).errors[i];
      |Format(source, infoLog, t).errors| == |ms| &&
      ShaderErrors.MatchesAt(infoLog, ms[i].start) &&
      e.line == ShaderErrors.MatchObject(infoLog, ms[i].start).line &&
      e.message == ShaderErrors.MatchObject(infoLog, ms[i].start).message &&
      e.source == t &&
      (e.severity == Warning <==> exists k :: Text.OccursAt(Text.ToLower(e.message), "warning", k))
  {
    var ms := ShaderErrors.MatchesFrom(infoLog, 0);
    ShaderErrors.MatchesAreMatches(infoLog, 0, i);
    assert RawErrors(infoLog, t)[i] == Recorded(ms[i], t);
  }

  /** Without errors, the sections are the header and the tips. */
  lemma NoErrorsOutput(lines: seq<string>, t: ShaderType)
    requires |lines| >= 1
    ensures Text.Concat(Sections([], lines, t)) == Header(t) + FOOTER
  {
    assert Sections([], lines, t) == [Header(t), FOOTER];
    Text.ConcatPair(Header(t), FOOTER);
  }

  /** A log in which "ERROR:" never occurs gives no error, and the output is the header and the tips alone. */
  lemma NoTagNoErrors(source: string, infoLog: string, t: ShaderType)
    requires forall p :: 0 <= p <= |infoLog| ==> !Text.OccursAt(infoLog, ShaderErrors.ERROR_TAG, p)
    ensures Format(source, infoLog, t).errors == []
    ensures Format(source, infoLog, t).formattedOutput == Header(t) + FOOTER
  {
    ShaderErrors.NoTagNoMatch(infoLog);
    assert RawErrors(infoLog, t) == [];
    NoErrorsOutput(Text.Split(source, '\n'), t);
  }

  /** A log that starts with a rendered error line yields, first, an error with that line number and message. */
  lemma RenderedLineFirst(source: string, k: nat, n: nat, message: string, rest: string, t: ShaderType)
    requires message != [] && !ShaderErrors.IsSpace(message[0])
    requires forall i :: 0 <= i < |message| ==> !ShaderErrors.IsLineTerminator(message[i])
    requires rest == [] || ShaderErrors.IsLineTerminator(rest[0])
    ensures var log := ShaderErrors.Rendered(Text.NatToString(k), Text.NatToString(n), message) + rest;
      var errs := Format(source, log, t).errors;
      |errs| >= 1 && errs[0].line == n && errs[0].message == message
  {
    var log := ShaderErrors.Rendered(Text.NatToString(k), Text.NatToString(n), message) + rest;
    ShaderErrors.RenderedLineMatches(k, n, message, rest);
    ShaderErrors.ExecLeftmost(log, 0);
    var m := ShaderErrors.Exec(log, 0).value;
    assert m.start == 0;
    assert ShaderErrors.MatchesFrom(log, 0)[0] == m;
    assert RawErrors(log, t)[0] == Recorded(m, t);
  }

  /** Where the heading of error `i` lies among the sections for the first `k` errors. */
  lemma {:induction false} BlocksHeading(errs: seq<ShaderErrorInfo>, k: nat, lines: seq<string>, i: nat) returns (p: nat)
    requires i < k <= |errs| && |lines| >= 1
    ensures p < |Blocks(errs, k, lines)| && Blocks(errs, k, lines)[p] == Heading(errs[i], i, |errs|)
    decreases k
  {
    var init := Blocks(errs, k - 1, lines);
    if i == k - 1 {
      p := |init|;
    } else {
      p := BlocksHeading(errs, k - 1, lines, i);
    }
  }

  lemma HeaderHasBanner(t: ShaderType)
    ensures Text.OccursAt(Header(t), Banner(t), 3)
  {
    var tail := "\n" + Text.Repeat('\U{2550}', 50) + "\n";
    Text.OccursBetween("\n\U{1F534} ", Banner(t), tail);
    assert Header(t) == "\n\U{1F534} " + Banner(t) + tail;
  }

  lemma HeadingHasText(e: ShaderErrorInfo, idx: nat, count: nat)
    ensures Text.OccursAt(Heading(e, idx, count), HeadingText(idx, count, e.line), 3)
  {
    var tail := "\n" + "   " + e.message + "\n\n";
    Text.OccursBetween("\n\U{274C} ", HeadingText(idx, count, e.line), tail);
    assert Heading(e, idx, count) == "\n\U{274C} " + HeadingText(idx, count, e.line) + tail;
  }

  /** Text in a section is text in the concatenation of the sections. */
  lemma SectionText(parts: seq<string>, k: nat, t: string, j: int) returns (q: int)
    requires k < |parts| && Text.OccursAt(parts[k], t, j)
    ensures Text.OccursAt(Text.Concat(parts), t, q)
  {
    Text.ConcatContainsPart(parts, k);
    var q0 :| Text.OccursAt(Text.Concat(parts), parts[k], q0);
    Text.OccursWithin(Text.Concat(parts), parts[k], q0, t, j);
    q := q0 + j;
  }

  /** Where the banner and the heading text of error `i` lie in the concatenated sections. */
  lemma SectionsHeadings(errs: seq<ShaderErrorInfo>, lines: seq<string>, t: ShaderType, i: nat) returns (qb: int, qh: int)
    requires i < |errs| && |lines| >= 1
    ensures Text.OccursAt(Text.Concat(Sections(errs, lines, t)), Banner(t), qb)
    ensures Text.OccursAt(Text.Concat(Sections(errs, lines, t)), HeadingText(i, |errs|, errs[i].line), qh)
  {
    var blocks := Blocks(errs, |errs|, lines);
    var p := BlocksHeading(errs, |errs|, lines, i);
    qb, qh := HeadingsIn([Header(t)] + blocks + [FOOTER], t, errs[i], i, |errs|, 1 + p);
  }

  /** Sections that open with the header and hold a heading at `k` show the banner and the heading text. */
  lemma HeadingsIn(sections: seq<string>, t: ShaderType, e: ShaderErrorInfo, idx: nat, count: nat, k: nat) returns (qb: int, qh: int)
    requires k < |sections| && sections[0] == Header(t) && sections[k] == Heading(e, idx, count)
    ensures Text.OccursAt(Text.Concat(sections), Banner(t), qb)
    ensures Text.OccursAt(Text.Concat(sections), HeadingText(idx, count, e.line), qh)
  {
    HeaderHasBanner(t);
    qb := SectionText(sections, 0, Banner(t), 3);
    HeadingHasText(e, idx, count);
    qh := SectionText(sections, k, HeadingText(idx, count, e.line), 3);
  }

  /**
   * The formatted output names the failing shader type in capitals and, for
   * each error `i` of `n`, reads "Error <i + 1>/<n> at line <line>:".
   */
  lemma OutputHeadings(source: string, infoLog: string, t: ShaderType, i: nat)
    requires i < |RawErrors(infoLog, t)|
    ensures exists q :: Text.OccursAt(Output(source, infoLog, t), Banner(t), q)
    ensures var errs := RawErrors(infoLog, t);
      exists q :: Text.OccursAt(Output(source, infoLog, t), HeadingText(i, |errs|, errs[i].line), q)
  {
    var errs := RawErrors(infoLog, t);
    var qb, qh := SectionsHeadings(errs, Text.Split(source, '\n'), t, i);
    assert Text.OccursAt(Output(source, infoLog, t), Banner(t), qb);
    assert Text.OccursAt(Output(source, infoLog, t), HeadingText(i, |errs|, errs[i].line), qh);
  }

  /** The banner spells the shader type in capitals. */
  lemma BannerNames(t: ShaderType)
    ensures Banner(t) == (if t == Vertex then "VERTEX" else "FRAGMENT") + " SHADER COMPILATION FAILED"
  {
    var name := TypeName(t);
    var upper := Text.ToUpper(name);
    if t == Vertex {
      assert upper == "VERTEX" by {
        assert upper[0] == 'V' && upper[1] == 'E' && upper[2] == 'R' && upper[3] == 'T' && upper[4] == 'E' && upper[5] == 'X';
      }
    } else {
      assert upper == "FRAGMENT" by {
        assert upper[0] == 'F' && upper[1] == 'R' && upper[2] == 'A' && upper[3] == 'G';
        assert upper[4] == 'M' && upper[5] == 'E' && upper[6] == 'N' && upper[7] == 'T';
      }
    }
  }
}
