/**
 * The linter's single pass over a file: each line is numbered from 1, run
 * through the nine rules in catalog order, then fed to the function-length
 * tracker. The pass prints every diagnostic as it is produced and keeps a
 * running warning total for the closing summary.
 *
 * `Output` and `TrackerAfter` state the pass as a fold over the lines;
 * `RunLinter` is the loop of the original, proved to print exactly `Output`
 * and to total exactly the warnings among it.
 */
module Linter {
  import opened Text
  import opened Rules
  import opened FunctionTracker

  /** Everything line `n` prints, given the tracker state before it: the rules first, then the tracker. */
  function LineOutput(t: Tracker, line: string, n: nat): seq<Diagnostic>
  {
    Emitted(Catalog, line, n) + LengthWarning(Step(t, line), n)
  }

  /** The tracker state after the pass has read `lines`. */
  function TrackerAfter(lines: seq<string>): Tracker
  {
    if lines == [] then Idle
    else Step(TrackerAfter(lines[..|lines| - 1]), lines[|lines| - 1]).next
  }

  /** Everything the pass prints while reading `lines`, as a fold from the first line to the last. */
  function Output(lines: seq<string>): seq<Diagnostic>
  {
    if lines == [] then []
    else
      var n := |lines|;
      Output(lines[..n - 1]) + LineOutput(TrackerAfter(lines[..n - 1]), lines[n - 1], n)
  }

  lemma AppendAssoc(a: seq<Diagnostic>, b: seq<Diagnostic>, c: seq<Diagnostic>)
    ensures a + b + c == a + (b + c)
  {
  }

  /** The pass over one more line: the fold's step, for a prefix of the input. */
  lemma RunStep(lines: seq<string>, k: nat)
    requires k < |lines|
    ensures TrackerAfter(lines[..k + 1]) == Step(TrackerAfter(lines[..k]), lines[k]).next
    ensures Output(lines[..k + 1]) == Output(lines[..k]) + LineOutput(TrackerAfter(lines[..k]), lines[k], k + 1)
  {
    assert lines[..k + 1][..k] == lines[..k];
  }

  /**
   * The loop of the original linter. It returns what it prints and the
   * warning total of its summary line.
   */
  method RunLinter(lines: seq<string>) returns (console: seq<Diagnostic>, warnings: int)
    ensures console == Output(lines)
    ensures warnings == WarningCount(console)
  {
    var lineNumber := 0;
    warnings := 0;
    var functionLineCount: nat := 0;
    var inFunction := false;
    console := [];

    while lineNumber < |lines|
      invariant 0 <= lineNumber <= |lines|
      invariant console == Output(lines[..lineNumber])
      invariant warnings == WarningCount(console)
      invariant StateOf(inFunction, functionLineCount) == TrackerAfter(lines[..lineNumber])
    {
      var line := lines[lineNumber];
      ghost var before := Output(lines[..lineNumber]);
      ghost var state := TrackerAfter(lines[..lineNumber]);
      ghost var tr := Step(state, line);
      RunStep(lines, lineNumber);
      lineNumber := lineNumber + 1;

      WarningCountAppend(console, Emitted(Catalog, line, lineNumber));
      warnings, console := CheckLine(line, lineNumber, warnings, console);
      WarningCountAppend(console, LengthWarning(tr, lineNumber));
      inFunction, functionLineCount, warnings, console :=
        TrackLine(line, lineNumber, inFunction, functionLineCount, warnings, console);
      assert console == before + Emitted(Catalog, line, lineNumber) + LengthWarning(tr, lineNumber);
      AppendAssoc(before, Emitted(Catalog, line, lineNumber), LengthWarning(tr, lineNumber));
    }
    assert lines[..lineNumber] == lines;
  }

  /**
   * The nine rule checks the loop body runs on one line, in catalog order.
   * Together they print what the catalog emits and add its warnings to the
   * running total.
   */
  method CheckLine(line: string, lineNumber: nat, warnings: int, console: seq<Diagnostic>)
    returns (warnings': int, console': seq<Diagnostic>)
    ensures console' == console + Emitted(Catalog, line, lineNumber)
    ensures warnings' == warnings + WarningCount(Emitted(Catalog, line, lineNumber))
  {
    warnings', console' := warnings, console;
    // `emitted` is what the rules have printed for this line so far.
    ghost var emitted: seq<Diagnostic> := [];
    warnings', console' := CheckRawPointers(line, lineNumber, warnings', console');
    AppendAssoc(console, emitted, Emit(RawPointers, line, lineNumber));
    emitted := emitted + Emit(RawPointers, line, lineNumber);
    warnings', console' := CheckNamespaceStd(line, lineNumber, warnings', console');
    AppendAssoc(console, emitted, Emit(NamespaceStd, line, lineNumber));
    emitted := emitted + Emit(NamespaceStd, line, lineNumber);
    warnings', console' := CheckVectorAccess(line, lineNumber, warnings', console');
    AppendAssoc(console, emitted, Emit(VectorAccess, line, lineNumber));
    emitted := emitted + Emit(VectorAccess, line, lineNumber);
    warnings', console' := CheckIOUsage(line, lineNumber, warnings', console');
    AppendAssoc(console, emitted, Emit(IOUsage, line, lineNumber));
    emitted := emitted + Emit(IOUsage, line, lineNumber);
    warnings', console' := CheckConstMethods(line, lineNumber, warnings', console');
    AppendAssoc(console, emitted, Emit(ConstMethods, line, lineNumber));
    emitted := emitted + Emit(ConstMethods, line, lineNumber);
    warnings', console' := CheckUninitVars(line, lineNumber, warnings', console');
    AppendAssoc(console, emitted, Emit(UninitVars, line, lineNumber));
    emitted := emitted + Emit(UninitVars, line, lineNumber);
    console' := CheckUnusedIncludes(line, lineNumber, console');
    AppendAssoc(console, emitted, Emit(UnusedIncludes, line, lineNumber));
    emitted := emitted + Emit(UnusedIncludes, line, lineNumber);
    warnings', console' := CheckGoto(line, lineNumber, warnings', console');
    AppendAssoc(console, emitted, Emit(Goto, line, lineNumber));
    emitted := emitted + Emit(Goto, line, lineNumber);
    console' := CheckMissingReturnMain(line, lineNumber, console');
    AppendAssoc(console, emitted, Emit(MissingReturnMain, line, lineNumber));
    emitted := emitted + Emit(MissingReturnMain, line, lineNumber);
    assert [] + Emit(RawPointers, line, lineNumber) == Emit(RawPointers, line, lineNumber);
    CatalogUnfolds(line, lineNumber);
    CatalogWarnings(line, lineNumber);
  }

  // ---------------------------------------------------------------------------
  // Properties of the whole pass.

  /** Every diagnostic of one line carries that line's number; the rules' come first, in catalog order. */
  lemma LineOutputOrdered(t: Tracker, line: string, n: nat)
    ensures StrictlyOrdered(LineOutput(t, line, n))
    ensures forall d :: d in LineOutput(t, line, n) ==> d.line == n
  {
    CatalogOrdered(line, n);
    OrderedAppend(Emitted(Catalog, line, n), LengthWarning(Step(t, line), n));
  }

  /**
   * A diagnostic is printed exactly when its line number is that of an input
   * line and the step for that line prints it: line numbers run from 1 to
   * the number of lines, and each line's diagnostics are its own.
   */
  lemma {:induction false} OutputOfLine(lines: seq<string>, d: Diagnostic)
    ensures d in Output(lines) <==>
      1 <= d.line <= |lines|
      && d in LineOutput(TrackerAfter(lines[..d.line - 1]), lines[d.line - 1], d.line)
  {
    if lines != [] {
      var n := |lines|;
      var init := lines[..n - 1];
      var step := LineOutput(TrackerAfter(init), lines[n - 1], n);
      assert Output(lines) == Output(init) + step;
      OutputOfLine(init, d);
      LineOutputOrdered(TrackerAfter(init), lines[n - 1], n);
      if d.line == n {
        assert d !in Output(init);
        assert lines[..d.line - 1] == init;
      } else if 1 <= d.line < n {
        assert d !in step;
        assert init[..d.line - 1] == lines[..d.line - 1];
        assert init[d.line - 1] == lines[d.line - 1];
      } else {
        assert d !in step;
      }
    }
  }

  /** The whole output is ordered by line number and, within a line, by catalog position, the length warning last. */
  lemma {:induction false} OutputOrdered(lines: seq<string>)
    ensures StrictlyOrdered(Output(lines))
  {
    if lines != [] {
      var n := |lines|;
      var init := lines[..n - 1];
      OutputOrdered(init);
      LineOutputOrdered(TrackerAfter(init), lines[n - 1], n);
      forall x | x in Output(init) ensures x.line < n {
        OutputOfLine(init, x);
      }
      OrderedAppend(Output(init), LineOutput(TrackerAfter(init), lines[n - 1], n));
    }
  }

  /** At most seven warnings per line: six from the rules and the length warning. */
  lemma {:induction false} WarningsBound(lines: seq<string>)
    ensures WarningCount(Output(lines)) <= 7 * |lines|
  {
    if lines != [] {
      var n := |lines|;
      var init := lines[..n - 1];
      var t := TrackerAfter(init);
      WarningsBound(init);
      CatalogWarningsPerLine(lines[n - 1], n);
      WarningCountAppend(Emitted(Catalog, lines[n - 1], n), LengthWarning(Step(t, lines[n - 1]), n));
      WarningCountAppend(Output(init), LineOutput(t, lines[n - 1], n));
    }
  }

  /**
   * While the tracker is inside a function body, its count is the number of
   * lines from the opening line to the last line read: the opening line was
   * read while idle, and no line since has held a closing brace.
   */
  lemma {:induction false} TrackerSpan(lines: seq<string>)
    requires TrackerAfter(lines).InFunction?
    ensures var c := TrackerAfter(lines).count;
      1 <= c <= |lines|
      && TrackerAfter(lines[..|lines| - c]) == Idle
      && Opens(lines[|lines| - c])
      && forall j :: |lines| - c < j < |lines| ==> !Closes(lines[j])
  {
    var n := |lines|;
    var init := lines[..n - 1];
    var t0 := TrackerAfter(init);
    var c := TrackerAfter(lines).count;
    if Opens(lines[n - 1]) && t0.Idle? {
      assert c == 1;
    } else {
      TrackerSpan(init);
      assert c == t0.count + 1;
      assert lines[..n - c] == init[..n - 1 - t0.count];
      forall j | n - c < j < n ensures !Closes(lines[j]) {
        if j < n - 1 {
          assert lines[j] == init[j];
        }
      }
    }
  }

  /** Conversely, an opening line read while idle and followed by no closing brace leaves the count at the span's length. */
  lemma {:induction false} TrackerSpanConverse(lines: seq<string>, open: nat)
    requires open < |lines|
    requires TrackerAfter(lines[..open]) == Idle && Opens(lines[open])
    requires forall j :: open < j < |lines| ==> !Closes(lines[j])
    ensures TrackerAfter(lines) == InFunction(|lines| - open)
  {
    var n := |lines|;
    var init := lines[..n - 1];
    if n - 1 == open {
      assert init == lines[..open];
    } else {
      assert init[..open] == lines[..open];
      forall j | open < j < n - 1 ensures !Closes(init[j]) {
        assert lines[j] == init[j];
      }
      TrackerSpanConverse(init, open);
    }
  }

  /** The length warnings of line `L` are exactly what the tracker's step on that line reports. */
  lemma LengthWarningOfLine(lines: seq<string>, L: nat, len: nat)
    ensures Diagnostic(Warning, L, FunctionTooLong(len)) in Output(lines) <==>
      1 <= L <= |lines| && Step(TrackerAfter(lines[..L - 1]), lines[L - 1]).tooLong == Some(len)
  {
    var d := Diagnostic(Warning, L, FunctionTooLong(len));
    OutputOfLine(lines, d);
    if 1 <= L <= |lines| {
      var line := lines[L - 1];
      var tr := Step(TrackerAfter(lines[..L - 1]), line);
      EmittedIff(Catalog, line, L, d);
      assert d in LengthWarning(tr, L) <==> tr.tooLong == Some(len);
    }
  }

  /** Lines `L - len + 1` to `L` form a function body that the tracker counts to `len` lines. */
  predicate BodySpan(lines: seq<string>, L: nat, len: nat)
  {
    1 <= len <= L <= |lines|
    && TrackerAfter(lines[..L - len]) == Idle && Opens(lines[L - len])
    && (forall j :: L - len < j < L - 1 ==> !Closes(lines[j]))
    && Closes(lines[L - 1])
  }

  /**
   * A length warning reporting `len` lines appears on line `L` exactly when
   * `len` exceeds the limit and the lines `L - len + 1` to `L` form a function
   * body: its first line opened while the tracker was idle, its last line is
   * the first one since with a closing brace. So the reported count is the
   * closing line number minus the opening line number plus one.
   */
  lemma LengthWarningSpan(lines: seq<string>, L: nat, len: nat)
    ensures Diagnostic(Warning, L, FunctionTooLong(len)) in Output(lines) <==>
      MaxFunctionLines < len && BodySpan(lines, L, len)
  {
    if Diagnostic(Warning, L, FunctionTooLong(len)) in Output(lines) {
      ReportedIsSpan(lines, L, len);
    }
    if MaxFunctionLines < len && BodySpan(lines, L, len) {
      SpanIsReported(lines, L, len);
    }
  }

  lemma ReportedIsSpan(lines: seq<string>, L: nat, len: nat)
    requires Diagnostic(Warning, L, FunctionTooLong(len)) in Output(lines)
    ensures MaxFunctionLines < len && BodySpan(lines, L, len)
  {
    LengthWarningOfLine(lines, L, len);
    var prefix := lines[..L - 1];
    var t := TrackerAfter(prefix);
    var line := lines[L - 1];
    StepShape(t, line);
    TrackerSpan(prefix);
    assert prefix[..L - len] == lines[..L - len];
    assert prefix[L - len] == lines[L - len];
    forall j | L - len < j < L - 1 ensures !Closes(lines[j]) {
      assert prefix[j] == lines[j];
    }
  }

  /**
   * Just before the closing line of a body span of `len` lines, the tracker
   * is idle when the span is the opening line alone, and otherwise inside a
   * body counted to `len - 1`. So a closing line ends at most one span.
   */
  lemma SpanState(lines: seq<string>, L: nat, len: nat)
    requires BodySpan(lines, L, len)
    ensures TrackerAfter(lines[..L - 1]) == if len == 1 then Idle else InFunction(len - 1)
  {
    if len >= 2 {
      var prefix := lines[..L - 1];
      assert prefix[..L - len] == lines[..L - len];
      assert prefix[L - len] == lines[L - len];
      forall j | L - len < j < L - 1 ensures !Closes(prefix[j]) {
        assert prefix[j] == lines[j];
      }
      TrackerSpanConverse(prefix, L - len);
    }
  }

  lemma SpanIsReported(lines: seq<string>, L: nat, len: nat)
    requires MaxFunctionLines < len && BodySpan(lines, L, len)
    ensures Diagnostic(Warning, L, FunctionTooLong(len)) in Output(lines)
  {
    var prefix := lines[..L - 1];
    var line := lines[L - 1];
    SpanState(lines, L, len);
    ClosingLine(len - 1, line);
    assert Step(TrackerAfter(prefix), line).tooLong == Some(len);
    LengthWarningOfLine(lines, L, len);
  }

  /** The tracker's diagnostics are warnings. */
  lemma LengthWarningIsWarning(lines: seq<string>, d: Diagnostic)
    requires d in Output(lines) && d.cause.FunctionTooLong?
    ensures d.severity == Warning
  {
    OutputOfLine(lines, d);
    CatalogOrdered(lines[d.line - 1], d.line);
  }

  /**
   * A function body still open when the input ends is never reported: every
   * length warning lies before the line that opened it.
   */
  lemma OpenBodyNotReported(lines: seq<string>, d: Diagnostic)
    requires TrackerAfter(lines).InFunction?
    requires d in Output(lines) && d.cause.FunctionTooLong?
    ensures d.line <= |lines| - TrackerAfter(lines).count
  {
    var open := |lines| - TrackerAfter(lines).count;
    TrackerSpan(lines);
    LengthWarningIsWarning(lines, d);
    var L, len := d.line, d.cause.length;
    LengthWarningOfLine(lines, L, len);
    StepShape(TrackerAfter(lines[..L - 1]), lines[L - 1]);
    // The closing line of the reported body lies neither inside the open one nor on its opening line.
    var closes := Closes(lines[L - 1]);
    var atOpen := lines[..open];
    var beforeClose := lines[..L - 1];
    assert open < L - 1 ==> !closes;
    assert L - 1 == open ==> beforeClose == atOpen;
  }

  /**
   * A function written as an opening line, `body`, and a closing line, read
   * while the tracker is idle, is reported on its closing line exactly when
   * the opening and closing lines plus the body exceed the limit. Both brace
   * lines count, so a body of 49 lines between the braces is already reported.
   */
  lemma BracedFunction(prefix: seq<string>, open: string, body: seq<string>, close: string)
    requires TrackerAfter(prefix) == Idle && Opens(open) && Closes(close)
    requires forall b :: b in body ==> !Closes(b)
    ensures var lines := prefix + [open] + body + [close];
      forall len: nat ::
        (Diagnostic(Warning, |lines|, FunctionTooLong(len)) in Output(lines) <==> len == |body| + 2 && len > MaxFunctionLines)
  {
    var lines := prefix + [open] + body + [close];
    BracedSpan(prefix, open, body, close);
    SpanReports(lines, |lines|, |body| + 2);
  }

  /**
   * The closing line of a body span draws a length warning only for that
   * span's length, and for it exactly when the length exceeds the limit.
   */
  lemma SpanReports(lines: seq<string>, L: nat, span: nat)
    requires BodySpan(lines, L, span)
    ensures forall len: nat ::
      (Diagnostic(Warning, L, FunctionTooLong(len)) in Output(lines) <==> len == span && len > MaxFunctionLines)
  {
    LengthWarningSpan(lines, L, span);
    forall len: nat | Diagnostic(Warning, L, FunctionTooLong(len)) in Output(lines)
      ensures len == span
    {
      ReportedSpanUnique(lines, L, len, span);
    }
  }

  /** A length warning on a closing line reports the length of the one body span that line closes. */
  lemma ReportedSpanUnique(lines: seq<string>, L: nat, len: nat, span: nat)
    requires Diagnostic(Warning, L, FunctionTooLong(len)) in Output(lines)
    requires BodySpan(lines, L, span)
    ensures len == span
  {
    ReportedIsSpan(lines, L, len);
    SpanState(lines, L, len);
    SpanState(lines, L, span);
  }

  /** The lines of a braced function, read from idle, form a body span ending at the closing line. */
  lemma BracedSpan(prefix: seq<string>, open: string, body: seq<string>, close: string)
    requires TrackerAfter(prefix) == Idle && Opens(open) && Closes(close)
    requires forall b :: b in body ==> !Closes(b)
    ensures var lines := prefix + [open] + body + [close];
      BodySpan(lines, |lines|, |body| + 2)
  {
    var lines := prefix + [open] + body + [close];
    var L, len := |lines|, |body| + 2;
    assert lines[..L - len] == prefix;
    assert lines[L - len] == open;
    assert lines[L - 1] == close;
    forall j | L - len < j < L - 1 ensures !Closes(lines[j]) {
      assert lines[j] == body[j - |prefix| - 1];
    }
  }
}
