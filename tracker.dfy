/**
 * The function-length tracker: a two-state machine fed one line at a time,
 * after the rules. An opening brace on a line that mentions neither `class`
 * nor `namespace` starts a function body; every later line is counted; the
 * first line with a closing brace ends it, with a warning when the count
 * exceeds the limit. Nested braces are deliberately not tracked.
 */
module FunctionTracker {
  import opened Text
  import opened Rules

  /** Counts above this many lines draw a warning. */
  const MaxFunctionLines: nat := 50

  /** `Idle`, or inside a function body whose lines counted so far are `count`. */
  datatype Tracker = Idle | InFunction(count: nat)

  /** The state after one line, and the length to report if that line closed an overlong function. */
  datatype Transition = Transition(next: Tracker, tooLong: Option<nat>)

  datatype Option<T> = None | Some(value: T)

  /** The line opens a function body when the tracker is idle. */
  predicate Opens(line: string)
  {
    Contains(line, "{") && !Contains(line, "class") && !Contains(line, "namespace")
  }

  predicate Closes(line: string)
  {
    Contains(line, "}")
  }

  /** One step of the tracker. */
  function Step(t: Tracker, line: string): Transition
  {
    if Opens(line) && t.Idle? then Transition(InFunction(1), None)
    else if t.InFunction? then
      var count := t.count + 1;
      if Closes(line) then
        Transition(Idle, if count > MaxFunctionLines then Some(count) else None)
      else Transition(InFunction(count), None)
    else Transition(t, None)
  }

  /** The tracker's diagnostic for line `n`, if the line closed an overlong function. */
  function LengthWarning(tr: Transition, n: nat): seq<Diagnostic>
  {
    if tr.tooLong.Some? then [Diagnostic(Warning, n, FunctionTooLong(tr.tooLong.value))] else []
  }

  /** The tracker state the two variables of the loop stand for. */
  function StateOf(inFunction: bool, functionLineCount: nat): Tracker
  {
    if inFunction then InFunction(functionLineCount) else Idle
  }

  /**
   * The tracker update at the end of the loop body, on the loop's own two
   * variables. It prints the length warning, if any, and counts it.
   */
  method TrackLine(line: string, lineNumber: nat, inFunction: bool, functionLineCount: nat,
                   warnings: int, console: seq<Diagnostic>)
    returns (inFunction': bool, functionLineCount': nat, warnings': int, console': seq<Diagnostic>)
    ensures StateOf(inFunction', functionLineCount') == Step(StateOf(inFunction, functionLineCount), line).next
    ensures console' == console + LengthWarning(Step(StateOf(inFunction, functionLineCount), line), lineNumber)
    ensures warnings' == warnings + |LengthWarning(Step(StateOf(inFunction, functionLineCount), line), lineNumber)|
  {
    inFunction', functionLineCount', warnings', console' := inFunction, functionLineCount, warnings, console;
    if Contains(line, "{") && !Contains(line, "class") && !Contains(line, "namespace") && !inFunction' {
      inFunction' := true;
      functionLineCount' := 1;
    } else if inFunction' {
      functionLineCount' := functionLineCount' + 1;
      if Contains(line, "}") {
        if functionLineCount' > MaxFunctionLines {
          console' := console' + [Diagnostic(Warning, lineNumber, FunctionTooLong(functionLineCount'))];
          warnings' := warnings' + 1;
        }
        inFunction' := false;
      }
    }
  }

  /**
   * From idle, an opening line starts a body of one line, and that same line
   * never closes it, even when it also holds a closing brace.
   */
  lemma OpeningLine(line: string)
    requires Opens(line)
    ensures Step(Idle, line) == Transition(InFunction(1), None)
  {
  }

  /** From idle, any other line leaves the tracker idle and silent. */
  lemma IdleStaysIdle(line: string)
    requires !Opens(line)
    ensures Step(Idle, line) == Transition(Idle, None)
  {
  }

  /**
   * Inside a body, a line without a closing brace adds exactly one to the
   * count, whether or not it holds an opening brace: nesting neither resets
   * nor re-opens the count.
   */
  lemma BodyLineCounts(count: nat, line: string)
    requires !Closes(line)
    ensures Step(InFunction(count), line) == Transition(InFunction(count + 1), None)
  {
  }

  /**
   * Inside a body, the first line with a closing brace returns to idle; it is
   * counted, and the length is reported exactly when it exceeds the limit.
   */
  lemma ClosingLine(count: nat, line: string)
    requires Closes(line)
    ensures Step(InFunction(count), line).next == Idle
    ensures Step(InFunction(count), line).tooLong.Some? <==> count + 1 > MaxFunctionLines
    ensures Step(InFunction(count), line).tooLong.Some? ==> Step(InFunction(count), line).tooLong.value == count + 1
  {
  }

  /** A body being counted always has at least one line; a length is reported only on closing from inside a body. */
  lemma StepShape(t: Tracker, line: string)
    ensures Step(t, line).next.InFunction? ==> Step(t, line).next.count >= 1
    ensures Step(t, line).tooLong.Some? ==>
      t.InFunction? && Closes(line) && Step(t, line).next.Idle?
      && Step(t, line).tooLong.value == t.count + 1 > MaxFunctionLines
  {
  }

  /**
   * A `using namespace std` line never opens a function body, whatever
   * braces it holds, because it mentions `namespace`.
   */
  lemma {:induction false} NamespaceLineNeverOpens(line: string)
    requires Contains(line, "using namespace std")
    ensures !Opens(line)
  {
    assert OccursAt("using namespace std", "namespace", 6);
    ContainsIffOccurs("using namespace std", "namespace");
    ContainsTransitive(line, "using namespace std", "namespace");
  }
}
