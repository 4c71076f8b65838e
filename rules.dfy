/**
 * The nine line rules of the linter. Each rule is a boolean combination of
 * substring tests on one raw line. Seven are warnings, which bump the running
 * warning count; two are notes, which never touch it. Every rule that fires
 * writes one diagnostic to the console, modelled as a sequence of
 * diagnostics that the rule extends.
 */
module Rules {
  import opened Text

  datatype Severity = Warning | Note

  /** The rules, named after the check that implements each. */
  datatype Rule =
    | RawPointers
    | NamespaceStd
    | VectorAccess
    | IOUsage
    | ConstMethods
    | UninitVars
    | UnusedIncludes
    | Goto
    | MissingReturnMain

  /** What a diagnostic reports: a rule, or an overlong function with its measured length. */
  datatype Cause = RuleCause(rule: Rule) | FunctionTooLong(length: nat)

  /** One line of linter output: severity, 1-based line number and cause (message text is not modelled). */
  datatype Diagnostic = Diagnostic(severity: Severity, line: nat, cause: Cause)

  /** The order in which the rules run on every line. */
  const Catalog: seq<Rule> :=
    [RawPointers, NamespaceStd, VectorAccess, IOUsage, ConstMethods,
     UninitVars, UnusedIncludes, Goto, MissingReturnMain]

  function SeverityOf(r: Rule): Severity
  {
    if r == UnusedIncludes || r == MissingReturnMain then Note else Warning
  }

  /** Position of a rule in the catalog. */
  function RuleRank(r: Rule): nat
  {
    match r
    case RawPointers => 0
    case NamespaceStd => 1
    case VectorAccess => 2
    case IOUsage => 3
    case ConstMethods => 4
    case UninitVars => 5
    case UnusedIncludes => 6
    case Goto => 7
    case MissingReturnMain => 8
  }

  /** Position of a diagnostic's cause in the per-line output: the length check runs after every rule. */
  function Rank(c: Cause): nat
  {
    match c
    case RuleCause(r) => RuleRank(r)
    case FunctionTooLong(_) => |Catalog|
  }

  /** The trigger condition of each rule, evaluated on the unmodified line. */
  predicate Fires(r: Rule, line: string)
  {
    match r
    case RawPointers =>
      Contains(line, "*") && !Contains(line, "new") && !Contains(line, "#include")
      && !Contains(line, "char* argv")
    case NamespaceStd =>
      Contains(line, "using namespace std")
    case VectorAccess =>
      Contains(line, "[") && Contains(line, "]") && Contains(line, "vector")
    case IOUsage =>
      (Contains(line, "cin") || Contains(line, "cout")) && !Contains(line, "std::")
      && !Contains(line, "using namespace std")
    case ConstMethods =>
      (Contains(line, "get") || Contains(line, "Get")) && Contains(line, "()")
      && !Contains(line, "const") && Contains(line, "{")
    case UninitVars =>
      // The original searches for the characters '=' and ';' rather than for strings.
      Contains(line, "int ") && '=' !in line && ';' in line && !Contains(line, "for")
    case UnusedIncludes =>
      Contains(line, "#include")
      && (Contains(line, "<bits") || Contains(line, "<vector>") || Contains(line, "<map>"))
    case Goto =>
      Contains(line, "goto ")
    case MissingReturnMain =>
      Contains(line, "int main") && !Contains(line, "return")
  }

  /** The diagnostic rule `r` writes for line number `n`, if it fires on `line`. */
  function Emit(r: Rule, line: string, n: nat): seq<Diagnostic>
  {
    if Fires(r, line) then [Diagnostic(SeverityOf(r), n, RuleCause(r))] else []
  }

  /** The diagnostics of running `rules`, in order, on one line. */
  function Emitted(rules: seq<Rule>, line: string, n: nat): seq<Diagnostic>
  {
    if rules == [] then []
    else Emitted(rules[..|rules| - 1], line, n) + Emit(rules[|rules| - 1], line, n)
  }

  /** Number of warning-severity diagnostics. */
  function WarningCount(ds: seq<Diagnostic>): nat
  {
    if ds == [] then 0
    else (if ds[0].severity == Warning then 1 else 0) + WarningCount(ds[1..])
  }

  lemma {:induction false} WarningCountAppend(a: seq<Diagnostic>, b: seq<Diagnostic>)
    ensures WarningCount(a + b) == WarningCount(a) + WarningCount(b)
  {
    if a != [] {
      assert (a + b)[1..] == a[1..] + b;
      WarningCountAppend(a[1..], b);
    } else {
      assert a + b == b;
    }
  }

  // ---------------------------------------------------------------------------
  // The check functions. Each warning check takes the running count by
  // reference in the original; here the count goes in and its new value comes
  // out. The two note checks have no count parameter at all.

  method CheckRawPointers(line: string, lineNumber: nat, warnings: int, console: seq<Diagnostic>)
    returns (warnings': int, console': seq<Diagnostic>)
    ensures console' == console + Emit(RawPointers, line, lineNumber)
    ensures warnings' == warnings + (if Fires(RawPointers, line) then 1 else 0)
  {
    warnings', console' := warnings, console;
    if Contains(line, "*") && !Contains(line, "new") && !Contains(line, "#include")
       && !Contains(line, "char* argv") {
      console' := console' + [Diagnostic(Warning, lineNumber, RuleCause(RawPointers))];
      warnings' := warnings' + 1;
    }
  }

  method CheckNamespaceStd(line: string, lineNumber: nat, warnings: int, console: seq<Diagnostic>)
    returns (warnings': int, console': seq<Diagnostic>)
    ensures console' == console + Emit(NamespaceStd, line, lineNumber)
    ensures warnings' == warnings + (if Fires(NamespaceStd, line) then 1 else 0)
  {
    warnings', console' := warnings, console;
    if Contains(line, "using namespace std") {
      console' := console' + [Diagnostic(Warning, lineNumber, RuleCause(NamespaceStd))];
      warnings' := warnings' + 1;
    }
  }

  method CheckVectorAccess(line: string, lineNumber: nat, warnings: int, console: seq<Diagnostic>)
    returns (warnings': int, console': seq<Diagnostic>)
    ensures console' == console + Emit(VectorAccess, line, lineNumber)
    ensures warnings' == warnings + (if Fires(VectorAccess, line) then 1 else 0)
  {
    warnings', console' := warnings, console;
    if Contains(line, "[") && Contains(line, "]") && Contains(line, "vector") {
      console' := console' + [Diagnostic(Warning, lineNumber, RuleCause(VectorAccess))];
      warnings' := warnings' + 1;
    }
  }

  method CheckIOUsage(line: string, lineNumber: nat, warnings: int, console: seq<Diagnostic>)
    returns (warnings': int, console': seq<Diagnostic>)
    ensures console' == console + Emit(IOUsage, line, lineNumber)
    ensures warnings' == warnings + (if Fires(IOUsage, line) then 1 else 0)
  {
    warnings', console' := warnings, console;
    if (Contains(line, "cin") || Contains(line, "cout")) && !Contains(line, "std::")
       && !Contains(line, "using namespace std") {
      console' := console' + [Diagnostic(Warning, lineNumber, RuleCause(IOUsage))];
      warnings' := warnings' + 1;
    }
  }

  method CheckConstMethods(line: string, lineNumber: nat, warnings: int, console: seq<Diagnostic>)
    returns (warnings': int, console': seq<Diagnostic>)
    ensures console' == console + Emit(ConstMethods, line, lineNumber)
    ensures warnings' == warnings + (if Fires(ConstMethods, line) then 1 else 0)
  {
    warnings', console' := warnings, console;
    if (Contains(line, "get") || Contains(line, "Get")) && Contains(line, "()")
       && !Contains(line, "const") && Contains(line, "{") {
      console' := console' + [Diagnostic(Warning, lineNumber, RuleCause(ConstMethods))];
      warnings' := warnings' + 1;
    }
  }

  method CheckUninitVars(line: string, lineNumber: nat, warnings: int, console: seq<Diagnostic>)
    returns (warnings': int, console': seq<Diagnostic>)
    ensures console' == console + Emit(UninitVars, line, lineNumber)
    ensures warnings' == warnings + (if Fires(UninitVars, line) then 1 else 0)
  {
    warnings', console' := warnings, console;
    if Contains(line, "int ") && Find(line, "=") == NoPosition && Find(line, ";") != NoPosition
       && !Contains(line, "for") {
      console' := console' + [Diagnostic(Warning, lineNumber, RuleCause(UninitVars))];
      warnings' := warnings' + 1;
    }
    ContainsChar(line, '=');
    ContainsChar(line, ';');
  }

  method CheckUnusedIncludes(line: string, lineNumber: nat, console: seq<Diagnostic>)
    returns (console': seq<Diagnostic>)
    ensures console' == console + Emit(UnusedIncludes, line, lineNumber)
  {
    console' := console;
    if Contains(line, "#include")
       && (Contains(line, "<bits") || Contains(line, "<vector>") || Contains(line, "<map>")) {
      console' := console' + [Diagnostic(Note, lineNumber, RuleCause(UnusedIncludes))];
    }
  }

  method CheckGoto(line: string, lineNumber: nat, warnings: int, console: seq<Diagnostic>)
    returns (warnings': int, console': seq<Diagnostic>)
    ensures console' == console + Emit(Goto, line, lineNumber)
    ensures warnings' == warnings + (if Fires(Goto, line) then 1 else 0)
  {
    warnings', console' := warnings, console;
    if Contains(line, "goto ") {
      console' := console' + [Diagnostic(Warning, lineNumber, RuleCause(Goto))];
      warnings' := warnings' + 1;
    }
  }

  method CheckMissingReturnMain(line: string, lineNumber: nat, console: seq<Diagnostic>)
    returns (console': seq<Diagnostic>)
    ensures console' == console + Emit(MissingReturnMain, line, lineNumber)
  {
    console' := console;
    if Contains(line, "int main") && !Contains(line, "return") {
      console' := console' + [Diagnostic(Note, lineNumber, RuleCause(MissingReturnMain))];
    }
  }

  // ---------------------------------------------------------------------------
  // Properties of the rule set.

  /**
   * A rule writes its diagnostic for a line exactly when it is in the list
   * run and its condition holds; nothing else appears.
   */
  lemma {:induction false} EmittedIff(rules: seq<Rule>, line: string, n: nat, d: Diagnostic)
    ensures d in Emitted(rules, line, n) <==>
      d.line == n && d.cause.RuleCause? && d.cause.rule in rules && Fires(d.cause.rule, line)
      && d.severity == SeverityOf(d.cause.rule)
  {
    if rules != [] {
      var init := rules[..|rules| - 1];
      EmittedIff(init, line, n, d);
      assert rules == init + [rules[|rules| - 1]];
    }
  }

  /** Diagnostics strictly ordered by line, then by position in the per-line output. */
  predicate Before(a: Diagnostic, b: Diagnostic)
  {
    a.line < b.line || (a.line == b.line && Rank(a.cause) < Rank(b.cause))
  }

  predicate StrictlyOrdered(ds: seq<Diagnostic>)
  {
    forall i, j :: 0 <= i < j < |ds| ==> Before(ds[i], ds[j])
  }

  lemma OrderedAppend(a: seq<Diagnostic>, b: seq<Diagnostic>)
    requires StrictlyOrdered(a) && StrictlyOrdered(b)
    requires forall x, y :: x in a && y in b ==> Before(x, y)
    ensures StrictlyOrdered(a + b)
  {
    forall i, j | 0 <= i < j < |a + b| ensures Before((a + b)[i], (a + b)[j]) {
      if j < |a| {
        assert (a + b)[i] == a[i] && (a + b)[j] == a[j];
      } else if i < |a| {
        assert (a + b)[i] == a[i] && (a + b)[j] == b[j - |a|];
      } else {
        assert (a + b)[i] == b[i - |a|] && (a + b)[j] == b[j - |a|];
      }
    }
  }

  /** Rules listed in increasing catalog order produce diagnostics in that order. */
  lemma {:induction false} EmittedOrdered(rules: seq<Rule>, line: string, n: nat)
    requires forall i, j :: 0 <= i < j < |rules| ==> RuleRank(rules[i]) < RuleRank(rules[j])
    ensures StrictlyOrdered(Emitted(rules, line, n))
    ensures forall d :: d in Emitted(rules, line, n) ==> d.line == n && d.cause.RuleCause?
    ensures forall d :: d in Emitted(rules, line, n) ==>
      rules != [] && Rank(d.cause) <= RuleRank(rules[|rules| - 1])
  {
    if rules != [] {
      var init := rules[..|rules| - 1];
      var last := rules[|rules| - 1];
      EmittedOrdered(init, line, n);
      assert forall d :: d in Emitted(init, line, n) ==> Rank(d.cause) < RuleRank(last) by {
        if init != [] {
          assert RuleRank(init[|init| - 1]) < RuleRank(last);
        }
      }
      OrderedAppend(Emitted(init, line, n), Emit(last, line, n));
    }
  }

  /** The catalog runs the rules in rank order. */
  lemma CatalogRanks()
    ensures forall i :: 0 <= i < |Catalog| ==> RuleRank(Catalog[i]) == i
  {
  }

  /** Running the whole catalog on one line gives diagnostics in catalog order, one per firing rule. */
  lemma CatalogOrdered(line: string, n: nat)
    ensures StrictlyOrdered(Emitted(Catalog, line, n))
    ensures forall d :: d in Emitted(Catalog, line, n) ==> d.line == n && Rank(d.cause) < |Catalog|
  {
    CatalogRanks();
    EmittedOrdered(Catalog, line, n);
  }

  /** Running the catalog is the nine checks one after another. */
  lemma CatalogUnfolds(line: string, n: nat)
    ensures Emitted(Catalog, line, n)
      == Emit(RawPointers, line, n) + Emit(NamespaceStd, line, n) + Emit(VectorAccess, line, n)
       + Emit(IOUsage, line, n) + Emit(ConstMethods, line, n) + Emit(UninitVars, line, n)
       + Emit(UnusedIncludes, line, n) + Emit(Goto, line, n) + Emit(MissingReturnMain, line, n)
  {
    EmittedNine(Catalog, line, n);
  }

  lemma EmittedNine(c: seq<Rule>, line: string, n: nat)
    requires |c| == 9
    ensures Emitted(c, line, n)
      == Emit(c[0], line, n) + Emit(c[1], line, n) + Emit(c[2], line, n)
       + Emit(c[3], line, n) + Emit(c[4], line, n) + Emit(c[5], line, n)
       + Emit(c[6], line, n) + Emit(c[7], line, n) + Emit(c[8], line, n)
  {
    assert c[..0] == [];
    EmittedSnoc(c, 0, line, n);
    var e := Emit(c[0], line, n);
    assert Emitted(c[..1], line, n) == e;
    EmittedSnoc(c, 1, line, n);
    e := e + Emit(c[1], line, n);
    assert Emitted(c[..2], line, n) == e;
    EmittedSnoc(c, 2, line, n);
    e := e + Emit(c[2], line, n);
    assert Emitted(c[..3], line, n) == e;
    EmittedSnoc(c, 3, line, n);
    e := e + Emit(c[3], line, n);
    assert Emitted(c[..4], line, n) == e;
    EmittedSnoc(c, 4, line, n);
    e := e + Emit(c[4], line, n);
    assert Emitted(c[..5], line, n) == e;
    EmittedSnoc(c, 5, line, n);
    e := e + Emit(c[5], line, n);
    assert Emitted(c[..6], line, n) == e;
    EmittedSnoc(c, 6, line, n);
    e := e + Emit(c[6], line, n);
    assert Emitted(c[..7], line, n) == e;
    EmittedSnoc(c, 7, line, n);
    e := e + Emit(c[7], line, n);
    assert Emitted(c[..8], line, n) == e;
    EmittedSnoc(c, 8, line, n);
    e := e + Emit(c[8], line, n);
    assert Emitted(c[..9], line, n) == e;
    assert c[..9] == c;
  }

  /** Running one more rule appends that rule's diagnostic. */
  lemma EmittedSnoc(rules: seq<Rule>, k: nat, line: string, n: nat)
    requires k < |rules|
    ensures Emitted(rules[..k + 1], line, n) == Emitted(rules[..k], line, n) + Emit(rules[k], line, n)
  {
    assert rules[..k + 1][..k] == rules[..k];
  }

  /** A rule's diagnostic adds one warning exactly when the rule fires with warning severity. */
  lemma EmitWarnings(r: Rule, line: string, n: nat)
    ensures WarningCount(Emit(r, line, n)) == if Fires(r, line) && SeverityOf(r) == Warning then 1 else 0
  {
  }

  /** The warnings of nine rules run in a row are the sum of each rule's warnings. */
  lemma WarningCountNine(c: seq<Rule>, line: string, n: nat)
    requires |c| == 9
    ensures WarningCount(Emitted(c, line, n))
      == WarningCount(Emit(c[0], line, n)) + WarningCount(Emit(c[1], line, n)) + WarningCount(Emit(c[2], line, n))
       + WarningCount(Emit(c[3], line, n)) + WarningCount(Emit(c[4], line, n)) + WarningCount(Emit(c[5], line, n))
       + WarningCount(Emit(c[6], line, n)) + WarningCount(Emit(c[7], line, n)) + WarningCount(Emit(c[8], line, n))
  {
    EmittedNine(c, line, n);
    var e := Emit(c[0], line, n);
    WarningCountAppend(e, Emit(c[1], line, n));
    e := e + Emit(c[1], line, n);
    WarningCountAppend(e, Emit(c[2], line, n));
    e := e + Emit(c[2], line, n);
    WarningCountAppend(e, Emit(c[3], line, n));
    e := e + Emit(c[3], line, n);
    WarningCountAppend(e, Emit(c[4], line, n));
    e := e + Emit(c[4], line, n);
    WarningCountAppend(e, Emit(c[5], line, n));
    e := e + Emit(c[5], line, n);
    WarningCountAppend(e, Emit(c[6], line, n));
    e := e + Emit(c[6], line, n);
    WarningCountAppend(e, Emit(c[7], line, n));
    e := e + Emit(c[7], line, n);
    WarningCountAppend(e, Emit(c[8], line, n));
    e := e + Emit(c[8], line, n);
  }

  /**
   * The warnings the catalog adds for one line are one for each of the seven
   * warning rules that fires; the two note rules add none.
   */
  lemma CatalogWarnings(line: string, n: nat)
    ensures WarningCount(Emitted(Catalog, line, n))
      == (if Fires(RawPointers, line) then 1 else 0) + (if Fires(NamespaceStd, line) then 1 else 0)
       + (if Fires(VectorAccess, line) then 1 else 0) + (if Fires(IOUsage, line) then 1 else 0)
       + (if Fires(ConstMethods, line) then 1 else 0) + (if Fires(UninitVars, line) then 1 else 0)
       + (if Fires(Goto, line) then 1 else 0)
  {
    assert WarningCount(Emitted(Catalog, line, n))
      == WarningCount(Emit(RawPointers, line, n)) + WarningCount(Emit(NamespaceStd, line, n))
       + WarningCount(Emit(VectorAccess, line, n)) + WarningCount(Emit(IOUsage, line, n))
       + WarningCount(Emit(ConstMethods, line, n)) + WarningCount(Emit(UninitVars, line, n))
       + WarningCount(Emit(UnusedIncludes, line, n)) + WarningCount(Emit(Goto, line, n))
       + WarningCount(Emit(MissingReturnMain, line, n)) by {
      WarningCountNine(Catalog, line, n);
    }
    EmitWarnings(RawPointers, line, n);
    EmitWarnings(NamespaceStd, line, n);
    EmitWarnings(VectorAccess, line, n);
    EmitWarnings(IOUsage, line, n);
    EmitWarnings(ConstMethods, line, n);
    EmitWarnings(UninitVars, line, n);
    EmitWarnings(UnusedIncludes, line, n);
    EmitWarnings(Goto, line, n);
    EmitWarnings(MissingReturnMain, line, n);
  }

  /**
   * At most six rule warnings fire on one line: NamespaceStd requires
   * `using namespace std` and IOUsage forbids it.
   */
  lemma CatalogWarningsPerLine(line: string, n: nat)
    ensures WarningCount(Emitted(Catalog, line, n)) <= 6
  {
    CatalogWarnings(line, n);
    if Fires(NamespaceStd, line) {
      NamespaceStdExcludesIOUsage(line);
    }
  }

  /** Note rules never add to the warning count, whatever the line. */
  lemma NotesNeverWarn(line: string, n: nat)
    ensures WarningCount(Emit(UnusedIncludes, line, n)) == 0
    ensures WarningCount(Emit(MissingReturnMain, line, n)) == 0
  {
  }

  /** RawPointers is switched off by `new`, `#include` and `char* argv`. */
  lemma RawPointersExclusions(line: string)
    requires Contains(line, "new") || Contains(line, "#include") || Contains(line, "char* argv")
    ensures !Fires(RawPointers, line)
  {
  }

  /** UninitVars is switched off by `=` and by `for`. */
  lemma {:induction false} UninitVarsExclusions(line: string)
    requires Contains(line, "=") || Contains(line, "for")
    ensures !Fires(UninitVars, line)
  {
    ContainsChar(line, '=');
  }

  /** A `using namespace std` line fires NamespaceStd and never IOUsage. */
  lemma NamespaceStdExcludesIOUsage(line: string)
    requires Contains(line, "using namespace std")
    ensures Fires(NamespaceStd, line) && !Fires(IOUsage, line)
  {
  }
}
