# cpp-linter, modelled in Dafny

cpp-linter is a line-oriented style checker for C++ source text. It reads a
file line by line. It runs nine fixed substring rules on every line, and then
a brace-counting tracker that estimates how long each function body is. It
prints each finding at once, and at the end prints a summary with the number
of warnings. Seven rules are *warnings* and add to that number. Two rules are
*notes* and never do. The tracker reports a function whose body runs to more
than 50 lines, as a warning.

This project models that pipeline. The file I/O and text rendering are left
out.

- `text.dfy` (module `Text`): `contains`, built on a first-occurrence `find`
  that compares the word with the line character by character at each
  index in turn. `Contains` is proved to hold exactly when the word occurs
  contiguously in the line.
- `rules.dfy` (module `Rules`): the rule catalog, each rule's trigger
  condition (`Fires`), and the nine check functions as methods. In the
  original, a warning check updates the caller's counter through an `int&`
  parameter. Here the counter goes in and its new value comes out. A printed
  diagnostic is appended to a `console` sequence. `Emitted` is the
  table-driven reading of the catalog.
- `tracker.dfy` (module `FunctionTracker`): the two-state tracker as a
  datatype (`Idle | InFunction(count)`) with a transition function `Step`.
  `TrackLine` is the original's in-place update of its two loop variables
  (`inFunction`, `functionLineCount`), proved to follow `Step`.
- `linter.dfy` (module `Linter`): the pass as a fold (`TrackerAfter`,
  `Output`), and `RunLinter`, the original `while` loop. `RunLinter` is
  proved to print exactly `Output` and to return a warning total equal to the
  number of warning-severity diagnostics printed. The lemmas cover the whole
  pass: line numbering, output order, the per-line warning bound, and what the
  function-length warning measures.

The length count starts at 1 on the opening line and also counts the closing
line (`main.cpp:105-116`). So a function is reported once its opening line,
body and closing line together exceed 50 lines. A body of 49 lines between
the braces is therefore already reported; `Linter.BracedFunction` states the
threshold.

NamespaceStd needs `using namespace std` and IOUsage forbids it, so at most
six rule warnings fire on a line, and seven with the length warning
(`Rules.CatalogWarningsPerLine`, `Linter.WarningsBound`).

## Model

| member | source | states |
|---|---|---|
| Text.MatchesAtIff | main.cpp:14 | Comparing the word with the line character by character from index `i` succeeds exactly when the slice of the line starting at `i` equals the word. |
| Text.FindFromFirst | main.cpp:14 | A search from a start index returns the first index at or after it where the word occurs, with no occurrence in between. It returns "no position" exactly when there is no occurrence from there on. |
| Text.FindFirst | main.cpp:14 | `line.find(word)` finds a position exactly when the word occurs somewhere, and the position is the first occurrence. |
| Text.ContainsIffOccurs | main.cpp:13-15 | `contains(line, word)` holds exactly when `word` occurs as a contiguous substring of `line` at some index. |
| Text.ContainsChar | main.cpp:54 | Searching for the one-character string is the same as searching for the character, as `line.find('=')` and `line.find(';')` do. |
| Text.ContainsTransitive | main.cpp:13-15 | A line that contains a word contains every substring of that word. |
| Rules.CheckRawPointers | main.cpp:18-23 | Prints the RawPointers warning and adds exactly 1 to the count when the line has `*` and none of `new`, `#include`, `char* argv`; otherwise changes neither. |
| Rules.CheckNamespaceStd | main.cpp:25-30 | Prints the warning and adds exactly 1 when the line has `using namespace std`; otherwise changes neither. |
| Rules.CheckVectorAccess | main.cpp:32-37 | Prints the warning and adds exactly 1 when the line has `[`, `]` and `vector`; otherwise changes neither. |
| Rules.CheckIOUsage | main.cpp:39-44 | Prints the warning and adds exactly 1 when the line has `cin` or `cout` but neither `std::` nor `using namespace std`; otherwise changes neither. |
| Rules.CheckConstMethods | main.cpp:46-51 | Prints the warning and adds exactly 1 when the line has `get` or `Get`, `()` and `{`, and no `const`; otherwise changes neither. |
| Rules.CheckUninitVars | main.cpp:53-58 | Prints the warning and adds exactly 1 when the line has `int ` and `;`, and neither `=` nor `for`; otherwise changes neither. |
| Rules.CheckUnusedIncludes | main.cpp:60-64 | Prints the note when the line has `#include` and one of `<bits`, `<vector>`, `<map>`; it has no warning count to change. |
| Rules.CheckGoto | main.cpp:66-71 | Prints the warning and adds exactly 1 when the line has `goto `; otherwise changes neither. |
| Rules.CheckMissingReturnMain | main.cpp:73-77 | Prints the note when the line has `int main` and no `return`; it has no warning count to change. |
| Rules.EmittedIff | main.cpp:95-103 | A rule's diagnostic for a line is printed exactly when the rule is among those run and its condition holds. It then carries that line's number and the rule's severity, and nothing else is printed. |
| Rules.EmittedOrdered | main.cpp:95-103 | Rules run in increasing catalog order print their diagnostics in that order, each with the current line number. |
| Rules.CatalogOrdered | main.cpp:95-103 | On every line the rule diagnostics appear in the fixed order RawPointers, NamespaceStd, VectorAccess, IOUsage, ConstMethods, UninitVars, UnusedIncludes, Goto, MissingReturnMain, with at most one per rule. |
| Rules.CatalogUnfolds | main.cpp:95-103 | Running the catalog is the same as calling the nine checks one after another in source order. |
| Rules.CatalogWarnings | main.cpp:18-77 | The warnings the nine checks add for one line are exactly one per firing warning rule (RawPointers, NamespaceStd, VectorAccess, IOUsage, ConstMethods, UninitVars, Goto). The two note rules add none. |
| Rules.CatalogWarningsPerLine | main.cpp:18-77 | At most six rule warnings fire on one line, because NamespaceStd and IOUsage exclude each other. |
| Rules.NotesNeverWarn | main.cpp:60-77 | The two note rules never add to the warning count, whatever the line. |
| Rules.RawPointersExclusions | main.cpp:19 | RawPointers never fires on a line containing `new`, `#include` or `char* argv`. |
| Rules.UninitVarsExclusions | main.cpp:54 | UninitVars never fires on a line containing `=` or `for`. |
| Rules.NamespaceStdExcludesIOUsage | main.cpp:25-44 | A line containing `using namespace std` fires NamespaceStd and never fires IOUsage. |
| FunctionTracker.TrackLine | main.cpp:105-117 | The in-place update of `inFunction` and `functionLineCount` moves the tracker exactly as `Step` does. It prints the length warning `Step` reports, if any, and adds 1 to the count for it. |
| FunctionTracker.OpeningLine | main.cpp:105-107 | From idle, a line with `{` and neither `class` nor `namespace` enters a body with count 1. That same line never closes the body, even if it also contains `}`. |
| FunctionTracker.IdleStaysIdle | main.cpp:105-108 | From idle, any other line leaves the tracker idle and prints nothing. |
| FunctionTracker.BodyLineCounts | main.cpp:108-110 | Inside a body, a line without `}` adds exactly 1 to the count, even when it holds a nested `{`. Nesting neither resets nor re-opens the count. |
| FunctionTracker.ClosingLine | main.cpp:108-116 | Inside a body, the first line with `}` is counted and returns the tracker to idle. It reports the new count exactly when that count exceeds 50. |
| FunctionTracker.StepShape | main.cpp:105-117 | A body being counted always has count at least 1. A length is reported only when a closing line ends a body, and the length reported is the new count, which exceeds 50. |
| FunctionTracker.NamespaceLineNeverOpens | main.cpp:105 | A `using namespace std` line never opens a function body, because it mentions `namespace`. |
| Linter.RunLinter | main.cpp:86-121 | The loop prints exactly the fold `Output` of the lines. The warning total it ends with equals the number of warning-severity diagnostics printed, and notes are never counted. |
| Linter.CheckLine | main.cpp:95-103 | The nine checks together print what the catalog emits for the line. They add exactly its warnings to the total. |
| Linter.LineOutputOrdered | main.cpp:95-117 | Everything one line prints carries that line's number. The rules' diagnostics come first in catalog order, and the tracker's comes after them. |
| Linter.OutputOfLine | main.cpp:87-118 | A diagnostic is printed exactly when its line number lies between 1 and the number of input lines and the step for that line prints it. Line numbers run 1..n, one per input line. |
| Linter.OutputOrdered | main.cpp:92-118 | The whole output is strictly ordered by line number, and within a line by catalog position, with the length warning last. |
| Linter.WarningsBound | main.cpp:92-118 | The final warning total is at most 7 times the number of lines. |
| Linter.TrackerSpan | main.cpp:105-117 | While inside a body, the count equals the number of lines from the opening line to the last line read. The opening line was read while idle and opened, no line since has held `}`, and the count is at least 1. |
| Linter.TrackerSpanConverse | main.cpp:105-117 | An opening line read while idle and followed by no `}` line leaves the tracker inside a body, with the count equal to the length of that span. |
| Linter.LengthWarningOfLine | main.cpp:105-116 | The length warnings printed on a line are exactly what the tracker's step on that line reports. |
| Linter.LengthWarningSpan | main.cpp:105-116 | A length warning of `len` lines is printed on line `L` exactly when `len` exceeds 50, line `L - len + 1` opened a body while the tracker was idle, and `L` is the first line since with `}`. The count therefore equals the closing line minus the opening line plus one. |
| Linter.LengthWarningIsWarning | main.cpp:111-113 | The tracker's diagnostics have warning severity. |
| Linter.OpenBodyNotReported | main.cpp:105-121 | A body still open when the input ends is never reported: every length warning printed lies on a line before the one that opened that body. |
| Linter.SpanState | main.cpp:105-116 | Just before the closing line of a body span, the tracker is idle if the span is the opening line alone, and otherwise counts the span's lines so far. |
| Linter.ReportedSpanUnique | main.cpp:105-116 | A length warning on a line reports the length of the one body span that line closes. |
| Linter.SpanReports | main.cpp:105-116 | The closing line of a body span draws a length warning only for that span's length, and for it exactly when the length exceeds 50. |
| Linter.BracedSpan | main.cpp:105-116 | An opening line, a body without `}` and a closing line, read from idle, span exactly `|body| + 2` lines, ending at the closing line. |
| Linter.BracedFunction | main.cpp:105-116 | An opening line, a body without `}` and a closing line, read from idle, draw a length warning on the closing line exactly when body length plus 2 exceeds 50. That warning reports exactly body length plus 2, and no warning of any other length appears on that line. |

## Left out

- Opening the file, the "could not open" message, and splitting the file into lines (`main.cpp:80-84`, `92`, `120`). The input is an already-split sequence of lines.
- Rendering: the ANSI colour codes, the message texts and the summary line (`main.cpp:8-10`, `121`). A diagnostic is its severity, line number and cause; the length warning carries the measured length. `RunLinter` returns the printed diagnostics and the warning total.
- `main`'s argument check and exit status (`main.cpp:124-132`). This is command-line plumbing.
- The C++ `int` counters (`lineNumber`, `warnings`, `functionLineCount`) are unbounded integers here. Signed overflow is undefined behaviour in C++, not wrap-around. `warnings` can pass INT_MAX after about 3.6×10^8 lines, because one line can add six warnings: repeated, `using namespace std; int *x; vector[] get() { goto l;` adds six and never opens a body. `lineNumber` and `functionLineCount` need more than 2^31 - 1 lines.
- FunctionTracker.TrackLine: does not state the value `functionLineCount` keeps while the tracker is idle. The loop never reads it before resetting it to 1 on the next opening line.
