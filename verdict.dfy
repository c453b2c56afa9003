/**
 * The per-test-case part of the judging engine (judge.py): the compile
 * stage's outcome, the comparator and the classification of one run.
 * Every toolchain and child process is an input: the model receives what
 * the process reported and decides the result record as the code does, up
 * to two differences listed in README.md: the per-case build's error
 * stream is a string, and the unknown-language exception text is a fixed
 * constant.
 */
module Verdict {
  import opened Wrappers
  import opened Models

  // ---------------------------------------------------------------------
  // Languages
  // ---------------------------------------------------------------------

  /** Languages with a build step before they can run. */
  const CompiledLanguages: set<string> := {"cpp", "c", "java"}

  predicate NeedsBuild(language: string) {
    language in CompiledLanguages
  }

  // ---------------------------------------------------------------------
  // Python's str.strip()
  // ---------------------------------------------------------------------

  /** The characters Python's `str.isspace` accepts, which `strip()` removes. */
  predicate IsSpace(c: char) {
    || '\t' <= c <= '\r'            // tab, line feed, vertical tab, form feed, carriage return
    || '\U{1C}' <= c <= ' '          // file, group, record and unit separators, space
    || c == '\U{85}' || c == '\U{A0}' || c == '\U{1680}'
    || '\U{2000}' <= c <= '\U{200A}'
    || c == '\U{2028}' || c == '\U{2029}' || c == '\U{202F}' || c == '\U{205F}' || c == '\U{3000}'
  }

  predicate AllSpace(s: string) {
    forall k | 0 <= k < |s| :: IsSpace(s[k])
  }

  /** `s` with its leading whitespace removed. */
  function TrimStart(s: string): string {
    if |s| > 0 && IsSpace(s[0]) then TrimStart(s[1..]) else s
  }

  /** `s` with its trailing whitespace removed. */
  function TrimEnd(s: string): string {
    if |s| > 0 && IsSpace(s[|s| - 1]) then TrimEnd(s[..|s| - 1]) else s
  }

  /** TrimStart removes a whitespace-only prefix and stops at a non-space character. */
  lemma {:induction false} TrimStartShape(s: string)
    ensures var r := TrimStart(s);
            && |r| <= |s| && r == s[|s| - |r|..]
            && AllSpace(s[..|s| - |r|])
            && (r == [] || !IsSpace(r[0]))
  {
    if |s| > 0 && IsSpace(s[0]) {
      TrimStartShape(s[1..]);
      var r := TrimStart(s[1..]);
      assert s[..|s| - |r|] == [s[0]] + s[1..][..|s| - 1 - |r|];
      assert s[1..][|s| - 1 - |r|..] == s[|s| - |r|..];
    } else {
      assert s[..0] == [];
    }
  }

  /** TrimEnd removes a whitespace-only suffix and stops at a non-space character. */
  lemma {:induction false} TrimEndShape(s: string)
    ensures var r := TrimEnd(s);
            && |r| <= |s| && r == s[..|r|]
            && AllSpace(s[|r|..])
            && (r == [] || !IsSpace(r[|r| - 1]))
  {
    if |s| > 0 && IsSpace(s[|s| - 1]) {
      TrimEndShape(s[..|s| - 1]);
      var r := TrimEnd(s[..|s| - 1]);
      assert s[|r|..] == s[..|s| - 1][|r|..] + [s[|s| - 1]];
      assert s[..|s| - 1][..|r|] == s[..|r|];
    } else {
      assert s[|s|..] == [];
    }
  }

  /**
   * Python's `s.strip()`: the infix left once all leading and all trailing
   * whitespace of the whole string is removed.
   */
  function Strip(s: string): string {
    TrimEnd(TrimStart(s))
  }

  /**
   * What Strip leaves: an infix of `s` with only whitespace outside it and
   * no whitespace at either of its ends.
   */
  lemma StripShape(s: string)
    ensures var r := Strip(s);
            && (exists i, j | 0 <= i <= j <= |s| :: r == s[i..j] && AllSpace(s[..i]) && AllSpace(s[j..]))
            && (r == [] || (!IsSpace(r[0]) && !IsSpace(r[|r| - 1])))
  {
    var t := TrimStart(s);
    var r := TrimEnd(t);
    TrimStartShape(s);
    TrimEndShape(t);
    var i := |s| - |t|;
    assert r == s[i..i + |r|];
    assert s[i + |r|..] == t[|r|..];
    assert AllSpace(s[..i]);
  }

  /** Whitespace-only prefixes are exactly what TrimStart removes. */
  lemma {:induction false} TrimStartAt(s: string, i: nat)
    requires i <= |s| && AllSpace(s[..i]) && (i == |s| || !IsSpace(s[i]))
    ensures TrimStart(s) == s[i..]
  {
    if i > 0 {
      assert IsSpace(s[..i][0]);
      assert s[1..][..i - 1] == s[1..i];
      TrimStartAt(s[1..], i - 1);
      assert s[1..][i - 1..] == s[i..];
    }
  }

  /** Whitespace-only suffixes are exactly what TrimEnd removes. */
  lemma {:induction false} TrimEndAt(s: string, j: nat)
    requires j <= |s| && AllSpace(s[j..]) && (j == 0 || !IsSpace(s[j - 1]))
    ensures TrimEnd(s) == s[..j]
    decreases |s| - j
  {
    if j < |s| {
      assert IsSpace(s[j..][|s| - 1 - j]);
      var s' := s[..|s| - 1];
      assert s'[j..] == s[j..|s| - 1];
      assert s'[..j] == s[..j];
      TrimEndAt(s', j);
    }
  }

  /**
   * Strip is the only infix whose outside is whitespace and whose ends are
   * not: its contract determines it.
   */
  lemma {:induction false} StripCharacterised(s: string, i: nat, j: nat)
    requires i <= j <= |s| && AllSpace(s[..i]) && AllSpace(s[j..])
    requires i == j || (!IsSpace(s[i]) && !IsSpace(s[j - 1]))
    ensures Strip(s) == s[i..j]
  {
    if i < j {
      TrimStartAt(s, i);
      var t := s[i..];
      assert t[j - i..] == s[j..];
      TrimEndAt(t, j - i);
      assert t[..j - i] == s[i..j];
      assert Strip(s) == TrimEnd(t);
    } else {
      assert AllSpace(s) by {
        forall k | 0 <= k < |s| ensures IsSpace(s[k]) {
          if k < i { assert s[..i][k] == s[k]; } else { assert s[j..][k - j] == s[k]; }
        }
      }
      assert s[..|s|] == s;
      TrimStartAt(s, |s|);
    }
  }

  /** A whitespace prefix is skipped by TrimStart. */
  lemma {:induction false} TrimStartSkipsSpace(p: string, s: string)
    requires AllSpace(p)
    ensures TrimStart(p + s) == TrimStart(s)
  {
    if |p| > 0 {
      assert (p + s)[0] == p[0] && IsSpace(p[0]);
      assert (p + s)[1..] == p[1..] + s;
      TrimStartSkipsSpace(p[1..], s);
    } else {
      assert p + s == s;
    }
  }

  /** A whitespace suffix is skipped by TrimEnd. */
  lemma {:induction false} TrimEndSkipsSpace(s: string, q: string)
    requires AllSpace(q)
    ensures TrimEnd(s + q) == TrimEnd(s)
  {
    if |q| > 0 {
      var x := s + q;
      assert x[|x| - 1] == q[|q| - 1] && IsSpace(q[|q| - 1]);
      assert x[..|x| - 1] == s + q[..|q| - 1];
      TrimEndSkipsSpace(s, q[..|q| - 1]);
    } else {
      assert s + q == s;
    }
  }

  /** TrimStart keeps a whitespace suffix unless everything is whitespace. */
  lemma {:induction false} TrimStartKeepsSuffix(s: string, q: string)
    requires AllSpace(q)
    ensures TrimStart(s + q) == if AllSpace(s) then [] else TrimStart(s) + q
  {
    if |s| == 0 {
      assert s + q == q && q[..|q|] == q;
      TrimStartAt(q, |q|);
    } else if IsSpace(s[0]) {
      assert (s + q)[0] == s[0];
      assert (s + q)[1..] == s[1..] + q;
      TrimStartKeepsSuffix(s[1..], q);
      assert AllSpace(s) <==> AllSpace(s[1..]) by {
        if AllSpace(s[1..]) {
          forall k | 0 <= k < |s| ensures IsSpace(s[k]) {
            if k > 0 { assert s[k] == s[1..][k - 1]; }
          }
        }
      }
    } else {
      assert (s + q)[0] == s[0];
    }
  }

  /** Whitespace around the whole text never changes what it strips to. */
  lemma {:induction false} SurroundingSpaceIgnored(p: string, s: string, q: string)
    requires AllSpace(p) && AllSpace(q)
    ensures Strip(p + s + q) == Strip(s)
  {
    assert p + s + q == p + (s + q);
    TrimStartSkipsSpace(p, s + q);
    TrimStartKeepsSuffix(s, q);
    if !AllSpace(s) {
      TrimEndSkipsSpace(TrimStart(s), q);
    } else {
      assert s[..|s|] == s;
      TrimStartAt(s, |s|);
    }
  }

  /** Stripping twice is stripping once. */
  lemma {:induction false} StripIdempotent(s: string)
    ensures Strip(Strip(s)) == Strip(s)
  {
    var r := Strip(s);
    StripShape(s);
    assert r[..0] == [] && r[|r|..] == [];
    assert r[0..|r|] == r;
    StripCharacterised(r, 0, |r|);
  }

  /** A string with no whitespace at either end strips to itself. */
  predicate Trimmed(s: string) {
    s == [] || (!IsSpace(s[0]) && !IsSpace(s[|s| - 1]))
  }

  lemma TrimmedUnchanged(s: string)
    requires Trimmed(s)
    ensures Strip(s) == s
  {
    assert s[..0] == [] && s[|s|..] == [] && s[0..|s|] == s;
    StripCharacterised(s, 0, |s|);
  }

  /**
   * Between outputs with no outer whitespace the comparison is exact:
   * inner whitespace counts, so "1 2" does not match "1  2".
   */
  lemma TrimmedCompareExactly(actual: string, expected: string)
    requires Trimmed(actual) && Trimmed(expected)
    ensures OutputMatches(actual, expected) <==> actual == expected
  {
    TrimmedUnchanged(actual);
    TrimmedUnchanged(expected);
  }

  /** Outer whitespace of the output is ignored: " 4\n" matches "4". */
  lemma PaddedOutputMatches(p: string, s: string, q: string)
    requires AllSpace(p) && AllSpace(q)
    ensures OutputMatches(p + s + q, s)
  {
    SurroundingSpaceIgnored(p, s, q);
  }

  // ---------------------------------------------------------------------
  // Reading a file in text mode
  // ---------------------------------------------------------------------

  /**
   * Universal-newline translation of Python's text-mode read: "\r\n" and a
   * lone "\r" both become "\n".
   */
  function TranslateNewlines(s: string): (r: string)
    ensures '\r' !in r
    ensures |r| <= |s|
  {
    if |s| == 0 then []
    else if s[0] == '\r' then "\n" + TranslateNewlines(if |s| > 1 && s[1] == '\n' then s[2..] else s[1..])
    else [s[0]] + TranslateNewlines(s[1..])
  }

  /** Text without carriage returns reads back unchanged. */
  lemma {:induction false} TranslateNewlinesIdentity(s: string)
    requires '\r' !in s
    ensures TranslateNewlines(s) == s
  {
    if |s| > 0 {
      assert s == [s[0]] + s[1..];
      TranslateNewlinesIdentity(s[1..]);
    }
  }

  /**
   * Only the program's output is newline-translated, not the expected
   * output: an expected output with a carriage return inside its stripped
   * text is matched by no program output.
   */
  lemma CarriageReturnNeverMatches(stdout: string, expected: string)
    requires '\r' in Strip(expected)
    ensures !OutputMatches(TranslateNewlines(stdout), expected)
  {
    var t := TranslateNewlines(stdout);
    StripShape(t);
    var i, j :| 0 <= i <= j <= |t| && Strip(t) == t[i..j] && AllSpace(t[..i]) && AllSpace(t[j..]);
    forall k | 0 <= k < j - i
      ensures t[i..j][k] != '\r'
    {
      assert t[i..j][k] == t[i + k];
    }
  }

  // ---------------------------------------------------------------------
  // The compile stage
  // ---------------------------------------------------------------------

  /** What the toolchain invocation reported. */
  datatype ToolResult =
    | ToolExited(code: int, stderr: string)  // the compiler ran to completion
    | ToolTimedOut                           // the fixed 30-second timeout expired
    | ToolFault(error: string)               // any other exception (missing compiler, file I/O)

  datatype CompileResult = CompileOk | CompileFail(message: string)

  /**
   * compile_code: a failed build carries the compiler's error stream, a
   * timeout a fixed message, any other fault its text; a language without a
   * build step is accepted as it is.
   */
  function CompileCode(language: string, tool: ToolResult): (r: CompileResult)
  {
    match tool
    case ToolFault(e) => CompileFail("Compilation error: " + e)
    case ToolTimedOut => if NeedsBuild(language) then CompileFail("Compilation timeout") else CompileOk
    case ToolExited(code, stderr) => if NeedsBuild(language) && code != 0 then CompileFail(stderr) else CompileOk
  }

  /** For a compiled language the stage succeeds exactly when the compiler exits with 0. */
  lemma CompileCodeOutcome(language: string, tool: ToolResult)
    requires NeedsBuild(language)
    ensures CompileCode(language, tool).CompileOk? <==> tool.ToolExited? && tool.code == 0
    ensures tool.ToolExited? && tool.code != 0 ==> CompileCode(language, tool) == CompileFail(tool.stderr)
    ensures tool.ToolTimedOut? ==> CompileCode(language, tool) == CompileFail("Compilation timeout")
  {
  }

  // ---------------------------------------------------------------------
  // One test-case run
  // ---------------------------------------------------------------------

  /** What the child process did. */
  datatype ProcessResult =
    | TimedOut                                                     // killed at the problem's time limit
    | Exited(code: int, stdout: string, stderr: string, elapsed: nat)  // elapsed wall-clock ms

  /** What the per-case build step did (only compiled languages have one). */
  datatype BuildResult = Built | BuildFailed(stderr: string)

  /**
   * Everything the environment reports for one test case: an exception
   * raised anywhere in run_test_case (workspace, file I/O, the build's own
   * timeout), the per-case build and the process.
   */
  datatype CaseRun = CaseRun(fault: Option<string>, build: BuildResult, process: ProcessResult)

  /** The result record; an absent key is `None`. */
  datatype TestResult = TestResult(status: Status, time: Option<nat>, memory: Option<nat>, message: Option<string>)

  /** The text of the exception raised when no run command was chosen. */
  const UnboundCommand := "cannot access local variable 'cmd' where it is not associated with a value"

  predicate IsCritical(s: Status) {
    s == TimeLimit || s == MemoryLimit || s == RuntimeError
  }

  /** Comparator: both whole strings stripped, then compared exactly. */
  predicate OutputMatches(actual: string, expected: string) {
    Strip(actual) == Strip(expected)
  }

  /** Classifies a finished or killed process against the expected output. */
  function Execute(p: ProcessResult, expected: string, timeLimit: nat): TestResult
  {
    match p
    case TimedOut => TestResult(TimeLimit, Some(timeLimit), None, None)
    case Exited(code, stdout, stderr, elapsed) =>
      if code != 0 then TestResult(RuntimeError, Some(elapsed), None, Some(stderr))
      else
        var actual := Strip(TranslateNewlines(stdout));
        var wanted := Strip(expected);
        if actual == wanted then TestResult(Accepted, Some(elapsed), Some(0), None)
        else TestResult(WrongAnswer, Some(elapsed), None, Some("Expected: " + wanted + "\nGot: " + actual))
  }

  /**
   * run_test_case: the result record for one test case.  The memory-limit
   * verdict is reserved: no run produces it, and memory is never measured.
   */
  function RunTestCase(language: string, run: CaseRun, expected: string, timeLimit: nat): (r: TestResult)
    ensures r.status != Pending && r.status != Judging && r.status != MemoryLimit
    ensures r.memory == None || r.memory == Some(0)
  {
    if run.fault.Some? then TestResult(RuntimeError, None, None, Some(run.fault.value))
    else if language == "python3" then Execute(run.process, expected, timeLimit)
    else if NeedsBuild(language) then
      match run.build
      case BuildFailed(stderr) => TestResult(CompileError, None, None, Some(stderr))
      case Built => Execute(run.process, expected, timeLimit)
    else TestResult(RuntimeError, None, None, Some(UnboundCommand))
  }

  /** A known language whose run raised nothing: the process decides. */
  predicate Executes(language: string, run: CaseRun) {
    run.fault.None? && (language == "python3" || (NeedsBuild(language) && run.build.Built?))
  }

  /** A timeout is a time-limit verdict reporting the limit itself, without a message. */
  lemma TimeoutVerdict(language: string, run: CaseRun, expected: string, timeLimit: nat)
    requires Executes(language, run) && run.process.TimedOut?
    ensures RunTestCase(language, run, expected, timeLimit) == TestResult(TimeLimit, Some(timeLimit), None, None)
  {
  }

  /** A non-zero exit is a runtime error carrying the error stream. */
  lemma NonZeroExitVerdict(language: string, run: CaseRun, expected: string, timeLimit: nat)
    requires Executes(language, run) && run.process.Exited? && run.process.code != 0
    ensures var r := RunTestCase(language, run, expected, timeLimit);
            r.status == RuntimeError && r.message == Some(run.process.stderr) && r.time == Some(run.process.elapsed)
  {
  }

  /**
   * A zero exit is accepted exactly when the stripped output read back
   * equals the stripped expected output; otherwise it is a wrong answer.
   */
  lemma ZeroExitVerdict(language: string, run: CaseRun, expected: string, timeLimit: nat)
    requires Executes(language, run) && run.process.Exited? && run.process.code == 0
    ensures var r := RunTestCase(language, run, expected, timeLimit);
            && r.status in {Accepted, WrongAnswer}
            && (r.status == Accepted <==> OutputMatches(TranslateNewlines(run.process.stdout), expected))
            && r.time == Some(run.process.elapsed)
  {
  }

  /** A per-case build failure yields compile_error, which is not critical. */
  lemma BuildFailureVerdict(language: string, run: CaseRun, expected: string, timeLimit: nat)
    requires run.fault.None? && NeedsBuild(language) && run.build.BuildFailed?
    ensures var r := RunTestCase(language, run, expected, timeLimit);
            r.status == CompileError && !IsCritical(r.status)
  {
  }

  /**
   * Any exception inside run_test_case, and an unknown language (whose run
   * command is never bound), yield a runtime error carrying the exception text.
   */
  lemma FaultVerdict(language: string, run: CaseRun, expected: string, timeLimit: nat)
    ensures run.fault.Some? ==>
      RunTestCase(language, run, expected, timeLimit) == TestResult(RuntimeError, None, None, run.fault)
    ensures run.fault.None? && language != "python3" && !NeedsBuild(language) ==>
      RunTestCase(language, run, expected, timeLimit) == TestResult(RuntimeError, None, None, Some(UnboundCommand))
  {
  }
}
