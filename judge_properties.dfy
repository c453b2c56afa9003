/**
 * What judge_submission promises about a whole judging run, proved on the
 * reference definition `Judged` that Submission.Judge is proved to follow.
 * `rs` is the sequence of results the runner reports, one per test case.
 */
module JudgeProperties {
  import opened Wrappers
  import opened Models
  import opened Verdict
  import opened Judge

  // ---------------------------------------------------------------------
  // Facts about the running aggregates
  // ---------------------------------------------------------------------

  /** The first critical position is the one where a critical result follows only non-critical ones. */
  lemma CriticalIndexAt(rs: seq<TestResult>, n: nat)
    requires n <= |rs| && forall k | 0 <= k < n :: !IsCritical(rs[k].status)
    requires n < |rs| ==> IsCritical(rs[n].status)
    ensures CriticalIndex(rs) == n
  {
    CriticalIndexIsFirst(rs);
  }

  /** No result is a mismatch exactly when AnyMismatch is false. */
  lemma {:induction false} NoMismatchEverywhere(rs: seq<TestResult>)
    ensures !AnyMismatch(rs) <==> forall k | 0 <= k < |rs| :: !IsMismatch(rs[k].status)
  {
    if |rs| > 0 {
      var init := rs[..|rs| - 1];
      NoMismatchEverywhere(init);
      assert forall k | 0 <= k < |init| :: init[k] == rs[k];
    }
  }

  /** The accepted points never exceed the points of the cases run, and reach them when all are accepted. */
  lemma {:induction false} AcceptedPointsBounded(cases: seq<TestCase>, rs: seq<TestResult>)
    requires |rs| <= |cases|
    ensures AcceptedPoints(cases, rs) <= PrefixPoints(cases, |rs|)
    ensures (forall k | 0 <= k < |rs| :: rs[k].status == Accepted) ==> AcceptedPoints(cases, rs) == PrefixPoints(cases, |rs|)
  {
    if |rs| > 0 {
      var init := rs[..|rs| - 1];
      AcceptedPointsBounded(cases, init);
      assert forall k | 0 <= k < |init| :: init[k] == rs[k];
    }
  }

  /** A prefix of the cases carries at most the points of all of them. */
  lemma {:induction false} PrefixPointsBounded(cases: seq<TestCase>, n: nat)
    requires n <= |cases|
    ensures PrefixPoints(cases, n) <= SumPoints(cases)
    decreases |cases| - n
  {
    if n < |cases| {
      PrefixPointsBounded(cases, n + 1);
    }
  }

  /** Results that report no memory or zero memory have peak memory 0. */
  lemma {:induction false} PeakOfZeros(rs: seq<TestResult>)
    requires forall k | 0 <= k < |rs| :: rs[k].memory == None || rs[k].memory == Some(0)
    ensures Peak(Memories(rs)) == 0
  {
    if |rs| > 0 {
      var init := rs[..|rs| - 1];
      assert forall k | 0 <= k < |init| :: init[k] == rs[k];
      PeakOfZeros(init);
    }
  }

  /**
   * When no case is critical and none is a mismatch, every case was
   * accepted, so the points reach the total: the wrong-answer branch of the
   * points comparison after the loop is never taken.
   */
  lemma FullPointsWithoutMismatch(cases: seq<TestCase>, rs: seq<TestResult>)
    requires |rs| == |cases| && CriticalIndex(rs) == |rs| && !AnyMismatch(rs)
    ensures forall k | 0 <= k < |rs| :: rs[k].status == Accepted
    ensures AcceptedPoints(cases, rs) == SumPoints(cases)
  {
    CriticalIndexIsFirst(rs);
    NoMismatchEverywhere(rs);
    AcceptedPointsBounded(cases, rs);
  }

  // ---------------------------------------------------------------------
  // Properties of one judging run
  // ---------------------------------------------------------------------

  /** Every run ends with a terminal status and the judged mark set. */
  lemma JudgedIsFinal(before: Snapshot, language: string, problem: Problem, cases: seq<TestCase>,
                      tool: ToolResult, rs: seq<TestResult>, fault: Fault)
    requires |rs| == |cases|
    ensures var r := Judged(before, language, problem, cases, tool, rs, fault);
            r.final.judged && IsTerminal(r.final.status)
  {
    if ReachesLoop(language, cases, tool, fault) {
      JudgedPastGate(before, language, problem, cases, tool, rs, fault);
      CriticalIndexIsFirst(rs);
    }
  }

  /**
   * The compile gate: only a compiled language with cases is compiled; a
   * failed build records compile_error with the compiler's message and runs
   * no case; any case that runs has passed the gate.
   */
  lemma CompileGate(before: Snapshot, language: string, problem: Problem, cases: seq<TestCase>,
                    tool: ToolResult, rs: seq<TestResult>, fault: Fault)
    requires |rs| == |cases|
    ensures var r := Judged(before, language, problem, cases, tool, rs, fault);
            && (r.compiled <==> fault != AtQuery && |cases| > 0 && NeedsBuild(language))
            && (fault != AtQuery && |cases| > 0 && !CompilePasses(language, tool) ==>
                  r.executed == 0 &&
                  r.final == before.(status := CompileError, judgeMessage := Some(CompileCode(language, tool).message), judged := true))
            && (r.executed > 0 ==> ReachesLoop(language, cases, tool, fault))
  {
    if ReachesLoop(language, cases, tool, fault) {
      JudgedPastGate(before, language, problem, cases, tool, rs, fault);
    }
  }

  /** A submission without test cases is accepted with the problem's points, its other fields kept. */
  lemma NoCasesAccepted(before: Snapshot, language: string, problem: Problem,
                        tool: ToolResult, fault: Fault)
    requires fault != AtQuery
    ensures Judged(before, language, problem, [], tool, [], fault) ==
            JudgeRun(before.(status := Accepted, score := problem.points, judged := true), false, 0)
  {
  }

  /**
   * An exception inside the try block (loading the cases, or a loop
   * iteration that is reached) is absorbed: runtime error with the internal
   * message, the score and measurements left as they were.
   */
  lemma FaultAbsorbed(before: Snapshot, language: string, problem: Problem, cases: seq<TestCase>,
                      tool: ToolResult, rs: seq<TestResult>, fault: Fault)
    requires |rs| == |cases|
    requires fault == AtQuery || (ReachesLoop(language, cases, tool, fault) && Reached(rs, fault))
    ensures var r := Judged(before, language, problem, cases, tool, rs, fault);
            && r.final == before.(status := RuntimeError, judgeMessage := Some(InternalError), judged := true)
            && r.executed == (if fault == AtQuery then 0 else fault.index)
  {
    if fault != AtQuery {
      JudgedPastGate(before, language, problem, cases, tool, rs, fault);
      AggregateWhenRaised(before.(status := Judging), cases, rs, fault, NeedsBuild(language));
    }
  }

  /** A fault planted after the case that broke the loop is never reached. */
  lemma FaultAfterBreakIgnored(before: Snapshot, language: string, problem: Problem, cases: seq<TestCase>,
                               tool: ToolResult, rs: seq<TestResult>, fault: Fault)
    requires |rs| == |cases| && fault.AtCase? && fault.index > CriticalIndex(rs)
    ensures Judged(before, language, problem, cases, tool, rs, fault) ==
            Judged(before, language, problem, cases, tool, rs, NoFault)
  {
  }

  /**
   * The first critical result ends the loop: its status and message are
   * recorded, only the cases before it count towards the score and the
   * maxima, and it is the last case run.
   */
  lemma StopsAtFirstCritical(before: Snapshot, language: string, problem: Problem, cases: seq<TestCase>,
                             tool: ToolResult, rs: seq<TestResult>, fault: Fault)
    requires |rs| == |cases| && ReachesLoop(language, cases, tool, fault) && !Reached(rs, fault)
    requires CriticalIndex(rs) < |rs|
    ensures var r := Judged(before, language, problem, cases, tool, rs, fault);
            var n := CriticalIndex(rs);
            && IsCritical(r.final.status) && r.final.status == rs[n].status
            && r.final.judgeMessage == Some(rs[n].message.GetOr(""))
            && r.final.score == AcceptedPoints(cases, rs[..n])
            && r.final.executionTime == Some(Peak(Times(rs[..n])))
            && r.executed == n + 1
  {
    JudgedPastGate(before, language, problem, cases, tool, rs, fault);
    AggregateAtCritical(before.(status := Judging), cases, rs, fault, NeedsBuild(language));
  }

  /** Results that agree up to the first critical one have the same break position and the same results before it. */
  lemma SameUpToCritical(rs: seq<TestResult>, rs': seq<TestResult>)
    requires |rs| == |rs'| && CriticalIndex(rs) < |rs|
    requires rs[..CriticalIndex(rs) + 1] == rs'[..CriticalIndex(rs) + 1]
    ensures var n := CriticalIndex(rs);
            CriticalIndex(rs') == n && rs[..n] == rs'[..n] && rs[n] == rs'[n]
  {
    var n := CriticalIndex(rs);
    CriticalIndexIsFirst(rs);
    forall k | 0 <= k <= n
      ensures rs'[k] == rs[k]
    {
      assert rs[k] == rs[..n + 1][k];
      assert rs'[k] == rs'[..n + 1][k];
    }
    CriticalIndexAt(rs', n);
    assert rs[..n] == rs'[..n];
  }

  /** The loop's aggregate reads nothing after the first critical result. */
  lemma AggregateIgnoresLater(started: Snapshot, cases: seq<TestCase>, rs: seq<TestResult>, rs': seq<TestResult>,
                              fault: Fault, compiled: bool)
    requires |rs| == |rs'| == |cases| && CriticalIndex(rs) < |rs|
    requires CriticalIndex(rs') == CriticalIndex(rs)
    requires rs[..CriticalIndex(rs)] == rs'[..CriticalIndex(rs)] && rs[CriticalIndex(rs)] == rs'[CriticalIndex(rs)]
    ensures Aggregate(started, cases, rs, fault, compiled) == Aggregate(started, cases, rs', fault, compiled)
  {
    if !Reached(rs, fault) {
      AggregateAtCritical(started, cases, rs, fault, compiled);
      AggregateAtCritical(started, cases, rs', fault, compiled);
    }
  }

  /** The results after the first critical one are never looked at. */
  lemma LaterCasesIgnored(before: Snapshot, language: string, problem: Problem, cases: seq<TestCase>,
                          tool: ToolResult, rs: seq<TestResult>, rs': seq<TestResult>, fault: Fault)
    requires |rs| == |rs'| == |cases| && CriticalIndex(rs) < |rs|
    requires rs[..CriticalIndex(rs) + 1] == rs'[..CriticalIndex(rs) + 1]
    ensures Judged(before, language, problem, cases, tool, rs, fault) ==
            Judged(before, language, problem, cases, tool, rs', fault)
  {
    SameUpToCritical(rs, rs');
    if ReachesLoop(language, cases, tool, fault) {
      JudgedPastGate(before, language, problem, cases, tool, rs, fault);
      JudgedPastGate(before, language, problem, cases, tool, rs', fault);
      AggregateIgnoresLater(before.(status := Judging), cases, rs, rs', fault, NeedsBuild(language));
    }
  }

  /**
   * Without a critical result the loop runs every case; the verdict is
   * wrong answer exactly when some case was a mismatch, the score is the
   * accepted points, and a judge message left by an earlier run is kept.
   */
  lemma VerdictWithoutBreak(before: Snapshot, language: string, problem: Problem, cases: seq<TestCase>,
                            tool: ToolResult, rs: seq<TestResult>, fault: Fault)
    requires |rs| == |cases| && ReachesLoop(language, cases, tool, fault) && !Reached(rs, fault)
    requires CriticalIndex(rs) == |rs|
    ensures var r := Judged(before, language, problem, cases, tool, rs, fault);
            && r.final.status == (if exists k | 0 <= k < |rs| :: IsMismatch(rs[k].status) then WrongAnswer else Accepted)
            && r.final.score == AcceptedPoints(cases, rs)
            && r.final.judgeMessage == before.judgeMessage
            && r.executed == |cases|
  {
    JudgedPastGate(before, language, problem, cases, tool, rs, fault);
    AggregateAtEnd(before.(status := Judging), cases, rs, fault, NeedsBuild(language));
    NoMismatchEverywhere(rs);
    if !AnyMismatch(rs) {
      FullPointsWithoutMismatch(cases, rs);
    }
  }

  /**
   * Once the loop runs, the submission is accepted exactly when every case
   * is accepted, and then it scores the points of all cases.
   */
  lemma AcceptedExactlyWhenAllAccepted(before: Snapshot, language: string, problem: Problem, cases: seq<TestCase>,
                                       tool: ToolResult, rs: seq<TestResult>, fault: Fault)
    requires |rs| == |cases| && ReachesLoop(language, cases, tool, fault) && !Reached(rs, fault)
    ensures var r := Judged(before, language, problem, cases, tool, rs, fault);
            && (r.final.status == Accepted <==> forall k | 0 <= k < |rs| :: rs[k].status == Accepted)
            && (r.final.status == Accepted ==> r.final.score == SumPoints(cases) && r.executed == |cases|)
  {
    CriticalIndexIsFirst(rs);
    if CriticalIndex(rs) < |rs| {
      StopsAtFirstCritical(before, language, problem, cases, tool, rs, fault);
    } else {
      VerdictWithoutBreak(before, language, problem, cases, tool, rs, fault);
      NoMismatchEverywhere(rs);
      if forall k | 0 <= k < |rs| :: rs[k].status == Accepted {
        AcceptedPointsBounded(cases, rs);
      }
    }
  }

  /** Once the loop runs, the score is between 0 and the points of all cases. */
  lemma ScoreBounded(before: Snapshot, language: string, problem: Problem, cases: seq<TestCase>,
                     tool: ToolResult, rs: seq<TestResult>, fault: Fault)
    requires |rs| == |cases| && ReachesLoop(language, cases, tool, fault) && !Reached(rs, fault)
    ensures var r := Judged(before, language, problem, cases, tool, rs, fault);
            0 <= r.final.score <= SumPoints(cases)
  {
    var n := CriticalIndex(rs);
    if n < |rs| {
      StopsAtFirstCritical(before, language, problem, cases, tool, rs, fault);
    } else {
      VerdictWithoutBreak(before, language, problem, cases, tool, rs, fault);
      assert rs[..n] == rs;
    }
    AcceptedPointsBounded(cases, rs[..n]);
    PrefixPointsBounded(cases, n);
  }

  /** The peak of the reported times bounds each result's time and is one of them, unless it is 0. */
  lemma PeakOfTimes(rs: seq<TestResult>)
    ensures forall k | 0 <= k < |rs| :: rs[k].time.GetOr(0) <= Peak(Times(rs))
    ensures Peak(Times(rs)) == 0 || exists k | 0 <= k < |rs| :: Peak(Times(rs)) == rs[k].time.GetOr(0)
  {
    PeakIsMax(Times(rs));
    TimesReported(rs);
  }

  /** Once the loop runs without a reached fault, the recorded time is the peak over the cases before the break. */
  lemma JudgedTime(before: Snapshot, language: string, problem: Problem, cases: seq<TestCase>,
                   tool: ToolResult, rs: seq<TestResult>, fault: Fault)
    requires |rs| == |cases| && ReachesLoop(language, cases, tool, fault) && !Reached(rs, fault)
    ensures Judged(before, language, problem, cases, tool, rs, fault).final.executionTime
            == Some(Peak(Times(rs[..CriticalIndex(rs)])))
  {
    JudgedPastGate(before, language, problem, cases, tool, rs, fault);
    if CriticalIndex(rs) < |rs| {
      AggregateAtCritical(before.(status := Judging), cases, rs, fault, NeedsBuild(language));
    } else {
      AggregateAtEnd(before.(status := Judging), cases, rs, fault, NeedsBuild(language));
      assert rs[..|rs|] == rs;
    }
  }

  /**
   * Once the loop runs, the recorded execution time is the largest time
   * reported by a case before the break: it bounds each of them and is one
   * of them, unless it is the starting 0.
   */
  lemma ExecutionTimeIsMaxOfRun(before: Snapshot, language: string, problem: Problem, cases: seq<TestCase>,
                                tool: ToolResult, rs: seq<TestResult>, fault: Fault)
    requires |rs| == |cases| && ReachesLoop(language, cases, tool, fault) && !Reached(rs, fault)
    ensures var t := Judged(before, language, problem, cases, tool, rs, fault).final.executionTime;
            && t.Some?
            && (forall k | 0 <= k < CriticalIndex(rs) :: rs[k].time.GetOr(0) <= t.value)
            && (t == Some(0) || exists k | 0 <= k < CriticalIndex(rs) :: t == Some(rs[k].time.GetOr(0)))
  {
    var n := CriticalIndex(rs);
    var ran := rs[..n];
    JudgedTime(before, language, problem, cases, tool, rs, fault);
    PeakOfTimes(ran);
    assert forall k | 0 <= k < n :: ran[k] == rs[k];
  }

  /** No memory is measured: once the loop runs, the recorded memory is 0. */
  lemma MemoryAlwaysZero(before: Snapshot, language: string, problem: Problem, cases: seq<TestCase>,
                         tool: ToolResult, runs: seq<CaseRun>, rs: seq<TestResult>, fault: Fault)
    requires |runs| == |cases| == |rs| && Observed(language, problem, cases, runs, rs)
    requires ReachesLoop(language, cases, tool, fault) && !Reached(rs, fault)
    ensures Judged(before, language, problem, cases, tool, rs, fault).final.memoryUsed == Some(0)
  {
    var n := CriticalIndex(rs);
    JudgedPastGate(before, language, problem, cases, tool, rs, fault);
    if n < |rs| {
      AggregateAtCritical(before.(status := Judging), cases, rs, fault, NeedsBuild(language));
    } else {
      AggregateAtEnd(before.(status := Judging), cases, rs, fault, NeedsBuild(language));
      assert rs[..n] == rs;
    }
    forall k | 0 <= k < n
      ensures rs[..n][k].memory == None || rs[..n][k].memory == Some(0)
    {
      assert rs[..n][k] == rs[k] == RunTestCase(language, runs[k], cases[k].outputData, problem.timeLimit);
    }
    PeakOfZeros(rs[..n]);
  }

  /**
   * Two cases, the first accepted in `t` ms and the second over the time
   * limit: the submission gets time_limit with the first case's points, an
   * empty judge message, and the first case's time as its execution time
   * (the time of the case that broke the loop is not counted).
   */
  lemma TimeLimitAfterAccepted(before: Snapshot, language: string, problem: Problem, a: TestCase, b: TestCase,
                               tool: ToolResult, t: nat)
    requires !NeedsBuild(language)
    ensures var rs := [TestResult(Accepted, Some(t), Some(0), None), TestResult(TimeLimit, Some(problem.timeLimit), None, None)];
            Judged(before, language, problem, [a, b], tool, rs, NoFault) ==
            JudgeRun(Snapshot(TimeLimit, a.points, Some(t), Some(0), Some(""), true), false, 2)
  {
    var rs := [TestResult(Accepted, Some(t), Some(0), None), TestResult(TimeLimit, Some(problem.timeLimit), None, None)];
    CriticalIndexAt(rs, 1);
    assert rs[..1] == [rs[0]] && rs[..1][..0] == [];
    JudgedPastGate(before, language, problem, [a, b], tool, rs, NoFault);
    AggregateAtCritical(before.(status := Judging), [a, b], rs, NoFault, false);
  }
}
