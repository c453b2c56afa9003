/**
 * The judging orchestrator of judge.py (judge_submission): a state machine
 * over one submission record.  The toolchain, every child process and the
 * database are inputs or modelled state: the compile stage's report, one
 * CaseRun per test case, and the place (if any) where an exception is raised
 * inside the orchestrator's try block.  Every database commit appends a
 * snapshot of the persisted fields to `commits`; `judged_at` is the flag
 * `judged`.
 */
module Judge {
  import opened Wrappers
  import opened Models
  import opened Verdict

  /** The judge message stored when the orchestrator absorbs a fault. */
  const InternalError := "Internal judging error"

  /** The persisted fields of a submission, as one commit writes them. */
  datatype Snapshot = Snapshot(
    status: Status,
    score: int,
    executionTime: Option<nat>,
    memoryUsed: Option<nat>,
    judgeMessage: Option<string>,
    judged: bool)

  /** Where an exception inside the orchestrator's try block is raised, if anywhere. */
  datatype Fault =
    | NoFault
    | AtQuery          // loading the test cases
    | AtCase(index: nat)  // on entering the loop iteration for that test case

  // ---------------------------------------------------------------------
  // The reference definition of one judging run
  // ---------------------------------------------------------------------

  function Max(a: nat, b: nat): nat {
    if a >= b then a else b
  }

  /** The largest element of `xs`, starting from 0 (the running maxima of the loop). */
  function Peak(xs: seq<nat>): nat {
    if |xs| == 0 then 0 else Max(Peak(xs[..|xs| - 1]), xs[|xs| - 1])
  }

  /** Peak is the maximum: it bounds every element and is one of them, unless it is the starting 0. */
  lemma {:induction false} PeakIsMax(xs: seq<nat>)
    ensures forall k | 0 <= k < |xs| :: xs[k] <= Peak(xs)
    ensures Peak(xs) == 0 || exists k | 0 <= k < |xs| :: xs[k] == Peak(xs)
  {
    if |xs| > 0 {
      var init := xs[..|xs| - 1];
      PeakIsMax(init);
      assert forall k | 0 <= k < |init| :: init[k] == xs[k];
      if Peak(xs) != 0 && Peak(xs) != xs[|xs| - 1] {
        var k :| 0 <= k < |init| && init[k] == Peak(init);
        assert xs[k] == Peak(xs);
      }
    }
  }

  /** Sum of the points of the first `n` test cases. */
  function PrefixPoints(cases: seq<TestCase>, n: nat): nat
    requires n <= |cases|
  {
    if n == 0 then 0 else PrefixPoints(cases, n - 1) + cases[n - 1].points
  }

  /** Sum of the points of all test cases. */
  function SumPoints(cases: seq<TestCase>): nat {
    PrefixPoints(cases, |cases|)
  }

  /** What the runner reports for each of the first `n` test cases, in order. */
  function ResultsUpTo(language: string, problem: Problem, cases: seq<TestCase>, runs: seq<CaseRun>, n: nat): (rs: seq<TestResult>)
    requires n <= |cases| == |runs|
    ensures |rs| == n
  {
    if n == 0 then []
    else ResultsUpTo(language, problem, cases, runs, n - 1)
         + [RunTestCase(language, runs[n - 1], cases[n - 1].outputData, problem.timeLimit)]
  }

  /** What the runner reports for every test case, in order. */
  function Results(language: string, problem: Problem, cases: seq<TestCase>, runs: seq<CaseRun>): (rs: seq<TestResult>)
    requires |runs| == |cases|
    ensures |rs| == |cases|
  {
    ResultsUpTo(language, problem, cases, runs, |cases|)
  }

  /** Reported times, with an absent time read as 0. */
  function Times(rs: seq<TestResult>): (ts: seq<nat>)
    ensures |ts| == |rs|
  {
    if |rs| == 0 then [] else Times(rs[..|rs| - 1]) + [rs[|rs| - 1].time.GetOr(0)]
  }

  /** Reported memory, with an absent value read as 0. */
  function Memories(rs: seq<TestResult>): (ms: seq<nat>)
    ensures |ms| == |rs|
  {
    if |rs| == 0 then [] else Memories(rs[..|rs| - 1]) + [rs[|rs| - 1].memory.GetOr(0)]
  }

  /** Element k of Times(rs) is the time the k-th result reports, an absent one read as 0. */
  lemma {:induction false} TimesReported(rs: seq<TestResult>)
    ensures forall k | 0 <= k < |rs| :: Times(rs)[k] == rs[k].time.GetOr(0)
  {
    if |rs| > 0 {
      var init := rs[..|rs| - 1];
      TimesReported(init);
      assert forall k | 0 <= k < |init| :: init[k] == rs[k];
    }
  }

  /** Element k of Memories(rs) is the memory the k-th result reports, an absent one read as 0. */
  lemma {:induction false} MemoriesReported(rs: seq<TestResult>)
    ensures forall k | 0 <= k < |rs| :: Memories(rs)[k] == rs[k].memory.GetOr(0)
  {
    if |rs| > 0 {
      var init := rs[..|rs| - 1];
      MemoriesReported(init);
      assert forall k | 0 <= k < |init| :: init[k] == rs[k];
    }
  }

  /** The position of the first critical result, or |rs| when there is none. */
  function CriticalIndex(rs: seq<TestResult>): (n: nat)
    ensures n <= |rs|
  {
    if |rs| == 0 then 0
    else if IsCritical(rs[0].status) then 0
    else 1 + CriticalIndex(rs[1..])
  }

  /** Nothing before the first critical position is critical, and the result there is. */
  lemma {:induction false} CriticalIndexIsFirst(rs: seq<TestResult>)
    ensures forall k | 0 <= k < CriticalIndex(rs) :: !IsCritical(rs[k].status)
    ensures CriticalIndex(rs) < |rs| ==> IsCritical(rs[CriticalIndex(rs)].status)
  {
    if |rs| > 0 && !IsCritical(rs[0].status) {
      CriticalIndexIsFirst(rs[1..]);
      forall k | 0 < k < CriticalIndex(rs)
        ensures !IsCritical(rs[k].status)
      {
        assert rs[k] == rs[1..][k - 1];
      }
    }
  }

  /** A result that is neither accepted nor critical: a mismatch. */
  predicate IsMismatch(s: Status) {
    s != Accepted && !IsCritical(s)
  }

  /** Whether some result is a mismatch. */
  predicate AnyMismatch(rs: seq<TestResult>) {
    |rs| > 0 && (AnyMismatch(rs[..|rs| - 1]) || IsMismatch(rs[|rs| - 1].status))
  }

  /** Sum of the points of the test cases whose result is accepted. */
  function AcceptedPoints(cases: seq<TestCase>, rs: seq<TestResult>): nat
    requires |rs| <= |cases|
  {
    if |rs| == 0 then 0
    else AcceptedPoints(cases, rs[..|rs| - 1]) + (if rs[|rs| - 1].status == Accepted then cases[|rs| - 1].points else 0)
  }

  /** What one judging run leaves: final fields, whether it compiled, how many cases ran. */
  datatype JudgeRun = JudgeRun(final: Snapshot, compiled: bool, executed: nat)

  /** The except branch: runtime error with the internal message, judged. */
  function Absorbed(s: Snapshot): Snapshot {
    s.(status := RuntimeError, judgeMessage := Some(InternalError), judged := true)
  }

  /** The compile gate lets the run go on: no build step, or the build succeeded. */
  predicate CompilePasses(language: string, tool: ToolResult) {
    !NeedsBuild(language) || CompileCode(language, tool).CompileOk?
  }

  /** A fault planted at a loop iteration is reached: no earlier case broke the loop. */
  predicate Reached(rs: seq<TestResult>, fault: Fault) {
    fault.AtCase? && fault.index < |rs| && fault.index <= CriticalIndex(rs)
  }

  /**
   * The test-case loop and what follows it, from the fields `started` the
   * loop begins with, on the sequence of results the runner would report: absorb a reached fault, else stop at the first
   * critical result, else decide from mismatches and the points.
   */
  function Aggregate(started: Snapshot, cases: seq<TestCase>, rs: seq<TestResult>, fault: Fault, compiled: bool): JudgeRun
    requires |rs| == |cases|
  {
    var n := CriticalIndex(rs);
    if Reached(rs, fault) then JudgeRun(Absorbed(started), compiled, fault.index)
    else
      var ran := rs[..n];
      var status :=
        if n < |rs| then rs[n].status
        else if AnyMismatch(rs) then WrongAnswer
        else if AcceptedPoints(cases, rs) == SumPoints(cases) then Accepted
        else WrongAnswer;
      var message := if n < |rs| then Some(rs[n].message.GetOr("")) else started.judgeMessage;
      JudgeRun(
        Snapshot(status, AcceptedPoints(cases, ran), Some(Peak(Times(ran))), Some(Peak(Memories(ran))), message, true),
        compiled,
        if n < |rs| then n + 1 else |rs|)
  }

  /**
   * The outcome of judging a submission whose persisted fields were `before`
   * when the runner reports `rs`, one result per test case: stated on the
   * whole sequence of results rather than step by step.
   */
  function Judged(before: Snapshot, language: string, problem: Problem, cases: seq<TestCase>,
                  tool: ToolResult, rs: seq<TestResult>, fault: Fault): JudgeRun
    requires |rs| == |cases|
  {
    var started := before.(status := Judging);
    if fault == AtQuery then JudgeRun(Absorbed(started), false, 0)
    else if |cases| == 0 then JudgeRun(started.(status := Accepted, score := problem.points, judged := true), false, 0)
    else if !CompilePasses(language, tool) then
      JudgeRun(started.(status := CompileError, judgeMessage := Some(CompileCode(language, tool).message), judged := true), true, 0)
    else Aggregate(started, cases, rs, fault, NeedsBuild(language))
  }

  /** Loading the cases raised nothing, there are cases, and the compile gate passes: the loop runs. */
  predicate ReachesLoop(language: string, cases: seq<TestCase>, tool: ToolResult, fault: Fault) {
    fault != AtQuery && |cases| > 0 && CompilePasses(language, tool)
  }

  /** Past the compile gate, the outcome is the aggregate of the loop. */
  lemma JudgedPastGate(before: Snapshot, language: string, problem: Problem, cases: seq<TestCase>,
                       tool: ToolResult, rs: seq<TestResult>, fault: Fault)
    requires |rs| == |cases| && ReachesLoop(language, cases, tool, fault)
    ensures Judged(before, language, problem, cases, tool, rs, fault) ==
            Aggregate(before.(status := Judging), cases, rs, fault, NeedsBuild(language))
  {
  }

  /** A reached fault is absorbed, with the cases before it counted as executed. */
  lemma AggregateWhenRaised(started: Snapshot, cases: seq<TestCase>, rs: seq<TestResult>, fault: Fault, compiled: bool)
    requires |rs| == |cases| && Reached(rs, fault)
    ensures Aggregate(started, cases, rs, fault, compiled) == JudgeRun(Absorbed(started), compiled, fault.index)
  {
  }

  /** Unless a fault intervenes, the first critical result decides the status and its message is stored. */
  lemma AggregateAtCritical(started: Snapshot, cases: seq<TestCase>, rs: seq<TestResult>, fault: Fault, compiled: bool)
    requires |rs| == |cases| && !Reached(rs, fault) && CriticalIndex(rs) < |rs|
    ensures var n := CriticalIndex(rs);
            && IsCritical(rs[n].status)
            && Aggregate(started, cases, rs, fault, compiled) ==
               JudgeRun(Snapshot(rs[n].status, AcceptedPoints(cases, rs[..n]), Some(Peak(Times(rs[..n]))),
                                 Some(Peak(Memories(rs[..n]))), Some(rs[n].message.GetOr("")), true),
                        compiled, n + 1)
  {
    CriticalIndexIsFirst(rs);
  }

  /** Without a fault or critical result, mismatches and points decide, and the old message stays. */
  lemma AggregateAtEnd(started: Snapshot, cases: seq<TestCase>, rs: seq<TestResult>, fault: Fault, compiled: bool)
    requires |rs| == |cases| && !Reached(rs, fault) && CriticalIndex(rs) == |rs|
    ensures Aggregate(started, cases, rs, fault, compiled) ==
            JudgeRun(Snapshot(if AnyMismatch(rs) then WrongAnswer
                              else if AcceptedPoints(cases, rs) == SumPoints(cases) then Accepted
                              else WrongAnswer,
                              AcceptedPoints(cases, rs), Some(Peak(Times(rs))), Some(Peak(Memories(rs))),
                              started.judgeMessage, true),
                     compiled, |rs|)
  {
    assert rs[..|rs|] == rs;
  }

  /**
   * `rs` is what the runner reports for the first |rs| test cases.  The
   * trigger keeps the per-case classification folded until a case is run.
   */
  predicate Observed(language: string, problem: Problem, cases: seq<TestCase>, runs: seq<CaseRun>, rs: seq<TestResult>)
    requires |runs| == |cases|
  {
    && |rs| <= |cases|
    && forall k {:trigger RunTestCase(language, runs[k], cases[k].outputData, problem.timeLimit)} | 0 <= k < |rs| ::
         rs[k] == RunTestCase(language, runs[k], cases[k].outputData, problem.timeLimit)
  }

  /** The results of the first `n` cases are what the runner reports for them. */
  lemma {:induction false} ResultsUpToObserved(language: string, problem: Problem, cases: seq<TestCase>, runs: seq<CaseRun>, n: nat)
    requires n <= |cases| == |runs|
    ensures Observed(language, problem, cases, runs, ResultsUpTo(language, problem, cases, runs, n))
  {
    if n > 0 {
      ResultsUpToObserved(language, problem, cases, runs, n - 1);
      var rs := ResultsUpTo(language, problem, cases, runs, n);
      var prev := ResultsUpTo(language, problem, cases, runs, n - 1);
      forall k | 0 <= k < n
        ensures rs[k] == RunTestCase(language, runs[k], cases[k].outputData, problem.timeLimit)
      {
        if k < n - 1 {
          assert rs[k] == prev[k];
        }
      }
    }
  }

  /** Conversely, the reports of the first |rs| cases are determined: they are the results. */
  lemma {:induction false} ObservedIsResults(language: string, problem: Problem, cases: seq<TestCase>, runs: seq<CaseRun>,
                                             rs: seq<TestResult>)
    requires |runs| == |cases| && Observed(language, problem, cases, runs, rs)
    ensures rs == ResultsUpTo(language, problem, cases, runs, |rs|)
  {
    var n := |rs|;
    if n > 0 {
      var last := RunTestCase(language, runs[n - 1], cases[n - 1].outputData, problem.timeLimit);
      assert Observed(language, problem, cases, runs, rs[..n - 1]) by {
        forall k | 0 <= k < n - 1
          ensures rs[..n - 1][k] == RunTestCase(language, runs[k], cases[k].outputData, problem.timeLimit)
        {
          assert rs[..n - 1][k] == rs[k];
        }
      }
      ObservedIsResults(language, problem, cases, runs, rs[..n - 1]);
      assert rs[n - 1] == last;
      assert rs == rs[..n - 1] + [last];
    }
  }

  /** A non-critical result at `i`, with none before it, moves the first critical position past `i`. */
  lemma CriticalIndexPast(rs: seq<TestResult>, i: nat)
    requires i <= CriticalIndex(rs) && i < |rs|
    ensures CriticalIndex(rs) == i <==> IsCritical(rs[i].status)
  {
    CriticalIndexIsFirst(rs);
  }

  /** One more result extends each running aggregate of the loop by that result alone. */
  lemma {:induction false} TallyStep(cases: seq<TestCase>, rs: seq<TestResult>, i: nat)
    requires i < |rs| <= |cases|
    ensures AcceptedPoints(cases, rs[..i + 1]) ==
            AcceptedPoints(cases, rs[..i]) + (if rs[i].status == Accepted then cases[i].points else 0)
    ensures Peak(Times(rs[..i + 1])) == Max(Peak(Times(rs[..i])), rs[i].time.GetOr(0))
    ensures Peak(Memories(rs[..i + 1])) == Max(Peak(Memories(rs[..i])), rs[i].memory.GetOr(0))
    ensures AnyMismatch(rs[..i + 1]) == (AnyMismatch(rs[..i]) || IsMismatch(rs[i].status))
  {
    var next := rs[..i + 1];
    assert next[..i] == rs[..i] && next[i] == rs[i];
    assert Times(next) == Times(rs[..i]) + [rs[i].time.GetOr(0)];
    assert Times(next)[..i] == Times(rs[..i]);
    assert Memories(next) == Memories(rs[..i]) + [rs[i].memory.GetOr(0)];
    assert Memories(next)[..i] == Memories(rs[..i]);
  }

  // ---------------------------------------------------------------------
  // The submission record and the orchestrator
  // ---------------------------------------------------------------------

  /** A submission (models.py) with the fields judging updates in place. */
  class Submission {
    const userId: int
    const problemId: int
    const language: string
    const code: string
    var status: Status
    var score: int
    var executionTime: Option<nat>
    var memoryUsed: Option<nat>
    var judgeMessage: Option<string>
    var judged: bool
    /** Every snapshot committed to the database, oldest first. */
    var commits: seq<Snapshot>

    /** The persisted fields as they are now. */
    function Fields(): Snapshot
      reads this
    {
      Snapshot(status, score, executionTime, memoryUsed, judgeMessage, judged)
    }

    /** A new submission: pending, score 0, nothing measured or judged yet. */
    constructor (userId: int, problemId: int, language: string, code: string)
      ensures this.userId == userId && this.problemId == problemId
      ensures this.language == language && this.code == code
      ensures Fields() == Snapshot(Pending, 0, None, None, None, false)
      ensures commits == []
    {
      this.userId := userId;
      this.problemId := problemId;
      this.language := language;
      this.code := code;
      status := Pending;
      score := 0;
      executionTime := None;
      memoryUsed := None;
      judgeMessage := None;
      judged := false;
      commits := [];
    }

    /** db.session.commit(): the current fields become the latest persisted snapshot. */
    method Commit()
      modifies this
      ensures commits == old(commits) + [Fields()]
      ensures Fields() == old(Fields())
    {
      commits := commits + [Fields()];
    }

    /**
     * One iteration of the test-case loop, for a case where no fault is
     * raised: run it, add its points when accepted, and either stop at a
     * critical result (recording its status and message) or mark a mismatch
     * and update the running maxima.  Stated on the running aggregates of
     * the results so far: the iteration stops exactly at the first critical
     * result, and otherwise extends the aggregates by this case.
     */
    method RunCase(problem: Problem, cases: seq<TestCase>, runs: seq<CaseRun>, ghost rs: seq<TestResult>, i: nat,
                   totalScore: nat, maxTime: nat, maxMemory: nat)
      returns (stop: bool, totalScore': nat, maxTime': nat, maxMemory': nat)
      requires |runs| == |cases| == |rs| && Observed(language, problem, cases, runs, rs) && i < |rs|
      requires i <= CriticalIndex(rs)
      requires totalScore == AcceptedPoints(cases, rs[..i])
      requires maxTime == Peak(Times(rs[..i])) && maxMemory == Peak(Memories(rs[..i]))
      requires status == if AnyMismatch(rs[..i]) then WrongAnswer else Judging
      modifies this
      ensures stop <==> CriticalIndex(rs) == i
      ensures stop ==> Fields() == old(Fields()).(status := rs[i].status, judgeMessage := Some(rs[i].message.GetOr("")))
      ensures !stop ==>
                && i + 1 <= CriticalIndex(rs)
                && totalScore' == AcceptedPoints(cases, rs[..i + 1])
                && maxTime' == Peak(Times(rs[..i + 1])) && maxMemory' == Peak(Memories(rs[..i + 1]))
                && status == (if AnyMismatch(rs[..i + 1]) then WrongAnswer else Judging)
                && Fields() == old(Fields()).(status := status)
      ensures commits == old(commits)
    {
      TallyStep(cases, rs, i);
      CriticalIndexPast(rs, i);
      var result := RunTestCase(language, runs[i], cases[i].outputData, problem.timeLimit);
      assert result == rs[i];
      totalScore', maxTime', maxMemory' := totalScore, maxTime, maxMemory;
      stop := false;
      if result.status == Accepted {
        totalScore' := totalScore + cases[i].points;
      } else if IsCritical(result.status) {
        status := result.status;
        judgeMessage := Some(result.message.GetOr(""));
        stop := true;
        return;
      } else if status != WrongAnswer {
        status := WrongAnswer;
      }
      maxTime' := Max(maxTime, result.time.GetOr(0));
      maxMemory' := Max(maxMemory, result.memory.GetOr(0));
    }

    /**
     * The test-case loop of judge_submission: runs the cases in order,
     * accumulating the points of accepted cases and the largest time and
     * memory, marks the submission wrong on a mismatch and stops at the
     * first critical result, or at the iteration where a fault is raised.
     * `rs` is what the runner reports for each case; `i` is where the loop
     * stopped.
     */
    method RunCases(problem: Problem, cases: seq<TestCase>, runs: seq<CaseRun>, fault: Fault, ghost rs: seq<TestResult>)
      returns (raised: bool, i: nat, totalScore: nat, maxTime: nat, maxMemory: nat)
      requires |runs| == |cases| == |rs| && Observed(language, problem, cases, runs, rs)
      requires status == Judging
      modifies this
      ensures raised == Reached(rs, fault)
      ensures i == if raised then fault.index else CriticalIndex(rs)
      ensures totalScore == AcceptedPoints(cases, rs[..i])
      ensures maxTime == Peak(Times(rs[..i])) && maxMemory == Peak(Memories(rs[..i]))
      ensures !raised && i < |rs| ==>
                Fields() == old(Fields()).(status := rs[i].status, judgeMessage := Some(rs[i].message.GetOr("")))
      ensures (raised || i == |rs|) ==>
                Fields() == old(Fields()).(status := if AnyMismatch(rs[..i]) then WrongAnswer else Judging)
      ensures commits == old(commits)
    {
      ghost var started := Fields();
      raised := false;
      i, totalScore, maxTime, maxMemory := 0, 0, 0, 0;
      assert rs[..0] == [];
      while i < |cases|
        invariant 0 <= i <= |cases| && !raised
        invariant i <= CriticalIndex(rs)
        invariant fault.AtCase? ==> fault.index >= i
        invariant totalScore == AcceptedPoints(cases, rs[..i])
        invariant maxTime == Peak(Times(rs[..i])) && maxMemory == Peak(Memories(rs[..i]))
        invariant status == if AnyMismatch(rs[..i]) then WrongAnswer else Judging
        invariant score == started.score && executionTime == started.executionTime && memoryUsed == started.memoryUsed
        invariant judgeMessage == started.judgeMessage && judged == started.judged
        invariant commits == old(commits)
      {
        if fault == AtCase(i) {
          raised := true;
          return;
        }
        var stop, total', time', memory' := RunCase(problem, cases, runs, rs, i, totalScore, maxTime, maxMemory);
        if stop {
          return;
        }
        totalScore, maxTime, maxMemory := total', time', memory';
        i := i + 1;
      }
    }

    /**
     * The part of judge_submission after the compile gate: the test-case loop
     * and the final fields it leaves (before the closing commit).
     */
    method JudgeCases(problem: Problem, cases: seq<TestCase>, runs: seq<CaseRun>, fault: Fault,
                      ghost rs: seq<TestResult>, ghost compiled: bool)
      returns (ghost executed: nat)
      requires |runs| == |cases| == |rs| && Observed(language, problem, cases, runs, rs)
      requires status == Judging
      modifies this
      ensures Reached(rs, fault) ==> Fields() == Absorbed(old(Fields())) && executed == fault.index
      ensures !Reached(rs, fault) ==>
                var n := CriticalIndex(rs);
                && executed == (if n < |rs| then n + 1 else |rs|)
                && Fields() == Snapshot(
                     if n < |rs| then rs[n].status
                     else if AnyMismatch(rs) then WrongAnswer
                     else if AcceptedPoints(cases, rs) == SumPoints(cases) then Accepted
                     else WrongAnswer,
                     AcceptedPoints(cases, rs[..n]), Some(Peak(Times(rs[..n]))), Some(Peak(Memories(rs[..n]))),
                     if n < |rs| then Some(rs[n].message.GetOr("")) else old(judgeMessage), true)
      ensures commits == old(commits)
    {
      var raised, i, totalScore, maxTime, maxMemory := RunCases(problem, cases, runs, fault, rs);
      if raised {
        status, judgeMessage, judged := RuntimeError, Some(InternalError), true;
        executed := i;
      } else if i < |cases| {
        score, executionTime, memoryUsed, judged := totalScore, Some(maxTime), Some(maxMemory), true;
        executed := i + 1;
      } else {
        assert rs[..i] == rs;
        if status == Judging {
          if totalScore == SumPoints(cases) {
            status := Accepted;
          } else {
            status := WrongAnswer;
          }
        }
        score, executionTime, memoryUsed, judged := totalScore, Some(maxTime), Some(maxMemory), true;
        executed := i;
      }
    }

    /** JudgeCases, stated as the reference aggregate of the loop. */
    method Conclude(problem: Problem, cases: seq<TestCase>, runs: seq<CaseRun>, fault: Fault,
                    ghost rs: seq<TestResult>, ghost compiled: bool)
      returns (ghost executed: nat)
      requires |runs| == |cases| == |rs| && Observed(language, problem, cases, runs, rs)
      requires status == Judging
      modifies this
      ensures var r := Aggregate(old(Fields()), cases, rs, fault, compiled);
              Fields() == r.final && executed == r.executed
      ensures commits == old(commits)
    {
      ghost var started := Fields();
      executed := JudgeCases(problem, cases, runs, fault, rs, compiled);
      if Reached(rs, fault) {
        AggregateWhenRaised(started, cases, rs, fault, compiled);
      } else if CriticalIndex(rs) < |rs| {
        AggregateAtCritical(started, cases, rs, fault, compiled);
      } else {
        AggregateAtEnd(started, cases, rs, fault, compiled);
      }
    }

    /**
     * judge_submission for this submission: marks it judging and commits,
     * then either short-circuits (no test cases), stops at a failed build, or
     * runs the test cases in order, and commits the final fields once.
     */
    method Judge(problem: Problem, cases: seq<TestCase>, tool: ToolResult, runs: seq<CaseRun>, fault: Fault,
                 ghost rs: seq<TestResult>)
      returns (ghost compiled: bool, ghost executed: nat)
      requires |runs| == |cases| == |rs| && Observed(language, problem, cases, runs, rs)
      modifies this
      ensures var r := Judged(old(Fields()), language, problem, cases, tool, rs, fault);
              Fields() == r.final && compiled == r.compiled && executed == r.executed
      ensures commits == old(commits) + [old(Fields()).(status := Judging), Fields()]
    {
      ghost var before := Fields();
      compiled, executed := false, 0;
      status := Judging;
      Commit();
      if fault == AtQuery {
        status, judgeMessage, judged := RuntimeError, Some(InternalError), true;
        Commit();
        return;
      }
      if |cases| == 0 {
        status, score, judged := Accepted, problem.points, true;
        Commit();
        return;
      }
      if NeedsBuild(language) {
        compiled := true;
        var compileResult := CompileCode(language, tool);
        if compileResult.CompileFail? {
          status, judgeMessage, judged := CompileError, Some(compileResult.message), true;
          Commit();
          return;
        }
      }
      JudgedPastGate(before, language, problem, cases, tool, rs, fault);
      executed := Conclude(problem, cases, runs, fault, rs, compiled);
      Commit();
    }
  }

  /** judge_submission(id): a missing submission is left alone. */
  method JudgeSubmission(submission: Submission?, problem: Problem, cases: seq<TestCase>,
                         tool: ToolResult, runs: seq<CaseRun>, fault: Fault)
    returns (ghost compiled: bool, ghost executed: nat)
    requires |runs| == |cases|
    modifies submission
    ensures submission == null ==> !compiled && executed == 0
    ensures submission != null ==>
      var r := Judged(old(submission.Fields()), submission.language, problem, cases, tool,
                      Results(submission.language, problem, cases, runs), fault);
      && submission.Fields() == r.final && compiled == r.compiled && executed == r.executed
      && submission.commits == old(submission.commits) + [old(submission.Fields()).(status := Judging), submission.Fields()]
  {
    if submission == null {
      return false, 0;
    }
    ghost var rs := Results(submission.language, problem, cases, runs);
    ResultsUpToObserved(submission.language, problem, cases, runs, |cases|);
    compiled, executed := submission.Judge(problem, cases, tool, runs, fault, rs);
  }
}
