# Judging engine of an online judge, in Dafny

This project models the judging engine of a small online-judge web
application and proves properties of the model.

A submission is judged in two stages:

- **Compile.** A compiled language (C, C++ or Java) is compiled by the
  compile stage, and rebuilt before every test-case run (judge.py:171-213).
- **Run.** The program then runs against the problem's test cases in order.
  Each run's output is stripped of surrounding whitespace and compared with
  the expected output. Whitespace is every character Python's `str.isspace`
  accepts, including the separators U+001C to U+001F, U+0085, U+00A0 and
  U+2000 to U+200A, not only space, tab and the line breaks. Each run is
  classified as accepted, wrong answer, time limit, runtime error or compile
  error.

The orchestrator folds these per-case results into a final status, a score
and the maximum time and memory. It stops at the first time-limit,
memory-limit or runtime-error result. It absorbs any exception in its try
block as a runtime error with a fixed internal message. The project also
covers:

- the record types, with their role checks, contest time windows and
  status-to-CSS-class table;
- the helpers used by the web pages: the upload extension check, text
  truncation, the language-extension table and the relative-time text.

Files:

- `wrappers.dfy`: `Option`.
- `models.dfy` (module `Models`): statuses, users, contests, problems and
  test cases.
- `verdict.dfy` (module `Verdict`): the compile stage outcome, Python's
  `str.strip` and text-mode newline translation, and the classification of
  one test-case run (`RunTestCase`).
- `judge.dfy` (module `Judge`): the `Submission` class and its judging
  methods. The loop is `RunCases`, one iteration is `RunCase`, and the whole
  of `judge_submission` is `Judge`. The file also holds the reference
  definition `Judged` of a whole run, which `Judge` is proved to implement.
- `judge_properties.dfy` (module `JudgeProperties`): what a judging run
  promises, proved about `Judged`.
- `utils.dfy` (module `Utils`): the page helpers.

Child processes, the toolchain and the database are not executed; they are
inputs to the model:

- The compile stage is a `ToolResult`: exit code and error stream, timeout,
  or an exception text.
- Each test case is a `CaseRun`: an exception raised inside the runner, the
  per-case build, and the process outcome (killed at the time limit, or exit
  code, output, error stream and elapsed milliseconds).
- A `Fault` says where, if anywhere, an exception is raised inside the
  orchestrator's try block: while loading the test cases, or on entering a
  given loop iteration.
- Every database commit appends a snapshot of the persisted fields to
  `Submission.commits`. The `judged_at` timestamp is the flag `judged`.
- The current time is a parameter. Timestamps are integers counting
  microseconds.

Where the code and the documentation of the system differ, the model follows
the code:

- **No test cases.** The score becomes the problem's `points`. That exceeds
  the sum of the test-case points (zero) whenever `points > 0`, against the
  stated invariant that the score never exceeds that sum. The problem form
  requires at least 1 point (forms.py:35).
- **Failed build.** A compile error leaves the score as it was. It is 0 for
  a new submission, and a stale score on re-judging. The code does not set it
  to 0.
- **Time and memory after a break.** The case that breaks the loop (time
  limit, runtime error) is not counted in the maximum time and memory,
  because `break` comes before the maxima are updated. Two scenarios follow:
  - accepted in `t` ms, then a time limit: the recorded time is `t`, not the
    time limit (`TimeLimitAfterAccepted`);
  - a time limit on the first case: the recorded time is 0.
- **Points check after the loop.** It can never turn an outcome into a wrong
  answer by itself. If no case was critical and none was flagged, every case
  was accepted, so the points equal the total (`FullPointsWithoutMismatch`).
  The `else` branch at judge.py:67-68 is dead code.
- **Judge message on re-judging.** A message left by an earlier run is kept
  when the new run ends without a critical result (`VerdictWithoutBreak`).
- **Line endings.** The documented comparator does no line-ending
  normalisation, but the program's output is read back in text mode
  (judge.py:242-243), so its "\r\n" and "\r" become "\n". The expected output
  is not translated. An expected output with a carriage return inside its
  stripped text is therefore never matched (`CarriageReturnNeverMatches`).
- **`judged_at` on re-judging.** The judging commit (judge.py:19-20) keeps an
  earlier `judged_at` while the status is `judging`, against the stated
  invariant that `judged_at` is set exactly when the status is terminal. The
  first commit in `Submission.Judge`'s contract is the old fields with only
  the status changed.
- **Per-case build failure.** In the loop, a per-case build failure
  (`compile_error` from `run_test_case`) counts as a mismatch: the
  submission becomes a wrong answer and the loop goes on.

## Model

| member | source | states |
|---|---|---|
| Models.StatusName | models.py:104 | definition of the eight stored status strings; characterised by `ParseStatusName` and `StatusNameInjective` |
| Models.ParseStatus | models.py:104 | a parsed status string is the stored name of the status it parses to |
| Models.ParseStatusName | models.py:104 | every status reads back from its stored string |
| Models.StatusNameInjective | models.py:104 | distinct statuses are stored as distinct strings |
| Models.StatusClass | models.py:115-126 | the CSS class is one of the five classes; "secondary" exactly for strings that are no status |
| Models.StatusClassOfStatus | models.py:115-126 | the class of each of the eight statuses |
| Models.IsAdmin | models.py:24-25 | definition of `is_admin`: the role is exactly "admin"; its relation to the other checks is `RoleHierarchy` |
| Models.IsJudge | models.py:27-28 | definition of `is_judge`: membership of the role in admin and judge; characterised by `JudgeRoles` |
| Models.CanSubmit | models.py:30-31 | definition of `can_submit`: membership of the role in admin, judge and contestant; characterised by `SubmitRoles` |
| Models.RoleHierarchy | models.py:24-31 | an admin passes the judge check, and a judge may submit |
| Models.JudgeRoles | models.py:27-28 | the judge check holds exactly for the roles admin and judge |
| Models.SubmitRoles | models.py:30-31 | exactly admin, judge and contestant may submit; a visitor may not |
| Models.IsRunning | models.py:49-51 | definition of `is_running` with the current time as a parameter: start <= now <= end |
| Models.HasStarted | models.py:53-54 | definition of `has_started`: now >= start |
| Models.HasEnded | models.py:56-57 | definition of `has_ended`: now > end; the three windows are related by `RunningWindow`, `EndedImpliesStarted` and `InvertedWindow` |
| Models.RunningWindow | models.py:49-57 | a running contest has started and has not ended |
| Models.EndedImpliesStarted | models.py:53-57 | with start before end, an ended contest has started |
| Models.InvertedWindow | models.py:53-57 | with an inverted window a contest can have ended without having started |
| Verdict.TrimStartShape | judge.py:243-245 | leading-whitespace removal takes off a whitespace prefix and stops at a non-space character |
| Verdict.TrimEndShape | judge.py:243-245 | trailing-whitespace removal takes off a whitespace suffix and stops at a non-space character |
| Verdict.IsSpace | judge.py:243-245 | definition of the characters `strip()` removes: the whole of Python's `str.isspace` set, not only the six ASCII whitespace characters |
| Verdict.Strip | judge.py:243-245 | definition of Python's `str.strip` as leading then trailing whitespace removal; pinned down by `StripShape` and `StripCharacterised` |
| Verdict.StripShape | judge.py:243-245 | `strip()` leaves an infix with only whitespace outside it and no whitespace at either end |
| Verdict.StripCharacterised | judge.py:243-245 | any infix with whitespace outside and non-space ends is what `strip()` returns |
| Verdict.OutputMatches | judge.py:243-247 | definition of the comparator: both texts stripped, then compared exactly; its properties are the comparator lemmas below |
| Verdict.SurroundingSpaceIgnored | judge.py:243-247 | whitespace around a text never changes what it strips to |
| Verdict.StripIdempotent | judge.py:243-245 | stripping twice is stripping once |
| Verdict.TrimmedUnchanged | judge.py:243-245 | text with no outer whitespace strips to itself |
| Verdict.TrimmedCompareExactly | judge.py:243-247 | between texts without outer whitespace the comparison is exact equality |
| Verdict.PaddedOutputMatches | judge.py:243-247 | output equal to the expected text up to outer whitespace is accepted |
| Verdict.TranslateNewlines | judge.py:242-243 | text-mode reading leaves no carriage return and never lengthens the text |
| Verdict.TranslateNewlinesIdentity | judge.py:242-243 | output without carriage returns is read back unchanged |
| Verdict.CarriageReturnNeverMatches | judge.py:242-247 | an expected output with a carriage return inside its stripped text matches no program output |
| Verdict.CompileCode | judge.py:84-143 | definition of `compile_code`'s outcome from what the toolchain reported; characterised by `CompileCodeOutcome` |
| Verdict.CompileCodeOutcome | judge.py:84-143 | for a compiled language the stage succeeds exactly on exit code 0; failures carry the error stream or "Compilation timeout" |
| Verdict.NeedsBuild | judge.py:37 | definition of the language gate: cpp, c and java have a build step; characterised by `CompileGate` |
| Verdict.RunTestCase | judge.py:146-265 | a run is never pending, judging or memory_limit, and reports memory absent or 0 |
| Verdict.TimeoutVerdict | judge.py:260-261 | a timeout is time_limit reporting the limit as its time, with no message |
| Verdict.NonZeroExitVerdict | judge.py:232-239 | a non-zero exit is a runtime error with the error stream and the elapsed time |
| Verdict.ZeroExitVerdict | judge.py:241-258 | a zero exit is accepted exactly when the stripped output equals the stripped expected output, else wrong answer |
| Verdict.BuildFailureVerdict | judge.py:171-213 | a failed per-case build is compile_error, which is not critical |
| Verdict.IsCritical | judge.py:52 | definition of the critical statuses that break the loop: time_limit, memory_limit, runtime_error; used by `CriticalIndexIsFirst` and `StopsAtFirstCritical` |
| Verdict.Execute | judge.py:217-261 | definition of the classification of a finished or killed process; each path is stated by `TimeoutVerdict`, `NonZeroExitVerdict` and `ZeroExitVerdict` |
| Verdict.FaultVerdict | judge.py:157-265 | an exception in the runner, or an unknown language, is a runtime error with the exception text |
| Judge.PeakIsMax | judge.py:60-61 | the running maximum bounds every value and is one of them, unless it is the starting 0 |
| Judge.Peak | judge.py:33-34 | definition of the running maximum from 0 of judge.py:60-61; characterised by `PeakIsMax` |
| Judge.Times | judge.py:60 | definition of the reported times (`result.get('time', 0)`), one per result; characterised by `TimesReported` |
| Judge.TimesReported | judge.py:60 | element k of the times is the time result k reports, an absent time read as 0 |
| Judge.Memories | judge.py:61 | definition of the reported memory (`result.get('memory', 0)`), one per result; characterised by `MemoriesReported` |
| Judge.MemoriesReported | judge.py:61 | element k of the memory values is the memory result k reports, an absent value read as 0 |
| Judge.CriticalIndex | judge.py:52-55 | the break position is at most the number of results; characterised by `CriticalIndexIsFirst` |
| Judge.IsMismatch | judge.py:56-58 | definition of the `else` branch: a result neither accepted nor critical |
| Judge.AnyMismatch | judge.py:56-58 | definition of the wrong-answer mark the loop leaves; characterised by `NoMismatchEverywhere` |
| Judge.AcceptedPoints | judge.py:50-51 | definition of the running `total_score`; characterised by `AcceptedPointsBounded` |
| Judge.PrefixPoints | judge.py:65 | definition of the points of the first n cases; characterised by `PrefixPointsBounded` |
| Judge.SumPoints | judge.py:65 | definition of `sum(tc.points for tc in test_cases)` |
| Judge.Absorbed | judge.py:77-79 | definition of the exception handler's update: runtime_error, the internal message, judged; used by `AggregateWhenRaised` and `FaultAbsorbed` |
| Judge.CompilePasses | judge.py:37-39 | definition of the compile gate: no build step, or a successful build; characterised by `CompileGate` |
| Judge.CriticalIndexIsFirst | judge.py:52-55 | no result before the first critical position is critical, and the result there is |
| Judge.ResultsUpTo | judge.py:47-48 | definition of the runner's reports for the first n cases, one per case; characterised by `ResultsUpToObserved` |
| Judge.Results | judge.py:47-48 | definition of the runner's reports for every case, one per case |
| Judge.ResultsUpToObserved | judge.py:47-48 | the results of the first n cases are the runner's reports for those cases |
| Judge.ObservedIsResults | judge.py:47-48 | reports matching the runner's, case by case, are the results |
| Judge.TallyStep | judge.py:50-61 | one more case extends the points, maxima and mismatch flag by that case alone |
| Judge.JudgedPastGate | judge.py:25-46 | past the query, the empty check and the compile gate, the outcome is the loop's aggregate |
| Judge.AggregateWhenRaised | judge.py:75-79 | a reached fault is absorbed, with the cases before it executed |
| Judge.AggregateAtCritical | judge.py:52-55 | without a fault, the first critical result gives the status and message; only earlier cases are counted |
| Judge.AggregateAtEnd | judge.py:56-73 | without a break, the mismatch flag and the points decide, and the old message stays |
| Judge.Aggregate | judge.py:47-79 | reference definition of the loop and what follows it, over the whole result sequence; characterised by `AggregateWhenRaised`, `AggregateAtCritical` and `AggregateAtEnd` |
| Judge.Judged | judge.py:11-81 | reference definition of a whole judging run; `Submission.Judge` is proved to reach it and `JudgeProperties` proves its properties |
| Judge.Submission.constructor | models.py:104-110 | a new submission is pending with score 0 and nothing measured or judged |
| Judge.Submission.Commit | judge.py:20 | a commit records the current fields as the latest snapshot and changes nothing else |
| Judge.Submission.RunCase | judge.py:48-61 | one iteration stops exactly at the first critical result, recording its status and message, and otherwise extends the running points, maxima and wrong-answer mark by this case |
| Judge.Submission.RunCases | judge.py:47-61 | the loop stops at the reached fault or the first critical result, with the points and maxima of the cases before it and the status the loop leaves |
| Judge.Submission.JudgeCases | judge.py:47-79 | after the loop: the absorbed fault, the critical result, or the final verdict and fields |
| Judge.Submission.Conclude | judge.py:47-79 | the fields after the loop are the reference aggregate of the reported results |
| Judge.Submission.Judge | judge.py:18-81 | the final fields, build flag and executed count are those of `Judged`; exactly two commits, the judging mark and the final fields |
| Judge.JudgeSubmission | judge.py:11-16 | a missing submission is left alone; otherwise Judge on the runner's results |
| JudgeProperties.NoMismatchEverywhere | judge.py:56-58 | the wrong-answer mark stays clear exactly when no case was a mismatch |
| JudgeProperties.AcceptedPointsBounded | judge.py:50-51 | the accepted points never exceed the points of the cases run, and reach them when all are accepted |
| JudgeProperties.PrefixPointsBounded | judge.py:65 | the points of some cases never exceed the points of all of them |
| JudgeProperties.FullPointsWithoutMismatch | judge.py:63-68 | with no critical result and no mismatch, every case was accepted and the points equal the total |
| JudgeProperties.JudgedIsFinal | judge.py:11-81 | every run ends with a terminal status and `judged_at` set |
| JudgeProperties.CompileGate | judge.py:36-44 | only a compiled language with cases is compiled; a failed build is compile_error with the compiler's message and runs nothing |
| JudgeProperties.NoCasesAccepted | judge.py:24-30 | with no test cases the submission is accepted with the problem's points and not compiled |
| JudgeProperties.FaultAbsorbed | judge.py:75-79 | a fault while loading cases, or at a reached iteration, gives runtime_error with the internal message and keeps score and measurements |
| JudgeProperties.FaultAfterBreakIgnored | judge.py:47-55 | a fault planted after the breaking case changes nothing |
| JudgeProperties.StopsAtFirstCritical | judge.py:52-55 | the first critical result gives the status and message; score and time count only earlier cases; it is the last case run |
| JudgeProperties.SameUpToCritical | judge.py:52-55 | results that agree up to the first critical one break at the same position and agree before it |
| JudgeProperties.AggregateIgnoresLater | judge.py:47-79 | the loop's aggregate is the same for results that agree up to the break |
| JudgeProperties.LaterCasesIgnored | judge.py:52-55 | results after the first critical one do not influence the outcome |
| JudgeProperties.VerdictWithoutBreak | judge.py:56-73 | without a break the verdict is wrong answer exactly when some case was a mismatch, with the accepted points and the old message |
| JudgeProperties.AcceptedExactlyWhenAllAccepted | judge.py:47-68 | once the loop runs, the final status is accepted exactly when every case is accepted, which scores the points of all cases |
| JudgeProperties.ScoreBounded | judge.py:65-70 | once the loop runs the score lies between 0 and the total points |
| JudgeProperties.PeakOfTimes | judge.py:60 | the peak of the reported times bounds each result's time and is one of them unless it is 0 |
| JudgeProperties.JudgedTime | judge.py:60-71 | once the loop runs without a reached fault, the recorded time is the peak over the cases before the break |
| JudgeProperties.ExecutionTimeIsMaxOfRun | judge.py:33-71 | once the loop runs, the recorded time bounds the time of every case run before the break and is one of them, unless it is 0 |
| JudgeProperties.MemoryAlwaysZero | judge.py:61 | once the loop runs the recorded memory is 0 |
| JudgeProperties.TimeLimitAfterAccepted | judge.py:47-72 | accepted in t ms and then a time limit: time_limit, the first case's points, time t, empty message, two cases run |
| Utils.Lower | utils.py:11 | lower-casing keeps the length and leaves no upper-case ASCII letter |
| Utils.AfterLastDot | utils.py:11 | the extension is the dot-free suffix right after the last dot |
| Utils.NoDotNotAllowed | utils.py:10 | a name without a dot is never allowed |
| Utils.AfterLastDotOf | utils.py:11 | the extension of `name.ext` is `ext` when `ext` has no dot |
| Utils.AllowedFileWithExtension | utils.py:8-11 | `name.ext` is allowed exactly when the lower-cased `ext` is in the set |
| Utils.AllowedFileIgnoresCase | utils.py:11 | extensions that agree after lower-casing are treated alike |
| Utils.UpperCaseEntryNeverMatches | utils.py:11 | an allowed entry holding an upper-case letter never matches |
| Utils.AllowedFile | utils.py:8-11 | definition of `allowed_file`: a dot present and the lower-cased text after the last dot in the set; characterised by `AllowedFileWithExtension` |
| Utils.PrefixSlice | utils.py:80 | Python's `text[:n]` is a prefix of length n, or all but the last -n characters for negative n |
| Utils.TruncateText | utils.py:76-80 | the text comes back unchanged, or as a prefix of it followed by "..." |
| Utils.TruncateTextDefault | utils.py:76 | `truncate_text` with the default length 100 |
| Utils.TruncateKeepsShort | utils.py:78-79 | text within the limit is returned unchanged |
| Utils.TruncateCuts | utils.py:80 | longer text becomes its first max_length characters and "...", max_length + 3 in all |
| Utils.TruncateIdempotent | utils.py:76-80 | truncating twice with the same non-negative limit is truncating once |
| Utils.TruncateNegativeLimit | utils.py:80 | a negative limit keeps all but the last characters, then "..." |
| Utils.LanguageExtensions | utils.py:65-73 | python3, cpp, c and java map to .py, .cpp, .c and .java; anything else to .txt |
| Utils.ExtensionKnownExactlyForRunnable | utils.py:65-73 | a language has its own extension exactly when the judge can run it |
| Utils.GetLanguageExtension | utils.py:65-73 | the result is always a dot extension, and differs from ".txt" exactly for a language in the table |
| Utils.NatToString | utils.py:56-62 | the count is written as a non-empty string of decimal digits |
| Utils.NatToStringRoundTrip | utils.py:56-62 | the written count reads back as the same number |
| Utils.NatToStringInjective | utils.py:56-62 | different counts are written differently |
| Utils.FormatMissingDatetime | utils.py:31-35 | a missing time is "Never", and only a missing one |
| Utils.DeltaBetween | utils.py:43-51 | the delta's seconds are under a day, and it is in the future exactly when the time is after now |
| Utils.DeltaBetweenExact | utils.py:43-51 | days and seconds recombine to the distance between the times, rounded down to whole seconds |
| Utils.ReadingOf | utils.py:51-62 | definition of the divmod chain and the choice of unit; characterised by `ReadingIsLargestUnit` |
| Utils.FormatDelta | utils.py:51-62 | definition of the phrase for a delta; characterised by `FormatDeltaAffixes` and `FormatDeltaPlural` |
| Utils.FormatTimeDelta | utils.py:38-62 | the text is "Never" exactly for a missing time |
| Utils.ReadingIsLargestUnit | utils.py:51-62 | the reading is the largest non-zero of days, hours (under 24), minutes (under 60), else seconds |
| Utils.FormatDeltaAffixes | utils.py:44-62 | the text always ends in " ago", and starts with "in " exactly for a future time |
| Utils.FormatDeltaPlural | utils.py:55-62 | the text is prefix, count, unit and an "s" exactly when the count is not 1; the count reads back |
| Utils.MissingTimeIsNever | utils.py:33-34 | both helpers describe a missing time as "Never" |

## Left out

- Processes, files and the toolchain. Temporary directories, source files,
  `subprocess.run` and its timeouts are not executed. What they report is an
  input (`ToolResult`, `CaseRun`).
- Wall-clock timing. The elapsed milliseconds of a run are an input, and so
  is the current time of the helpers.
- Threads and concurrency. Each judging unit runs on its own thread, and two
  runs for one submission can race. The model judges one submission
  sequentially.
- The database. Queries are replaced by the records passed in, and a commit
  by the snapshot it writes. A fault raised by a commit is not modelled. The
  commit at judge.py:20, outside the try block, is modelled as always
  succeeding.
- Faults in the orchestrator are placed at two points: loading the cases and
  entering an iteration. Any exception raised later inside an iteration has
  the same effect as one raised on entering it: an iteration changes only
  the status and the judge message (judge.py:53-54, 57-58), and the handler
  at judge.py:77-79 overwrites both.
- Memory measurement is not implemented in the source. The model reports
  what the source reports (0 or nothing).
- The per-case build's error stream (judge.py:172-176) is captured without
  text mode, so it is a bytes value. The model makes it a string. It only
  ever appears in the per-case result's message: the loop treats
  `compile_error` as a mismatch and drops that message (judge.py:56-58), so
  no persisted field depends on it.
- Logging. The `app.logger.error` calls at judge.py:76 and judge.py:264 are
  not modelled; they have no effect on any result or persisted field.
- Universal-newline translation is modelled for the program's output only,
  as the source reads it. The error streams of the compile stage and of a run
  are captured in text mode (judge.py:98, 115, 132, 229), so they are already
  translated; the model takes them as the subprocess reports them. The
  encoding of the written files is not modelled.
- Utils.Lower: models `str.lower` on ASCII letters only; Unicode case
  mapping is not modelled.
- Utils.FormatMissingDatetime: only the missing-time case is modelled;
  `strftime` formatting of a present time is left to the platform.
- `save_uploaded_file` is not modelled: file I/O, random tokens and
  `secure_filename`.
- `register_template_filters` is not modelled: it only registers the helpers
  with the web framework.
- The web routes, forms and page rendering are not part of this model.
- Verdict.FaultVerdict: the text of the exception raised for an unknown
  language is a fixed constant (Python's unbound local variable message). It
  is not derived from the interpreter.
