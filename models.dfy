/**
 * The records of the contest system (models.py) and the small pure
 * predicates defined on them: role checks, contest time windows and the
 * status-to-CSS-class table.  Database columns only shape the datatypes;
 * instants are abstract integers (one unit = one microsecond) and the
 * current instant `now` is a parameter instead of a call to the clock.
 */
module Models {
  import opened Wrappers

  // ---------------------------------------------------------------------
  // Submission status
  // ---------------------------------------------------------------------

  /** The values the status column of a submission takes. */
  datatype Status =
    | Pending | Judging | Accepted | WrongAnswer
    | TimeLimit | MemoryLimit | RuntimeError | CompileError

  /** The string stored in the database for each status. */
  function StatusName(s: Status): string {
    match s
    case Pending => "pending"
    case Judging => "judging"
    case Accepted => "accepted"
    case WrongAnswer => "wrong_answer"
    case TimeLimit => "time_limit"
    case MemoryLimit => "memory_limit"
    case RuntimeError => "runtime_error"
    case CompileError => "compile_error"
  }

  /** Reads a stored status string back; `None` for any other string. */
  function ParseStatus(name: string): (r: Option<Status>)
    ensures r.Some? ==> StatusName(r.value) == name
  {
    if name == "pending" then Some(Pending)
    else if name == "judging" then Some(Judging)
    else if name == "accepted" then Some(Accepted)
    else if name == "wrong_answer" then Some(WrongAnswer)
    else if name == "time_limit" then Some(TimeLimit)
    else if name == "memory_limit" then Some(MemoryLimit)
    else if name == "runtime_error" then Some(RuntimeError)
    else if name == "compile_error" then Some(CompileError)
    else None
  }

  /** Every status survives a round trip through its stored string. */
  lemma ParseStatusName(s: Status)
    ensures ParseStatus(StatusName(s)) == Some(s)
  {
  }

  /** Distinct statuses are stored as distinct strings. */
  lemma StatusNameInjective(s: Status, t: Status)
    requires StatusName(s) == StatusName(t)
    ensures s == t
  {
    ParseStatusName(s);
    ParseStatusName(t);
  }

  /** The terminal statuses: once one is recorded the submission is judged. */
  predicate IsTerminal(s: Status) {
    s !in {Pending, Judging}
  }

  /** CSS class per stored status string (Submission.get_status_class). */
  const StatusClasses: map<string, string> := map[
    "pending" := "warning",
    "judging" := "info",
    "accepted" := "success",
    "wrong_answer" := "danger",
    "time_limit" := "warning",
    "memory_limit" := "warning",
    "runtime_error" := "danger",
    "compile_error" := "danger"
  ]

  /**
   * The CSS class shown for a stored status string; a string outside the
   * table gets "secondary".
   */
  function StatusClass(status: string): (r: string)
    ensures r in {"success", "info", "warning", "danger", "secondary"}
    ensures r == "secondary" <==> ParseStatus(status).None?
  {
    if status in StatusClasses then StatusClasses[status] else "secondary"
  }

  /** The class of every status the engine records. */
  lemma StatusClassOfStatus(s: Status)
    ensures StatusClass(StatusName(s)) ==
      match s
      case Accepted => "success"
      case Judging => "info"
      case Pending | TimeLimit | MemoryLimit => "warning"
      case WrongAnswer | RuntimeError | CompileError => "danger"
  {
  }

  // ---------------------------------------------------------------------
  // Users and roles
  // ---------------------------------------------------------------------

  /** A registered user; `role` is free text ("contestant" by default). */
  datatype User = User(username: string, email: string, fullName: string, role: string, isActive: bool)

  predicate IsAdmin(u: User) {
    u.role == "admin"
  }

  predicate IsJudge(u: User) {
    u.role in ["admin", "judge"]
  }

  predicate CanSubmit(u: User) {
    u.role in ["admin", "judge", "contestant"]
  }

  /** Each role check implies the next: admin, then judge, then submitter. */
  lemma RoleHierarchy(u: User)
    ensures IsAdmin(u) ==> IsJudge(u)
    ensures IsJudge(u) ==> CanSubmit(u)
  {
  }

  /** Exactly the admin and judge roles pass the judge check. */
  lemma JudgeRoles(u: User)
    ensures IsJudge(u) <==> u.role == "admin" || u.role == "judge"
  {
  }

  /**
   * Exactly the admin, judge and contestant roles may submit, so "visitor"
   * or any other role string may not.
   */
  lemma SubmitRoles(u: User)
    ensures CanSubmit(u) <==> u.role == "admin" || u.role == "judge" || u.role == "contestant"
    ensures u.role == "visitor" ==> !CanSubmit(u)
  {
  }

  // ---------------------------------------------------------------------
  // Contests
  // ---------------------------------------------------------------------

  /** A contest with its time window (nothing forces start <= end). */
  datatype Contest = Contest(name: string, startTime: int, endTime: int, isActive: bool)

  predicate IsRunning(c: Contest, now: int) {
    c.startTime <= now <= c.endTime
  }

  predicate HasStarted(c: Contest, now: int) {
    now >= c.startTime
  }

  predicate HasEnded(c: Contest, now: int) {
    now > c.endTime
  }

  /** A running contest has started and has not ended. */
  lemma RunningWindow(c: Contest, now: int)
    ensures IsRunning(c, now) ==> HasStarted(c, now)
    ensures !(IsRunning(c, now) && HasEnded(c, now))
  {
  }

  /** With a well-ordered window, an ended contest has started. */
  lemma EndedImpliesStarted(c: Contest, now: int)
    requires c.startTime <= c.endTime
    ensures HasEnded(c, now) ==> HasStarted(c, now)
  {
  }

  /**
   * Without `start_time <= end_time` nothing ties the two: an inverted
   * window can have ended before it started.
   */
  lemma InvertedWindow()
    ensures var c := Contest("x", 10, 5, true);
            HasEnded(c, 7) && !HasStarted(c, 7) && !IsRunning(c, 7)
  {
  }

  // ---------------------------------------------------------------------
  // Problems and test cases
  // ---------------------------------------------------------------------

  /** A problem: time limit in milliseconds, memory limit in MB (unenforced). */
  datatype Problem = Problem(title: string, code: string, timeLimit: nat, memoryLimit: nat, points: nat)

  /** One test case of a problem. */
  datatype TestCase = TestCase(inputData: string, outputData: string, isSample: bool, points: nat)
}
