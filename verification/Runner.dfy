/**
  The swarm runner's bookkeeping: polling tasks that may spawn test tasks, test tasks that
  submit a result and count it, and a shutdown that may come at any point.
*/
module Runner {
  import opened Postcard
  import opened Chunking
  import Swarm

  /** What a node is asked to do. Only a latency test carries a number of pings. */
  datatype Assignment = LatencyTest(iterations: Option<U32>) | ThroughputTest | FingerprintTest

  const DEFAULT_PINGS: U32 := 10

  predicate AsksForNoPings(a: Assignment) { a == LatencyTest(Some(0)) }

  datatype AssignmentResult =
    | LatencyDone
    | ThroughputDone
    | FingerprintDone(error: bool)
    | ErrorResult

  /** Only an error result is no success; a fingerprint that carries an error still is one. */
  predicate Success(r: AssignmentResult) { !r.ErrorResult? }

  /** The report as the coordinator receives it. */
  datatype Report = Report(data: AssignmentResult) {
    predicate IsSuccess() { Success(data) }
  }

  /** What performing an assignment gives; a failure is reported as an error result, a panic not at all. */
  datatype Performed = Performed(result: AssignmentResult) | PerformFailed | PerformPanicked {
    function ResultData(): AssignmentResult
      requires !PerformPanicked?
    {
      match this
      case Performed(result) => result
      case PerformFailed => ErrorResult
    }
  }

  /** What a test can come to when the only panic is the division of a latency test by its number of pings. */
  predicate Ordinary(a: Assignment, outcome: Performed) {
    match a
    case LatencyTest(_) =>
      outcome == Performed(ErrorResult) || outcome == if AsksForNoPings(a) then PerformPanicked else Performed(LatencyDone)
    case ThroughputTest => outcome == Performed(ErrorResult) || outcome == Performed(ThroughputDone)
    case FingerprintTest => outcome.PerformFailed? || (outcome.Performed? && outcome.result.FingerprintDone?)
  }

  /** Performs a latency assignment; it panics exactly when it gets a connection and is asked for no pings. */
  method ExecuteLatencyTest(iterations: Option<U32>, connected: bool, network: seq<Swarm.Exchange>) returns (outcome: Performed)
    requires |network| == match iterations case Some(n) => n case None => 10
    requires forall i :: 0 <= i < |network| ==> network[i].Valid()
    ensures Ordinary(LatencyTest(iterations), outcome)
    ensures outcome == PerformPanicked <==> connected && iterations == Some(0)
    ensures outcome == Performed(LatencyDone) <==>
              connected && |network| > 0 && forall i :: 0 <= i < |network| ==> network[i].Counts()
  {
    if !connected {
      return Performed(ErrorResult);
    }
    var r, _ := Swarm.RunLatencyTest(GetOr(iterations, DEFAULT_PINGS), network);
    match r {
      case Completed(_) => return Performed(LatencyDone);
      case PingFailed(_) => return Performed(ErrorResult);
      case Panicked => return PerformPanicked;
    }
  }

  /** A test that was done, even a fingerprint that carries an error. */
  predicate IsDone(p: Performed) {
    || p == Performed(LatencyDone) || p == Performed(ThroughputDone)
    || p == Performed(FingerprintDone(false)) || p == Performed(FingerprintDone(true))
  }

  /** A test that came to an error result, or to no result. */
  predicate IsFailed(p: Performed) { p == Performed(ErrorResult) || p == PerformFailed }

  class SwarmStats {
    var testsCompleted: nat
    var testsFailed: nat

    constructor ()
      ensures testsCompleted == testsFailed == 0
    {
      testsCompleted, testsFailed := 0, 0;
    }

    method IncrementCompleted()
      modifies this
      ensures testsCompleted == old(testsCompleted) + 1 && testsFailed == old(testsFailed)
    {
      testsCompleted := testsCompleted + 1;
    }

    method IncrementFailed()
      modifies this
      ensures testsFailed == old(testsFailed) + 1 && testsCompleted == old(testsCompleted)
    {
      testsFailed := testsFailed + 1;
    }
  }

  /**
    The body of a test task whose test was performed before any shutdown. `submitted` is the
    coordinator's answer. A panic ends the task with nothing submitted and nothing counted.
  */
  method FinishTest(performed: Performed, submitted: bool, stats: SwarmStats) returns (report: Option<Report>)
    modifies stats
    ensures report == match performed
                      case Performed(result) => Some(Report(result))
                      case PerformFailed => Some(Report(ErrorResult))
                      case PerformPanicked => None
    ensures stats.testsCompleted == old(stats.testsCompleted) + (if submitted && IsDone(performed) then 1 else 0)
    ensures stats.testsFailed == old(stats.testsFailed) + (if submitted && IsFailed(performed) then 1 else 0)
    ensures report.Some? ==> (report.value.IsSuccess() <==> IsDone(performed))
  {
    if performed.PerformPanicked? {
      return None;
    }
    var resultData := if performed.Performed? then performed.result else ErrorResult;
    var resultSuccess := !resultData.ErrorResult?;
    report := Some(Report(resultData));
    if !submitted {
      return;
    } else if resultSuccess {
      stats.IncrementCompleted();
    } else {
      stats.IncrementFailed();
    }
  }

  // All tasks together

  datatype Task =
    | Polling
    | Marking(assignment: Assignment)
    | NotSpawned
    | Executing(assignment: Assignment)
    | Submitting(data: AssignmentResult)
    | Recording(data: AssignmentResult)
    | Counted(data: AssignmentResult)
    | SubmitFailed
    | ShutDown
    | Panicked

  /** `spawned` counts test tasks as they start; `accepted` are the reports whose submission succeeded. */
  datatype State = State(
    tasks: seq<Task>, spawned: nat, completed: nat, failed: nat, accepted: seq<Report>, shutdown: bool)

  const Initial := State([], 0, 0, 0, [], false)

  datatype Action =
    | Tick
    | Assigned(i: nat, assignment: Assignment)
    | NoAssignment(i: nat)
    | SpawnTest(i: nat)
    | Abandon(i: nat)
    | Shutdown
    | SeeShutdown(i: nat)
    | Perform(i: nat, outcome: Performed)
    | Submit(i: nat, ok: bool)
    | Record(i: nat)

  ghost predicate Enabled(s: State, a: Action) {
    match a
    case Tick => !s.shutdown
    case Assigned(i, _) => i < |s.tasks| && s.tasks[i].Polling?
    case NoAssignment(i) => i < |s.tasks| && s.tasks[i].Polling?
    // marking as started may fail, and the test is spawned all the same
    case SpawnTest(i) => i < |s.tasks| && s.tasks[i].Marking?
    // the connection timeout, or the runner being dropped
    case Abandon(i) => i < |s.tasks| && (s.tasks[i].Polling? || s.tasks[i].Marking?)
    case Shutdown => true
    case SeeShutdown(i) => s.shutdown && i < |s.tasks| && (s.tasks[i].Polling? || s.tasks[i].Executing?)
    case Perform(i, _) => i < |s.tasks| && s.tasks[i].Executing?
    case Submit(i, _) => i < |s.tasks| && s.tasks[i].Submitting?
    case Record(i) => i < |s.tasks| && s.tasks[i].Recording?
  }

  ghost function Step(s: State, a: Action): State
    requires Enabled(s, a)
  {
    match a
    case Tick => s.(tasks := s.tasks + [Polling])
    case Assigned(i, assignment) => s.(tasks := s.tasks[i := Marking(assignment)])
    case NoAssignment(i) => s.(tasks := s.tasks[i := NotSpawned])
    case SpawnTest(i) => s.(tasks := s.tasks[i := Executing(s.tasks[i].assignment)], spawned := s.spawned + 1)
    case Abandon(i) => s.(tasks := s.tasks[i := NotSpawned])
    case Shutdown => s.(shutdown := true)
    case SeeShutdown(i) => s.(tasks := s.tasks[i := if s.tasks[i].Polling? then NotSpawned else ShutDown])
    case Perform(i, outcome) =>
      s.(tasks := s.tasks[i := if outcome.PerformPanicked? then Panicked else Submitting(outcome.ResultData())])
    case Submit(i, ok) =>
      if ok then
        s.(tasks := s.tasks[i := Recording(s.tasks[i].data)], accepted := s.accepted + [Report(s.tasks[i].data)])
      else s.(tasks := s.tasks[i := SubmitFailed])
    case Record(i) =>
      var data := s.tasks[i].data;
      if Success(data) then s.(tasks := s.tasks[i := Counted(data)], completed := s.completed + 1)
      else s.(tasks := s.tasks[i := Counted(data)], failed := s.failed + 1)
  }

  // Counting tasks

  datatype Kind = Live | Completed | Failed | FailedToSubmit | Stopped | Crashed | PendingCompleted | PendingFailed

  /** A task that has accepted but not yet counted its result is still live. */
  predicate Is(k: Kind, t: Task) {
    match k
    case Live => t.Executing? || t.Submitting? || t.Recording?
    case Completed => t.Counted? && Success(t.data)
    case Failed => t.Counted? && !Success(t.data)
    case FailedToSubmit => t.SubmitFailed?
    case Stopped => t.ShutDown?
    case Crashed => t.Panicked?
    case PendingCompleted => t.Recording? && Success(t.data)
    case PendingFailed => t.Recording? && !Success(t.data)
  }

  function One(k: Kind, t: Task): nat { if Is(k, t) then 1 else 0 }

  function Count(k: Kind, tasks: seq<Task>): nat {
    if tasks == [] then 0 else One(k, tasks[0]) + Count(k, tasks[1..])
  }

  lemma {:induction false} CountUpdate(k: Kind, tasks: seq<Task>, i: nat, t: Task)
    requires i < |tasks|
    ensures Count(k, tasks[i := t]) == Count(k, tasks) - One(k, tasks[i]) + One(k, t)
  {
    if i == 0 {
      assert tasks[0 := t][1..] == tasks[1..];
    } else {
      CountUpdate(k, tasks[1..], i - 1, t);
      assert tasks[i := t][1..] == tasks[1..][i - 1 := t];
    }
  }

  lemma {:induction false} CountAppend(k: Kind, tasks: seq<Task>, t: Task)
    ensures Count(k, tasks + [t]) == Count(k, tasks) + One(k, t)
  {
    if tasks != [] {
      CountAppend(k, tasks[1..], t);
      assert (tasks + [t])[1..] == tasks[1..] + [t];
    } else {
      assert (tasks + [t])[1..] == [];
    }
  }

  function Successes(reports: seq<Report>): nat {
    if reports == [] then 0
    else Successes(reports[..|reports| - 1]) + if reports[|reports| - 1].IsSuccess() then 1 else 0
  }

  lemma SuccessesAppend(reports: seq<Report>, r: Report)
    ensures Successes(reports + [r]) == Successes(reports) + if r.IsSuccess() then 1 else 0
    ensures Successes(reports) <= |reports|
  {
    assert (reports + [r])[..|reports|] == reports;
    SuccessesBounded(reports);
  }

  lemma {:induction false} SuccessesBounded(reports: seq<Report>)
    ensures Successes(reports) <= |reports|
  {
    if reports == [] {
    } else {
      SuccessesBounded(reports[..|reports| - 1]);
    }
  }

  /** How many tasks are of each kind. */
  datatype Tally = Tally(
    live: int, completed: int, failed: int, unsubmitted: int, stopped: int, crashed: int,
    pendingCompleted: int, pendingFailed: int)

  function TallyOf(tasks: seq<Task>): Tally {
    Tally(Count(Live, tasks), Count(Completed, tasks), Count(Failed, tasks), Count(FailedToSubmit, tasks),
          Count(Stopped, tasks), Count(Crashed, tasks), Count(PendingCompleted, tasks), Count(PendingFailed, tasks))
  }

  /** The tally when a task turns from one thing to another. */
  function Move(t: Tally, from: Task, to: Task): Tally {
    Tally(t.live - One(Live, from) + One(Live, to),
          t.completed - One(Completed, from) + One(Completed, to),
          t.failed - One(Failed, from) + One(Failed, to),
          t.unsubmitted - One(FailedToSubmit, from) + One(FailedToSubmit, to),
          t.stopped - One(Stopped, from) + One(Stopped, to),
          t.crashed - One(Crashed, from) + One(Crashed, to),
          t.pendingCompleted - One(PendingCompleted, from) + One(PendingCompleted, to),
          t.pendingFailed - One(PendingFailed, from) + One(PendingFailed, to))
  }

  /** What is counted apart from the tasks. */
  datatype Books = Books(spawned: nat, completed: nat, failed: nat, accepted: nat, successes: nat)

  function BooksOf(s: State): Books {
    Books(s.spawned, s.completed, s.failed, |s.accepted|, Successes(s.accepted))
  }

  /** Every spawned test is in exactly one of six places, and each counter counts what it says. */
  predicate Balanced(b: Books, t: Tally) {
    && b.spawned == t.live + b.completed + b.failed + t.unsubmitted + t.stopped + t.crashed
    && b.completed == t.completed
    && b.failed == t.failed
    && b.successes == b.completed + t.pendingCompleted
    && b.accepted == b.completed + b.failed + t.pendingCompleted + t.pendingFailed
  }

  ghost predicate Inv(s: State) {
    Balanced(BooksOf(s), TallyOf(s.tasks))
  }

  /** What a task's step enters into the books. */
  ghost predicate Entry(from: Task, to: Task, b: Books, b': Books) {
    match from
    case Polling => (to.Marking? || to.NotSpawned?) && b' == b
    case Marking(_) => (to.NotSpawned? && b' == b) || (to.Executing? && b' == b.(spawned := b.spawned + 1))
    case Executing(_) => (to.Submitting? || to.ShutDown? || to.Panicked?) && b' == b
    case Submitting(data) =>
      || (to.SubmitFailed? && b' == b)
      || (to == Recording(data)
          && b' == b.(accepted := b.accepted + 1, successes := b.successes + if Success(data) then 1 else 0))
    case Recording(data) =>
      && to == Counted(data)
      && b' == if Success(data) then b.(completed := b.completed + 1) else b.(failed := b.failed + 1)
    case _ => false
  }

  lemma EntryBalances(from: Task, to: Task, b: Books, b': Books, t: Tally)
    requires Balanced(b, t) && Entry(from, to, b, b')
    ensures Balanced(b', Move(t, from, to))
  {
  }

  lemma TallyUpdate(tasks: seq<Task>, i: nat, t: Task)
    requires i < |tasks|
    ensures TallyOf(tasks[i := t]) == Move(TallyOf(tasks), tasks[i], t)
  {
    forall k ensures Count(k, tasks[i := t]) == Count(k, tasks) - One(k, tasks[i]) + One(k, t) {
      CountUpdate(k, tasks, i, t);
    }
  }

  lemma TickInv(s: State)
    requires Inv(s) && Enabled(s, Tick)
    ensures Inv(Step(s, Tick))
  {
    forall k ensures Count(k, s.tasks + [Polling]) == Count(k, s.tasks) { CountAppend(k, s.tasks, Polling); }
  }

  /** Every step but a tick and a shutdown moves one task, and enters what is due for it. */
  lemma StepIsEntry(s: State, a: Action)
    requires Enabled(s, a) && !a.Tick? && !a.Shutdown?
    ensures var s' := Step(s, a);
            && a.i < |s.tasks| && a.i < |s'.tasks| && s'.tasks == s.tasks[a.i := s'.tasks[a.i]]
            && Entry(s.tasks[a.i], s'.tasks[a.i], BooksOf(s), BooksOf(s'))
  {
    if a.Submit? { SuccessesAppend(s.accepted, Report(s.tasks[a.i].data)); }
  }

  lemma StepInv(s: State, a: Action)
    requires Inv(s) && Enabled(s, a)
    ensures Inv(Step(s, a))
  {
    var s' := Step(s, a);
    if a.Tick? {
      TickInv(s);
    } else if !a.Shutdown? {
      StepIsEntry(s, a);
      TallyUpdate(s.tasks, a.i, s'.tasks[a.i]);
      EntryBalances(s.tasks[a.i], s'.tasks[a.i], BooksOf(s), BooksOf(s'), TallyOf(s.tasks));
    }
  }

  ghost predicate IsRun(run: seq<State>, acts: seq<Action>) {
    && |run| == |acts| + 1 && run[0] == Initial
    && forall i :: 0 <= i < |acts| ==> Enabled(run[i], acts[i]) && run[i + 1] == Step(run[i], acts[i])
  }

  lemma {:induction false} RunInv(run: seq<State>, acts: seq<Action>, k: nat)
    requires IsRun(run, acts) && k <= |acts|
    ensures Inv(run[k])
  {
    if k == 0 {
    } else {
      RunInv(run, acts, k - 1);
      StepInv(run[k - 1], acts[k - 1]);
    }
  }

  /** In every state of every run a spawned test is in exactly one of six places, and the counters count theirs. */
  lemma AccountsBalance(run: seq<State>, acts: seq<Action>, k: nat)
    requires IsRun(run, acts) && k <= |acts|
    ensures var s := run[k];
            && s.spawned == Count(Live, s.tasks) + s.completed + s.failed
                            + Count(FailedToSubmit, s.tasks) + Count(Stopped, s.tasks) + Count(Crashed, s.tasks)
            && s.completed == Count(Completed, s.tasks) && s.failed == Count(Failed, s.tasks)
  {
    RunInv(run, acts, k);
  }

  // Tests that panic are in none of the accounts the program keeps or logs

  /** Every spawned test is still running, counted, refused by the coordinator, or shut down. */
  ghost predicate Accounted(s: State) {
    s.spawned == Count(Live, s.tasks) + s.completed + s.failed + Count(FailedToSubmit, s.tasks) + Count(Stopped, s.tasks)
  }

  predicate Panics(a: Action) { a.Perform? && a.outcome.PerformPanicked? }

  lemma StepCrashes(s: State, a: Action)
    requires Enabled(s, a)
    ensures Count(Crashed, Step(s, a).tasks) == Count(Crashed, s.tasks) + if Panics(a) then 1 else 0
  {
    if a.Tick? {
      CountAppend(Crashed, s.tasks, Polling);
    } else if !a.Shutdown? {
      StepIsEntry(s, a);
      CountUpdate(Crashed, s.tasks, a.i, Step(s, a).tasks[a.i]);
    }
  }

  lemma {:induction false} CrashedIffPanicked(run: seq<State>, acts: seq<Action>, k: nat)
    requires IsRun(run, acts) && k <= |acts|
    ensures Count(Crashed, run[k].tasks) == 0 <==> forall j :: 0 <= j < k ==> !Panics(acts[j])
  {
    if k == 0 {
    } else {
      CrashedIffPanicked(run, acts, k - 1);
      StepCrashes(run[k - 1], acts[k - 1]);
    }
  }

  /** Without the crashed ones the account is complete exactly as long as no test has panicked. */
  lemma AccountedIffNoPanic(run: seq<State>, acts: seq<Action>, k: nat)
    requires IsRun(run, acts) && k <= |acts|
    ensures Accounted(run[k]) <==> forall j :: 0 <= j < k ==> !Panics(acts[j])
  {
    AccountsBalance(run, acts, k);
    CrashedIffPanicked(run, acts, k);
  }

  /** A run in which tests panic only over their number of pings. */
  ghost predicate IsOrdinaryRun(run: seq<State>, acts: seq<Action>) {
    && IsRun(run, acts)
    && forall k :: 0 <= k < |acts| && acts[k].Perform? ==>
         Ordinary(run[k].tasks[acts[k].i].assignment, acts[k].outcome)
  }

  /** Whether one of the first `k` steps hands out a latency test that asks for no pings. */
  ghost predicate AskedForNoPings(acts: seq<Action>, k: nat)
    requires k <= |acts|
  {
    exists j :: 0 <= j < k && acts[j].Assigned? && AsksForNoPings(acts[j].assignment)
  }

  ghost predicate AllAskForPings(s: State) {
    forall i :: 0 <= i < |s.tasks| && (s.tasks[i].Marking? || s.tasks[i].Executing?) ==> !AsksForNoPings(s.tasks[i].assignment)
  }

  lemma StepAsksForPings(s: State, a: Action)
    requires Enabled(s, a) && AllAskForPings(s) && (a.Assigned? ==> !AsksForNoPings(a.assignment))
    ensures AllAskForPings(Step(s, a))
  {
  }

  lemma {:induction false} TasksAskForPings(run: seq<State>, acts: seq<Action>, k: nat)
    requires IsRun(run, acts) && k <= |acts| && !AskedForNoPings(acts, k)
    ensures AllAskForPings(run[k])
  {
    if k == 0 {
    } else {
      TasksAskForPings(run, acts, k - 1);
      StepAsksForPings(run[k - 1], acts[k - 1]);
    }
  }

  /** Whatever mix of assignments has been handed out: as long as none asks for no pings, all tests are accounted for. */
  lemma AccountedUnlessNoPings(run: seq<State>, acts: seq<Action>, k: nat)
    requires IsOrdinaryRun(run, acts) && k <= |acts| && !AskedForNoPings(acts, k)
    ensures Accounted(run[k])
  {
    forall j | 0 <= j < k ensures !Panics(acts[j]) {
      TasksAskForPings(run, acts, j);
    }
    AccountedIffNoPanic(run, acts, k);
  }

  /** A test that asks for no pings is spawned, panics, and is then in no account. */
  lemma NoPingsIsLost() returns (run: seq<State>, acts: seq<Action>)
    ensures IsOrdinaryRun(run, acts) && Hands(acts, {LatencyTest(Some(0))})
    ensures var s := run[|acts|];
            && s.spawned == 1 && s.completed == s.failed == 0 && s.accepted == [] && !s.shutdown
            && s.tasks == [Panicked] && !Accounted(s)
  {
    var a := LatencyTest(Some(0));
    acts := [Tick, Assigned(0, a), SpawnTest(0), Perform(0, PerformPanicked)];
    var s0 := Initial;
    var s1, s2 := s0.(tasks := [Polling]), s0.(tasks := [Marking(a)]);
    var s3, s4 := s0.(tasks := [Executing(a)], spawned := 1), s0.(tasks := [Panicked], spawned := 1);
    run := [s0, s1, s2, s3, s4];
    assert Step(s0, acts[0]) == s1 && Step(s1, acts[1]) == s2 && Step(s2, acts[2]) == s3 && Step(s3, acts[3]) == s4;
    assert Panics(acts[3]);
    AccountedIffNoPanic(run, acts, 4);
  }

  /** Only these assignments are handed out. */
  ghost predicate Hands(acts: seq<Action>, given: set<Assignment>) {
    forall k :: 0 <= k < |acts| && acts[k].Assigned? ==> acts[k].assignment in given
  }

  /** So whether a runner can ever lose a test is seen from the assignments it may be given. */
  lemma LostIffAsksForNoPings(given: set<Assignment>)
    ensures (exists run, acts, k :: IsOrdinaryRun(run, acts) && Hands(acts, given) && 0 <= k <= |acts| && !Accounted(run[k]))
            <==> exists a :: a in given && AsksForNoPings(a)
  {
    if a :| a in given && AsksForNoPings(a) {
      var run, acts := NoPingsIsLost();
      assert IsOrdinaryRun(run, acts) && Hands(acts, given) && !Accounted(run[|acts|]);
    } else {
      forall run, acts, k: nat | IsOrdinaryRun(run, acts) && Hands(acts, given) && k <= |acts| ensures Accounted(run[k]) {
        AccountedUnlessNoPings(run, acts, k);
      }
    }
  }

  lemma {:induction false} NothingPending(tasks: seq<Task>)
    requires Count(Live, tasks) == 0
    ensures Count(PendingCompleted, tasks) == 0 && Count(PendingFailed, tasks) == 0
  {
    if tasks == [] {
    } else {
      NothingPending(tasks[1..]);
    }
  }

  /** Once no test is live, the counters are exactly the accepted reports, by their own success flag. */
  lemma CountersAreAcceptedReports(run: seq<State>, acts: seq<Action>, k: nat)
    requires IsRun(run, acts) && k <= |acts| && Count(Live, run[k].tasks) == 0
    ensures run[k].completed == Successes(run[k].accepted)
    ensures run[k].failed == |run[k].accepted| - Successes(run[k].accepted)
    ensures run[k].spawned == |run[k].accepted| + Count(FailedToSubmit, run[k].tasks)
                              + Count(Stopped, run[k].tasks) + Count(Crashed, run[k].tasks)
  {
    RunInv(run, acts, k);
    NothingPending(run[k].tasks);
  }

  /** A report that is about to be recorded was accepted by an earlier submission of that very task. */
  lemma {:induction false} RecordingWasSubmitted(run: seq<State>, acts: seq<Action>, k: nat, i: nat) returns (j: nat)
    requires IsRun(run, acts) && k <= |acts| && i < |run[k].tasks| && run[k].tasks[i].Recording?
    ensures j < k && acts[j] == Submit(i, true) && run[j].tasks[i] == Submitting(run[k].tasks[i].data)
  {
    var s, a := run[k - 1], acts[k - 1];
    assert run[k] == Step(s, a);
    if a == Submit(i, true) {
      j := k - 1;
    } else {
      assert i < |s.tasks| && s.tasks[i] == run[k].tasks[i];
      j := RecordingWasSubmitted(run, acts, k - 1, i);
    }
  }

  lemma {:induction false} CountedStays(run: seq<State>, acts: seq<Action>, j: nat, k: nat, i: nat)
    requires IsRun(run, acts) && j <= k <= |acts| && i < |run[j].tasks| && run[j].tasks[i].Counted?
    ensures i < |run[k].tasks| && run[k].tasks[i] == run[j].tasks[i]
  {
    if j == k {
    } else {
      CountedStays(run, acts, j, k - 1, i);
      assert run[k] == Step(run[k - 1], acts[k - 1]);
    }
  }

  /** In a whole run a test is counted at most once, and only after its report was accepted. */
  lemma CountedAtMostOnce(run: seq<State>, acts: seq<Action>, k: nat, i: nat)
    requires IsRun(run, acts) && k < |acts| && acts[k] == Record(i)
    ensures exists j :: 0 <= j < k && acts[j] == Submit(i, true)
    ensures forall m :: 0 <= m < |acts| && acts[m] == Record(i) ==> m == k
  {
    var j := RecordingWasSubmitted(run, acts, k, i);
    forall m | 0 <= m < |acts| && acts[m] == Record(i) ensures m == k {
      if m > k {
        CountedStays(run, acts, k + 1, m, i);
      } else if m < k {
        CountedStays(run, acts, m + 1, k, i);
      }
    }
  }

  // From what was performed to what is counted

  /** What a task may still be after its test came to `p`. */
  ghost predicate Follows(t: Task, p: Performed) {
    if p.PerformPanicked? then t.Panicked?
    else
      var data := if p.PerformFailed? then ErrorResult else p.result;
      t == Submitting(data) || t == Recording(data) || t == Counted(data) || t == SubmitFailed
  }

  lemma {:induction false} PerformedStays(run: seq<State>, acts: seq<Action>, j: nat, k: nat, i: nat, p: Performed)
    requires IsRun(run, acts) && j < k <= |acts| && acts[j] == Perform(i, p)
    ensures i < |run[k].tasks| && Follows(run[k].tasks[i], p)
  {
    if k == j + 1 {
      assert run[k] == Step(run[j], acts[j]);
    } else {
      PerformedStays(run, acts, j, k - 1, i, p);
      StaysFollowing(run[k - 1], acts[k - 1], i, p);
    }
  }

  lemma StaysFollowing(s: State, a: Action, i: nat, p: Performed)
    requires Enabled(s, a) && i < |s.tasks| && Follows(s.tasks[i], p)
    ensures i < |Step(s, a).tasks| && Follows(Step(s, a).tasks[i], p)
  {
  }

  /** A shutdown stops no test that has been performed: its result is still submitted and counted. */
  lemma ShutdownStopsNoPerformed(run: seq<State>, acts: seq<Action>, j: nat, k: nat, i: nat, p: Performed)
    requires IsRun(run, acts) && j < k <= |acts| && acts[j] == Perform(i, p)
    ensures i < |run[k].tasks| && !run[k].tasks[i].ShutDown?
    ensures !p.PerformPanicked? && (forall a :: Enabled(run[k], a) ==> a != Submit(i, true) && a != Record(i)) ==>
              run[k].tasks[i].Counted? || run[k].tasks[i].SubmitFailed?
  {
    PerformedStays(run, acts, j, k, i, p);
    if run[k].tasks[i].Submitting? { assert Enabled(run[k], Submit(i, true)); }
    if run[k].tasks[i].Recording? { assert Enabled(run[k], Record(i)); }
  }

  /** A task with a result has performed its test. */
  lemma {:induction false} ResultWasPerformed(run: seq<State>, acts: seq<Action>, k: nat, i: nat) returns (j: nat, p: Performed)
    requires IsRun(run, acts) && k <= |acts| && i < |run[k].tasks|
    requires run[k].tasks[i].Submitting? || run[k].tasks[i].Recording?
    ensures j < k && acts[j] == Perform(i, p) && !p.PerformPanicked?
  {
    var s, a := run[k - 1], acts[k - 1];
    assert run[k] == Step(s, a);
    if a.Perform? && a.i == i {
      j, p := k - 1, a.outcome;
    } else {
      assert i < |s.tasks| && (s.tasks[i].Submitting? || s.tasks[i].Recording?);
      j, p := ResultWasPerformed(run, acts, k - 1, i);
    }
  }

  /** What a recorded test came to decides which counter moves, and only that one does, by one. */
  lemma CountedByResult(run: seq<State>, acts: seq<Action>, k: nat, i: nat) returns (j: nat, p: Performed)
    requires IsRun(run, acts) && k < |acts| && acts[k] == Record(i)
    ensures j < k && acts[j] == Perform(i, p) && (IsDone(p) || IsFailed(p))
    ensures run[k + 1].completed == run[k].completed + if IsDone(p) then 1 else 0
    ensures run[k + 1].failed == run[k].failed + if IsFailed(p) then 1 else 0
  {
    j, p := ResultWasPerformed(run, acts, k, i);
    PerformedStays(run, acts, j, k, i, p);
  }

  /** No other step moves a counter. */
  lemma OnlyRecordingCounts(s: State, a: Action)
    requires Enabled(s, a) && !a.Record?
    ensures Step(s, a).completed == s.completed && Step(s, a).failed == s.failed
  {
  }
}
