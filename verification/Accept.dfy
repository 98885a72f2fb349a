/**
  The accept command: one task for each incoming connection, and a shared counter whose old
  value at a task's start decides whether the task shows its test in the user interface.
*/
module Accept {
  datatype Task =
    | Spawned
    | Connecting(ticket: nat)
    | Testing(ticket: nat, gui: bool)
    | Finishing(ticket: nat)
    | Ended

  datatype State = State(counter: nat, tasks: seq<Task>)

  datatype Action =
    | IncomingFails
    | Arrive
    | TakeTicket(i: nat)
    | Connected(i: nat)
    | ConnectFails(i: nat)
    | TestEnds(i: nat)
    | GiveBack(i: nat)

  const Initial := State(0, [])

  /** Between taking a ticket and giving it back. */
  predicate Live(t: Task) { t.Connecting? || t.Testing? || t.Finishing? }

  ghost predicate Enabled(s: State, a: Action) {
    match a
    case IncomingFails => true
    case Arrive => true
    case TakeTicket(i) => i < |s.tasks| && s.tasks[i].Spawned?
    case Connected(i) => i < |s.tasks| && s.tasks[i].Connecting?
    case ConnectFails(i) => i < |s.tasks| && s.tasks[i].Connecting?
    case TestEnds(i) => i < |s.tasks| && s.tasks[i].Testing?
    case GiveBack(i) => i < |s.tasks| && s.tasks[i].Finishing?
  }

  /** Giving back a ticket at zero would wrap; `Underflow` marks that this never happens. */
  datatype Result = Next(s: State) | Underflow

  ghost function Step(s: State, a: Action): Result
    requires Enabled(s, a)
  {
    match a
    case IncomingFails => Next(s)
    case Arrive => Next(s.(tasks := s.tasks + [Spawned]))
    case TakeTicket(i) => Next(State(s.counter + 1, s.tasks[i := Connecting(s.counter)]))
    case Connected(i) => Next(s.(tasks := s.tasks[i := Testing(s.tasks[i].ticket, s.tasks[i].ticket == 0)]))
    case ConnectFails(i) => Next(s.(tasks := s.tasks[i := Finishing(s.tasks[i].ticket)]))
    case TestEnds(i) => Next(s.(tasks := s.tasks[i := Finishing(s.tasks[i].ticket)]))
    case GiveBack(i) =>
      if s.counter == 0 then Underflow else Next(State(s.counter - 1, s.tasks[i := Ended]))
  }

  function LiveCount(tasks: seq<Task>): nat {
    if tasks == [] then 0 else (if Live(tasks[0]) then 1 else 0) + LiveCount(tasks[1..])
  }

  lemma {:induction false} LiveCountUpdate(tasks: seq<Task>, i: nat, t: Task)
    requires i < |tasks|
    ensures LiveCount(tasks[i := t])
         == LiveCount(tasks) - (if Live(tasks[i]) then 1 else 0) + (if Live(t) then 1 else 0)
  {
    if i == 0 {
      assert tasks[0 := t][1..] == tasks[1..];
    } else {
      LiveCountUpdate(tasks[1..], i - 1, t);
      assert tasks[i := t][1..] == tasks[1..][i - 1 := t];
    }
  }

  lemma {:induction false} LiveCountAppend(tasks: seq<Task>, t: Task)
    ensures LiveCount(tasks + [t]) == LiveCount(tasks) + if Live(t) then 1 else 0
  {
    if tasks != [] {
      LiveCountAppend(tasks[1..], t);
      assert (tasks + [t])[1..] == tasks[1..] + [t];
    } else {
      assert (tasks + [t])[1..] == [];
    }
  }

  lemma {:induction false} NoneLive(tasks: seq<Task>)
    ensures LiveCount(tasks) == 0 <==> forall i :: 0 <= i < |tasks| ==> !Live(tasks[i])
  {
    if tasks == [] {
    } else {
      NoneLive(tasks[1..]);
      assert forall i :: 0 < i < |tasks| ==> tasks[i] == tasks[1..][i - 1];
      assert forall i :: 0 <= i < |tasks[1..]| ==> tasks[1..][i] == tasks[i + 1];
    }
  }

  ghost predicate Inv(s: State) {
    && s.counter == LiveCount(s.tasks)
    && (forall i, j :: 0 <= i < j < |s.tasks| && Live(s.tasks[i]) && Live(s.tasks[j]) ==>
          s.tasks[i].ticket != 0 || s.tasks[j].ticket != 0)
    && (forall i :: 0 <= i < |s.tasks| && s.tasks[i].Testing? ==> (s.tasks[i].gui <==> s.tasks[i].ticket == 0))
  }

  lemma TakeTicketInv(s: State, i: nat)
    requires Inv(s) && Enabled(s, TakeTicket(i))
    ensures Step(s, TakeTicket(i)).Next? && Inv(Step(s, TakeTicket(i)).s)
  {
    NoneLive(s.tasks);
    LiveCountUpdate(s.tasks, i, Connecting(s.counter));
  }

  lemma StepInv(s: State, a: Action)
    requires Inv(s) && Enabled(s, a)
    ensures Step(s, a).Next? && Inv(Step(s, a).s)
  {
    match a
    case IncomingFails =>
    case Arrive => LiveCountAppend(s.tasks, Spawned);
    case TakeTicket(i) => TakeTicketInv(s, i);
    case Connected(i) => LiveCountUpdate(s.tasks, i, Testing(s.tasks[i].ticket, s.tasks[i].ticket == 0));
    case ConnectFails(i) => LiveCountUpdate(s.tasks, i, Finishing(s.tasks[i].ticket));
    case TestEnds(i) => LiveCountUpdate(s.tasks, i, Finishing(s.tasks[i].ticket));
    case GiveBack(i) =>
      NoneLive(s.tasks);
      LiveCountUpdate(s.tasks, i, Ended);
  }

  ghost predicate IsRun(run: seq<State>, acts: seq<Action>) {
    && |run| == |acts| + 1 && run[0] == Initial
    && forall i :: 0 <= i < |acts| ==> Enabled(run[i], acts[i]) && Step(run[i], acts[i]) == Next(run[i + 1])
  }

  /** The counter is always the number of tasks that hold a ticket, so giving one back never underflows. */
  lemma {:induction false} CounterCountsLiveTasks(run: seq<State>, acts: seq<Action>, k: nat)
    requires IsRun(run, acts) && k <= |acts|
    ensures Inv(run[k])
    ensures run[k].counter == LiveCount(run[k].tasks)
    ensures forall a :: Enabled(run[k], a) ==> Step(run[k], a).Next?
  {
    if k == 0 {
    } else {
      CounterCountsLiveTasks(run, acts, k - 1);
      StepInv(run[k - 1], acts[k - 1]);
    }
    forall a | Enabled(run[k], a) ensures Step(run[k], a).Next? { StepInv(run[k], a); }
  }

  /** At no time do two tasks own the user interface. */
  lemma OneGuiOwner(run: seq<State>, acts: seq<Action>, k: nat, i: nat, j: nat)
    requires IsRun(run, acts) && k <= |acts| && i < j < |run[k].tasks|
    requires run[k].tasks[i].Testing? && run[k].tasks[j].Testing?
    ensures !(run[k].tasks[i].gui && run[k].tasks[j].gui)
  {
    CounterCountsLiveTasks(run, acts, k);
  }

  /** A new task gets the user interface exactly when no other task holds a ticket. */
  lemma GuiTicketIff(run: seq<State>, acts: seq<Action>, k: nat, i: nat)
    requires IsRun(run, acts) && k < |acts| && acts[k] == TakeTicket(i)
    ensures run[k + 1].tasks[i].Connecting?
    ensures run[k + 1].tasks[i].ticket == 0 <==> forall j :: 0 <= j < |run[k].tasks| ==> !Live(run[k].tasks[j])
  {
    CounterCountsLiveTasks(run, acts, k);
    NoneLive(run[k].tasks);
  }

  // When nobody owns the user interface

  ghost predicate HoldsFirst(t: Task) { Live(t) && t.ticket == 0 }

  ghost predicate SomeOwner(s: State) {
    exists i :: 0 <= i < |s.tasks| && HoldsFirst(s.tasks[i])
  }

  /** Since the state `j` the counter has not been back at zero. */
  ghost predicate Busy(run: seq<State>, j: nat, k: nat)
    requires k < |run|
  {
    j < k && run[j].counter == 0 && forall m :: j < m <= k ==> run[m].counter > 0
  }

  /** Only the task that ended the last idle period can hold the first ticket. */
  ghost predicate OnlyFirst(s: State, first: nat) {
    && first < |s.tasks| && !s.tasks[first].Spawned?
    && forall i :: 0 <= i < |s.tasks| && Live(s.tasks[i]) ==> (s.tasks[i].ticket == 0 <==> i == first)
  }

  lemma StepOnlyFirst(s: State, a: Action, first: nat)
    requires Enabled(s, a) && OnlyFirst(s, first) && s.counter > 0
    ensures Step(s, a).Next? ==> OnlyFirst(Step(s, a).s, first)
  {
  }

  lemma {:induction false} BusyOnlyFirst(run: seq<State>, acts: seq<Action>, j: nat, k: nat)
    requires IsRun(run, acts) && k <= |acts| && Busy(run, j, k)
    ensures acts[j].TakeTicket? && OnlyFirst(run[k], acts[j].i)
  {
    CounterCountsLiveTasks(run, acts, j);
    assert Step(run[j], acts[j]) == Next(run[j + 1]);
    if k == j + 1 {
      NoneLive(run[j].tasks);
    } else {
      BusyOnlyFirst(run, acts, j, k - 1);
      StepOnlyFirst(run[k - 1], acts[k - 1], acts[j].i);
      assert Step(run[k - 1], acts[k - 1]) == Next(run[k]);
    }
  }

  /** While tasks overlap, there is an owner exactly as long as the task that came first is still live. */
  lemma OwnerIffFirstIsLive(run: seq<State>, acts: seq<Action>, j: nat, k: nat)
    requires IsRun(run, acts) && k <= |acts| && Busy(run, j, k)
    ensures acts[j].TakeTicket? && acts[j].i < |run[k].tasks|
    ensures SomeOwner(run[k]) <==> Live(run[k].tasks[acts[j].i])
  {
    BusyOnlyFirst(run, acts, j, k);
  }

  lemma Extend(run: seq<State>, acts: seq<Action>, a: Action, s: State) returns (run': seq<State>, acts': seq<Action>)
    requires IsRun(run, acts) && Enabled(run[|acts|], a) && Step(run[|acts|], a) == Next(s)
    ensures IsRun(run', acts') && run'[|acts'|] == s
  {
    run', acts' := run + [s], acts + [a];
  }

  lemma TwoTests() returns (run: seq<State>, acts: seq<Action>)
    ensures IsRun(run, acts) && run[|acts|] == State(2, [Testing(0, true), Testing(1, false)])
  {
    run, acts := [Initial], [];
    run, acts := Extend(run, acts, Arrive, State(0, [Spawned]));
    run, acts := Extend(run, acts, TakeTicket(0), State(1, [Connecting(0)]));
    run, acts := Extend(run, acts, Arrive, State(1, [Connecting(0), Spawned]));
    run, acts := Extend(run, acts, TakeTicket(1), State(2, [Connecting(0), Connecting(1)]));
    run, acts := Extend(run, acts, Connected(0), State(2, [Testing(0, true), Connecting(1)]));
    run, acts := Extend(run, acts, Connected(1), State(2, [Testing(0, true), Testing(1, false)]));
  }

  /** A run in which the first task ends while another is live: of two tests neither is shown. */
  lemma TestsWithoutOwner() returns (run: seq<State>, acts: seq<Action>)
    ensures IsRun(run, acts)
    ensures run[|acts|].tasks == [Ended, Testing(1, false), Testing(1, false)] && !SomeOwner(run[|acts|])
  {
    run, acts := TwoTests();
    run, acts := Extend(run, acts, TestEnds(0), State(2, [Finishing(0), Testing(1, false)]));
    run, acts := Extend(run, acts, GiveBack(0), State(1, [Ended, Testing(1, false)]));
    run, acts := Extend(run, acts, Arrive, State(1, [Ended, Testing(1, false), Spawned]));
    run, acts := Extend(run, acts, TakeTicket(2), State(2, [Ended, Testing(1, false), Connecting(1)]));
    run, acts := Extend(run, acts, Connected(2), State(2, [Ended, Testing(1, false), Testing(1, false)]));
  }
}
