/** Exactly which workloads finish, under some schedule and under every schedule, and exactly when
    commands that fail to start block the generator, wedge the test or spoil its results. */
module StartFailuresExactly {
  import opened LoadGenerator
  import opened LoadRuns
  import opened StartFailures

  // ----- finding failures -----

  lemma {:induction false} FindFailure(w: Workload, n: int) returns (cmd: Command)
    requires FailedAmong(w, n) >= 1
    ensures cmd < n && cmd in w.startFailures
  {
    if n - 1 in w.startFailures {
      cmd := n - 1;
    } else {
      cmd := FindFailure(w, n - 1);
    }
  }

  /** As many failures as are wanted lie before some point. */
  lemma {:induction false} FindFailures(w: Workload, n: int, k: nat) returns (m: nat)
    requires FailedAmong(w, n) >= k
    ensures m <= n || m == 0
    ensures FailedAmong(w, m) == k
  {
    if FailedAmong(w, n) == k {
      m := if n < 0 then 0 else n;
    } else {
      m := FindFailures(w, n - 1, k);
    }
  }

  // ----- nothing to do -----

  predicate HasNothing(s: State) {
    && s.allCmds == [] && s.newWork == [] && s.work == [] && s.running == map[] && s.executionUpdates == []
    && s.numFinished == 0 && s.results == [] && (s.executorAt == Idle || s.executorAt == Exited)
  }

  lemma {:induction false} RunKeepsNothing(w: Workload, s: State, steps: seq<Step>)
    requires w.numCommands == 0 && HasNothing(s) && IsRun(w, s, steps)
    ensures HasNothing(After(w, s, steps))
    decreases steps
  {
    if steps != [] {
      assert HasNothing(Take(w, s, steps[0]));
      RunKeepsNothing(w, Take(w, s, steps[0]), steps[1..]);
    }
  }

  lemma WithoutCommands(w: Workload, s: State)
    requires w.numCommands == 0 && IsReachable(w, s)
    ensures HasNothing(s)
  {
    var steps :| IsRun(w, Start(w), steps) && After(w, Start(w), steps) == s;
    RunKeepsNothing(w, Start(w), steps);
  }

  // ----- finishing at all -----

  ghost predicate CanFinish(w: Workload) {
    exists s :: IsReachable(w, s) && s.executorAt == Exited
  }

  /** A workload can be brought to its end exactly when it has no commands, or allows at least one at
      a time and raises the limit by at least one; whichever commands fail to start. */
  lemma FinishesExactly(w: Workload)
    ensures CanFinish(w) <==> CanRun(w)
  {
    if w.numCommands == 0 {
      LeadsToItself(w, Start(w));
      LeadsOn(w, Start(w), Start(w), Exit);
    } else if CanRun(w) {
      var s := Processed(w, w.numCommands);
      AreProcessed(w, w.numCommands);
      LeadsOn(w, Start(w), s, Exit);
      assert Take(w, s, Exit).executorAt == Exited;
    } else {
      forall s | IsReachable(w, s) ensures s.executorAt != Exited {
        ReachableIsStuck(w, s);
      }
    }
  }

  // ----- blocking the generator -----

  predicate IsBlocked(w: Workload, s: State) {
    s.generatorAt == SendingWork && s.newWork != [] && |s.work| >= w.concurrentCommands
  }

  ghost predicate CanBlock(w: Workload) {
    exists s :: IsReachable(w, s) && IsBlocked(w, s)
  }

  /** A second report lets the generator take out one command too many. */
  lemma SecondReportBlocks(w: Workload, cmd: Command) returns (s: State)
    requires CanRun(w) && cmd in w.startFailures && cmd + w.concurrentCommands + 1 < w.numCommands
    ensures IsReachable(w, s) && IsBlocked(w, s)
  {
    var n := cmd + 1;
    AreProcessed(w, n);
    s := SecondReportOf(w, n, cmd);
  }

  /** The same from the middle of a run: the state that it leads to. */
  lemma SecondReportOf(w: Workload, n: nat, cmd: Command) returns (s: State)
    requires n + w.concurrentCommands + 1 <= w.numCommands && w.concurrentCommands >= 1
    requires IsReachable(w, Processed(w, n)) && cmd in ReportedOnce(w, n)
    ensures IsReachable(w, s) && IsBlocked(w, s)
    ensures s.executorAt == Idle && s.executionUpdates == [] && s.commandFinished == 0 && s.numFinished == n + 1
    ensures s.running == ReportedOnce(w, n) - {cmd} && s.ramperAt == RamperDone
    ensures s.work == Commands(w.numCommands)[n..n + w.concurrentCommands] && s.newWork == [n + w.concurrentCommands]
  {
    var p := Processed(w, n);
    GetsResult(w, p, cmd);
    var t := WithResult(p, cmd);
    LeadsOn(w, Start(w), t, TakeFinished);
    var u := Take(w, t, TakeFinished);
    assert Room(u) == 1;
    LeadsOn(w, Start(w), u, Fill);
    s := Take(w, u, Fill);
  }

  /** Some schedule blocks a send on the work channel exactly when one of the commands but the last
      few fails to start: of those that leave more than a channel's worth behind them. */
  lemma BlocksExactly(w: Workload)
    ensures CanBlock(w) <==> CanRun(w) && FailedAmong(w, w.numCommands - w.concurrentCommands - 1) >= 1
  {
    var n := w.numCommands - w.concurrentCommands - 1;
    if CanRun(w) && FailedAmong(w, n) >= 1 {
      var cmd := FindFailure(w, n);
      var s := SecondReportBlocks(w, cmd);
    }
    forall s | IsReachable(w, s) && IsBlocked(w, s) ensures CanRun(w) && FailedAmong(w, n) >= 1 {
      BlockedHasFailure(w, s);
    }
  }

  lemma BlockedHasFailure(w: Workload, s: State)
    requires IsReachable(w, s) && IsBlocked(w, s)
    ensures CanRun(w) && FailedAmong(w, w.numCommands - w.concurrentCommands - 1) >= 1
  {
    if w.numCommands == 0 {
      WithoutCommands(w, s);
    } else {
      if !CanRun(w) {
        ReachableIsStuck(w, s);
      }
      ReachableIsInvariant(w, s);
      StartedAreFirst(w, s);
      ReportedAdd(w, s);
      FailedAmongGrows(w, |s.started|, w.numCommands - w.concurrentCommands - 1);
    }
  }

  // ----- deadlock -----

  ghost predicate CanDie(w: Workload) {
    exists s :: IsReachable(w, s) && IsDead(w, s)
  }

  /** At least three of the commands fail to start that leave both more than a channel's worth and
      at least three commands behind them. */
  predicate HasThreeFailures(w: Workload) {
    FailedAmong(w, w.numCommands - if w.concurrentCommands >= 2 then w.concurrentCommands + 1 else 3) >= 3
  }

  lemma OneMoreReportedOnce(w: Workload, n: nat)
    ensures ReportedOnce(w, n + 1).Keys == ReportedOnce(w, n).Keys + (if n in w.startFailures then {n} else {})
    ensures n !in ReportedOnce(w, n).Keys
  {
  }

  lemma {:induction false} FailuresAreReportedOnce(w: Workload, n: nat)
    ensures |ReportedOnce(w, n).Keys| == FailedAmong(w, n)
  {
    if n > 0 {
      FailuresAreReportedOnce(w, n - 1);
      OneMoreReportedOnce(w, n - 1);
    } else {
      assert ReportedOnce(w, n) == map[];
    }
  }

  lemma ThreeElements(s: set<Command>) returns (a: Command, b: Command, c: Command)
    requires |s| == 3
    ensures s == {a, b, c} && a != b && a != c && b != c
  {
    a :| a in s;
    var two := s - {a};
    assert |two| == 2;
    b :| b in two;
    var one := two - {b};
    assert |one| == 1;
    c :| c in one;
    assert |one - {c}| == 0;
  }

  /** The last second report of three finds the generator blocked and its channel full. */
  lemma ThirdReportWedges(w: Workload, s: State, b: Command, c: Command) returns (dead: State)
    requires IsReachable(w, s) && IsBlocked(w, s) && b != c && s.running == map[b := Running(0, 1), c := Running(0, 1)]
    requires s.executorAt == Idle && s.executionUpdates == [] && s.commandFinished == 0
    requires s.numFinished + 1 < w.numCommands && s.ramperAt == RamperDone
    ensures IsReachable(w, dead) && IsDead(w, dead) && IsWedged(w, dead)
    ensures dead.work == s.work && dead.newWork == s.newWork
  {
    GetsResult(w, s, b);
    var t := WithResult(s, b);
    assert t.running == map[c := Running(0, 1)];
    LeadsOn(w, Start(w), t, ReportCompleted(c));
    var u := Take(w, t, ReportCompleted(c));
    assert u.executionUpdates == [Completed(c)] && u.running == map[];
    LeadsOn(w, Start(w), u, TakeUpdate);
    dead := Take(w, u, TakeUpdate);
    WedgedIsDead(w, dead);
  }

  lemma WedgedIsDead(w: Workload, s: State)
    requires IsWedged(w, s) && s.running == map[] && s.ramperAt == RamperDone
    ensures IsDead(w, s)
  {
  }

  lemma ThreeFailuresDeadlock(w: Workload) returns (dead: State, n: nat)
    requires CanRun(w) && HasThreeFailures(w)
    ensures IsReachable(w, dead) && IsDead(w, dead) && IsWedged(w, dead)
    ensures FailedAmong(w, n) == 3 && n + w.concurrentCommands < w.numCommands
    ensures dead.work == Commands(w.numCommands)[n..n + w.concurrentCommands]
    ensures dead.newWork == [n + w.concurrentCommands]
  {
    n := FindFailures(w, w.numCommands - if w.concurrentCommands >= 2 then w.concurrentCommands + 1 else 3, 3);
    AreProcessed(w, n);
    FailuresAreReportedOnce(w, n);
    var failed := ReportedOnce(w, n);
    var a, b, c := ThreeElements(failed.Keys);
    var s := SecondReportOf(w, n, a);
    assert failed - {a} == map[b := Running(0, 1), c := Running(0, 1)] by {
      assert (failed - {a}).Keys == {b, c};
    }
    dead := ThirdReportWedges(w, s, b, c);
  }

  lemma EmptyIsAlive(w: Workload, s: State)
    requires w.numCommands == 0 && IsReachable(w, s)
    ensures !IsDead(w, s)
  {
    WithoutCommands(w, s);
    if s.executorAt == Idle {
      assert IsEnabled(w, s, Exit);
    }
  }

  lemma DeadHasThreeFailures(w: Workload, s: State)
    requires CanRun(w) && IsReachable(w, s) && IsDead(w, s)
    ensures HasThreeFailures(w)
  {
    if w.numCommands == 0 {
      EmptyIsAlive(w, s);
    } else {
      ReachableIsInvariant(w, s);
      DeadIsWedged(w, s);
      WedgedHasFailures(w, s);
      FailedAmongGrows(
        w, |s.started|, w.numCommands - if w.concurrentCommands >= 2 then w.concurrentCommands + 1 else 3);
    }
  }

  /** There are commands, but the ramp ends at a limit of zero. */
  predicate RampsToNothing(w: Workload) {
    w.numCommands > 0 && w.concurrentCommands == 0 && w.rampUpAmount >= 0
  }

  lemma RampToNothingDies(w: Workload) returns (dead: State)
    requires RampsToNothing(w)
    ensures IsReachable(w, dead) && IsDead(w, dead)
  {
    LeadsToItself(w, Start(w));
    LeadsOn(w, Start(w), Start(w), ComputeLimit);
    var t := Take(w, Start(w), ComputeLimit);
    HandsOut(w, t);
    LeadsOn(w, Start(w), HandedOut(t), DeliverLimit);
    var u := Take(w, HandedOut(t), DeliverLimit);
    HandsOut(w, u);
    dead := HandedOut(u);
    assert dead.work == [] && dead.running == map[];
  }

  lemma DeadRampIsOver(w: Workload, s: State)
    requires !CanRun(w) && IsReachable(w, s) && IsDead(w, s)
    ensures RampsToNothing(w)
  {
    ReachableIsStuck(w, s);
    GeneratorMoves(w, s);
    assert !IsEnabled(w, s, ComputeLimit) && !IsEnabled(w, s, DeliverLimit) && !IsEnabled(w, s, WakeUp);
    var steps :| IsRun(w, Start(w), steps) && After(w, Start(w), steps) == s;
    RampIsFollowed(w, steps);
    NegativeTimes(HowMany(steps, DeliverLimit), w.rampUpAmount);
  }

  lemma NegativeTimes(n: nat, amount: int)
    ensures n >= 1 && amount < 0 ==> n * amount < 0
  {
  }

  /** Some schedule leads to a deadlock exactly when the workload can run but three such commands fail
      to start, or when there are commands and the ramp ends at zero. */
  lemma DeadlocksExactly(w: Workload)
    ensures CanDie(w) <==> (CanRun(w) && HasThreeFailures(w)) || RampsToNothing(w)
  {
    if CanRun(w) && HasThreeFailures(w) {
      var dead, n := ThreeFailuresDeadlock(w);
    } else if RampsToNothing(w) {
      var dead := RampToNothingDies(w);
    }
    forall s | IsReachable(w, s) && IsDead(w, s) ensures (CanRun(w) && HasThreeFailures(w)) || RampsToNothing(w) {
      if CanRun(w) {
        DeadHasThreeFailures(w, s);
      } else {
        DeadRampIsOver(w, s);
      }
    }
  }

  // ----- finishing whatever happens -----

  ghost predicate CanEnd(w: Workload, s: State) {
    exists t :: Leads(w, s, t) && t.executorAt == Exited
  }

  /** However a run has gone so far, it can go on to the end. */
  ghost predicate AlwaysFinishes(w: Workload) {
    forall s :: IsReachable(w, s) ==> CanEnd(w, s)
  }

  lemma FirstStepLeads(w: Workload, s: State, step: Step, t: State)
    requires IsEnabled(w, s, step) && Leads(w, Take(w, s, step), t)
    ensures Leads(w, s, t)
  {
    var steps :| IsRun(w, Take(w, s, step), steps) && After(w, Take(w, s, step), steps) == t;
    var all := [step] + steps;
    assert all[1..] == steps;
    assert IsRun(w, s, all) && After(w, s, all) == t;
  }

  lemma DeadCannotEnd(w: Workload, s: State)
    requires IsDead(w, s)
    ensures !CanEnd(w, s)
  {
    forall t | Leads(w, s, t) ensures t.executorAt != Exited {
      var steps :| IsRun(w, s, steps) && After(w, s, steps) == t;
      assert steps == [];
    }
  }

  lemma {:induction false} GoesOnToTheEnd(w: Workload, s: State)
    requires w.rampUpAmount >= 1 && w.concurrentCommands >= 1
    requires !HasThreeFailures(w) && IsReachable(w, s) && Invariant(w, s)
    ensures CanEnd(w, s)
    decreases Distance(w, s)
  {
    if s.executorAt == Exited {
      LeadsToItself(w, s);
    } else {
      if IsDead(w, s) {
        DeadHasThreeFailures(w, s);
      }
      var step :| IsEnabled(w, s, step);
      LeadsOn(w, Start(w), s, step);
      StepKeepsInvariant(w, s, step);
      StepGetsCloser(w, s, step);
      GoesOnToTheEnd(w, Take(w, s, step));
      var t :| Leads(w, Take(w, s, step), t) && t.executorAt == Exited;
      FirstStepLeads(w, s, step, t);
    }
  }

  lemma EmptyWorkloadEnds(w: Workload, s: State)
    requires w.numCommands == 0 && IsReachable(w, s)
    ensures CanEnd(w, s)
  {
    WithoutCommands(w, s);
    LeadsToItself(w, s);
    if s.executorAt != Exited {
      LeadsOn(w, s, s, Exit);
    }
  }

  /** Every run of a workload can be brought to its end, whatever the schedule has been so far, exactly
      when the workload can run and no three commands fail to start that can wedge it. As runs are
      bounded, such a workload does end. */
  lemma AlwaysFinishesExactly(w: Workload)
    ensures AlwaysFinishes(w) <==> CanRun(w) && !HasThreeFailures(w)
  {
    LeadsToItself(w, Start(w));
    FinishesExactly(w);
    if !CanRun(w) {
      assert !CanEnd(w, Start(w));
    } else if HasThreeFailures(w) {
      var dead, n := ThreeFailuresDeadlock(w);
      DeadCannotEnd(w, dead);
    } else {
      forall s | IsReachable(w, s) ensures CanEnd(w, s) {
        if w.numCommands == 0 {
          EmptyWorkloadEnds(w, s);
        } else {
          ReachableIsInvariant(w, s);
          GoesOnToTheEnd(w, s);
        }
      }
    }
  }

  // ----- an example -----

  /** Seven commands, three at a time, of which the first three fail to start. */
  const WEDGING := Workload(7, 3, 3, (cmd: Command) => 0, {0, 1, 2})

  /** A schedule ends with three commands in the work channel, one that the generator cannot send, and
      an acknowledgement that the executor cannot deliver. */
  lemma FailedStartsCanDeadlock() returns (dead: State)
    ensures IsReachable(WEDGING, dead) && IsDead(WEDGING, dead) && IsWedged(WEDGING, dead)
    ensures dead.work == [3, 4, 5] && dead.newWork == [6]
  {
    var w := WEDGING;
    assert FailedAmong(w, 1) == 1;
    assert FailedAmong(w, 2) == 2;
    assert FailedAmong(w, 3) == 3;
    var n;
    dead, n := ThreeFailuresDeadlock(w);
    assert n == 3;
  }
}
