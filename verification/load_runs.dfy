/** Whole runs of the load generator: they are bounded, and where they can end. */
module LoadRuns {
  import opened LoadGenerator

  /** Can these steps be taken one after the other? */
  predicate IsRun(w: Workload, s: State, steps: seq<Step>)
    decreases steps
  {
    steps == [] || (IsEnabled(w, s, steps[0]) && IsRun(w, Take(w, s, steps[0]), steps[1..]))
  }

  function After(w: Workload, s: State, steps: seq<Step>): State
    requires IsRun(w, s, steps)
    decreases steps
  {
    if steps == [] then s else After(w, Take(w, s, steps[0]), steps[1..])
  }

  /** Does some run lead from one state to the other? */
  ghost predicate Leads(w: Workload, s: State, t: State) {
    exists steps :: IsRun(w, s, steps) && After(w, s, steps) == t
  }

  ghost predicate IsReachable(w: Workload, s: State) {
    Leads(w, Start(w), s)
  }

  lemma {:induction false} AppendStep(w: Workload, s: State, steps: seq<Step>, step: Step)
    requires IsRun(w, s, steps) && IsEnabled(w, After(w, s, steps), step)
    ensures IsRun(w, s, steps + [step]) && After(w, s, steps + [step]) == Take(w, After(w, s, steps), step)
    decreases steps
  {
    if steps == [] {
      assert [step][1..] == [];
    } else {
      assert (steps + [step])[1..] == steps[1..] + [step];
      AppendStep(w, Take(w, s, steps[0]), steps[1..], step);
    }
  }

  lemma LeadsToItself(w: Workload, s: State)
    ensures Leads(w, s, s)
  {
    assert IsRun(w, s, []);
  }

  lemma LeadsOn(w: Workload, s: State, t: State, step: Step)
    requires Leads(w, s, t) && IsEnabled(w, t, step)
    ensures Leads(w, s, Take(w, t, step))
  {
    var steps :| IsRun(w, s, steps) && After(w, s, steps) == t;
    AppendStep(w, s, steps, step);
  }

  lemma {:induction false} RunKeepsInvariant(w: Workload, s: State, steps: seq<Step>)
    requires w.rampUpAmount >= 1 && Invariant(w, s) && IsRun(w, s, steps)
    ensures Invariant(w, After(w, s, steps))
    ensures |steps| + Distance(w, After(w, s, steps)) <= Distance(w, s)
    decreases steps
  {
    if steps != [] {
      StepKeepsInvariant(w, s, steps[0]);
      StepGetsCloser(w, s, steps[0]);
      RunKeepsInvariant(w, Take(w, s, steps[0]), steps[1..]);
    }
  }

  lemma ReachableIsInvariant(w: Workload, s: State)
    requires w.rampUpAmount >= 1 && IsReachable(w, s)
    ensures Invariant(w, s)
  {
    var steps :| IsRun(w, Start(w), steps) && After(w, Start(w), steps) == s;
    StartIsInvariant(w);
    RunKeepsInvariant(w, Start(w), steps);
  }

  // ----- no livelock -----

  /** What a command has yet to report. */
  function Left(w: Workload, s: State, cmd: Command): Running {
    if cmd in s.running then s.running[cmd] else if cmd < |s.started| then Running(0, 0) else Begin(w, cmd)
  }

  function ReportWeight(r: Running): nat {
    2 * r.executing + 6 * r.completed
  }

  function AllLeft(w: Workload, s: State): (left: seq<Running>)
    ensures |left| == w.numCommands
    ensures forall cmd: Command :: cmd < w.numCommands ==> left[cmd] == Left(w, s, cmd)
  {
    seq(w.numCommands, cmd requires 0 <= cmd < w.numCommands => Left(w, s, cmd))
  }

  function ReportsWeight(left: seq<Running>): nat {
    if left == [] then 0 else ReportsWeight(left[..|left| - 1]) + ReportWeight(left[|left| - 1])
  }

  function GeneratorWeight(s: State): nat {
    match s.generatorAt
    case Filling => 2
    case SendingWork => 1
    case Selecting => 0
  }

  function RamperWeight(w: Workload, s: State): nat
    requires s.limit <= w.concurrentCommands
  {
    var ahead := 5 * (w.concurrentCommands - s.limit);
    match s.ramperAt
    case Computing => if ahead == 0 then 5 else ahead
    case SendingLimit => ahead + 4
    case Sleeping => ahead + 1
    case RamperDone => 0
  }

  /** What is on its way through the channels: it weighs less the further it has come. */
  function Load(s: State): nat {
    3 * |s.allCmds| + 2 * |s.newWork| + |s.work|
    + |s.executionUpdates| + 4 * |CompletedIn(s.executionUpdates)| + 4 * |Acknowledged(s)| + 3 * s.commandFinished
  }

  /** The distance without what the commands have yet to report. */
  function Rest(w: Workload, s: State): nat
    requires s.limit <= w.concurrentCommands
  {
    Load(s) + GeneratorWeight(s) + RamperWeight(w, s) + if s.executorAt == Exited then 0 else 1
  }

  /** How far the run still is from its end. */
  function Distance(w: Workload, s: State): nat
    requires s.limit <= w.concurrentCommands
  {
    Rest(w, s) + ReportsWeight(AllLeft(w, s))
  }

  lemma {:induction false} OneReportChanges(left: seq<Running>, i: nat, r: Running)
    requires i < |left|
    ensures ReportsWeight(left[i := r]) + ReportWeight(left[i]) == ReportsWeight(left) + ReportWeight(r)
  {
    var last, after := |left| - 1, left[i := r];
    if i < last {
      OneReportChanges(left[..last], i, r);
      assert after[..last] == left[..last][i := r];
    } else {
      assert after[..last] == left[..last];
    }
  }

  lemma StartKeepsReports(w: Workload, s: State)
    requires IsInOrder(w, s) && IsAccountedFor(w, s) && s.work != []
    ensures AllLeft(w, AfterStartCommand(w, s)) == AllLeft(w, s)
  {
    StartedAreFirst(w, s);
  }

  lemma RamperGetsCloser(w: Workload, s: State, step: Step)
    requires w.rampUpAmount >= 1 && IsRamping(w, s) && IsEnabled(w, s, step)
    requires step.ComputeLimit? || step.DeliverLimit? || step.WakeUp?
    ensures Take(w, s, step).limit <= w.concurrentCommands
    ensures Rest(w, Take(w, s, step)) < Rest(w, s)
  {
    assert Load(Take(w, s, step)) == Load(s);
  }

  lemma GeneratorGetsCloser(w: Workload, s: State, step: Step)
    requires IsLimited(s) && IsRamping(w, s) && IsEnabled(w, s, step)
    requires step.SendWork? || step.StopSending? || step.TakeFinished?
    ensures Rest(w, Take(w, s, step)) < Rest(w, s)
  {
  }

  lemma FillGetsCloser(w: Workload, s: State)
    requires IsLimited(s) && IsRamping(w, s) && s.generatorAt == Filling
    ensures Rest(w, AfterFill(s)) < Rest(w, s)
  {
    assert |AfterFill(s).newWork| == Room(s) && |AfterFill(s).allCmds| == |s.allCmds| - Room(s);
  }

  lemma UpdateGetsCloser(w: Workload, s: State)
    requires IsRamping(w, s) && s.executorAt == Idle && s.executionUpdates != []
    ensures Rest(w, AfterTakeUpdate(s)) < Rest(w, s)
  {
    var u, t := s.executionUpdates[0], AfterTakeUpdate(s);
    assert |CompletedIn(t.executionUpdates)| == |CompletedIn(s.executionUpdates)| - |CompletionOf(u)|;
    assert |Acknowledged(t)| == |CompletionOf(u)| && |Acknowledged(s)| == 0;
  }

  lemma ExecutorGetsCloser(w: Workload, s: State, step: Step)
    requires IsRamping(w, s) && IsEnabled(w, s, step)
    requires step.StartCommand? || step.Acknowledge? || step.Exit?
    ensures Rest(w, Take(w, s, step)) < Rest(w, s)
  {
  }

  lemma ExecutingIsLoaded(w: Workload, s: State, cmd: Command)
    requires IsRamping(w, s) && cmd in s.running && s.running[cmd].executing > 0
    ensures Rest(w, AfterReportExecuting(s, cmd)) == Rest(w, s) + 1
  {
    CompletedInAppend(s.executionUpdates, Executing(cmd));
  }

  lemma ExecutingGetsCloser(w: Workload, s: State, cmd: Command)
    requires IsRamping(w, s) && IsAccountedFor(w, s) && |s.started| <= w.numCommands
    requires cmd in s.running && s.running[cmd].executing > 0
    ensures Distance(w, AfterReportExecuting(s, cmd)) < Distance(w, s)
  {
    var left, r := AllLeft(w, s), s.running[cmd].(executing := s.running[cmd].executing - 1);
    ExecutingIsLoaded(w, s, cmd);
    assert AllLeft(w, AfterReportExecuting(s, cmd)) == left[cmd := r];
    OneReportChanges(left, cmd, r);
  }

  lemma CompletedGetsCloser(w: Workload, s: State, cmd: Command)
    requires IsRamping(w, s) && IsAccountedFor(w, s) && |s.started| <= w.numCommands
    requires cmd in s.running
    ensures Distance(w, AfterReportCompleted(s, cmd)) < Distance(w, s)
  {
    var t := AfterReportCompleted(s, cmd);
    CompletedInAppend(s.executionUpdates, Completed(cmd));
    assert Rest(w, t) == Rest(w, s) + 5;
    assert AllLeft(w, t) == AllLeft(w, s)[cmd := Left(w, t, cmd)];
    OneReportChanges(AllLeft(w, s), cmd, Left(w, t, cmd));
  }

  /** Every step brings the run closer to its end, whichever commands fail to start. */
  lemma StepGetsCloser(w: Workload, s: State, step: Step)
    requires w.rampUpAmount >= 1 && Invariant(w, s) && IsEnabled(w, s, step)
    ensures Take(w, s, step).limit <= w.concurrentCommands
    ensures Distance(w, Take(w, s, step)) < Distance(w, s)
  {
    StartedAreFirst(w, s);
    if step.ReportExecuting? {
      ExecutingGetsCloser(w, s, step.cmd);
    } else if step.ReportCompleted? {
      CompletedGetsCloser(w, s, step.cmd);
    } else {
      if step.StartCommand? {
        StartKeepsReports(w, s);
      } else {
        assert AllLeft(w, Take(w, s, step)) == AllLeft(w, s);
      }
      RestGetsCloser(w, s, step);
    }
  }

  lemma RestGetsCloser(w: Workload, s: State, step: Step)
    requires w.rampUpAmount >= 1 && IsLimited(s) && IsRamping(w, s) && IsEnabled(w, s, step)
    requires !step.ReportExecuting? && !step.ReportCompleted?
    ensures Take(w, s, step).limit <= w.concurrentCommands
    ensures Rest(w, Take(w, s, step)) < Rest(w, s)
  {
    if step.ComputeLimit? || step.DeliverLimit? || step.WakeUp? {
      RamperGetsCloser(w, s, step);
    } else if step.TakeUpdate? {
      UpdateGetsCloser(w, s);
    } else if step.Fill? {
      FillGetsCloser(w, s);
    } else if step.SendWork? || step.StopSending? || step.TakeFinished? {
      GeneratorGetsCloser(w, s, step);
    } else {
      ExecutorGetsCloser(w, s, step);
    }
  }

  /** However the goroutines are scheduled and whichever commands fail to start, a run takes no more
      steps than this. */
  lemma RunsAreBounded(w: Workload, steps: seq<Step>)
    requires w.rampUpAmount >= 1 && IsRun(w, Start(w), steps)
    ensures |steps| <= Distance(w, Start(w))
  {
    StartIsInvariant(w);
    RunKeepsInvariant(w, Start(w), steps);
  }

  // ----- where a run can end -----

  /** The executor has not left its loop, and no goroutine can move. */
  ghost predicate IsDead(w: Workload, s: State) {
    s.executorAt != Exited && forall step :: !IsEnabled(w, s, step)
  }

  predicate CanRun(w: Workload) {
    w.numCommands == 0 || (w.concurrentCommands >= 1 && w.rampUpAmount >= 1)
  }

  /** The executor waits to acknowledge a completion, the channel for that is full, and the generator,
      which should empty it, waits to send work to the executor. */
  predicate IsWedged(w: Workload, s: State) {
    && s.executorAt.Acknowledging? && s.commandFinished == FINISHED_CAPACITY
    && s.generatorAt == SendingWork && s.newWork != [] && |s.work| >= w.concurrentCommands
  }

  /** The generator is never stuck while an acknowledgement waits, unless the work channel is full. */
  lemma GeneratorMoves(w: Workload, s: State)
    requires IsDead(w, s)
    ensures s.generatorAt == Selecting
      || (s.generatorAt == SendingWork && s.newWork != [] && |s.work| >= w.concurrentCommands)
    ensures s.generatorAt == Selecting ==> s.commandFinished == 0
  {
    assert !IsEnabled(w, s, Fill) && !IsEnabled(w, s, SendWork);
    assert !IsEnabled(w, s, StopSending) && !IsEnabled(w, s, TakeFinished);
  }

  /** A dead executor that could take something has nothing to take. */
  lemma ExecutorMoves(w: Workload, s: State)
    requires Invariant(w, s) && IsDead(w, s) && s.executorAt == Idle
    ensures s.numFinished < w.numCommands && s.work == [] && s.executionUpdates == [] && s.running == map[]
  {
    assert !IsEnabled(w, s, Exit) && !IsEnabled(w, s, StartCommand) && !IsEnabled(w, s, TakeUpdate);
    forall cmd: Command ensures cmd !in s.running {
      assert !IsEnabled(w, s, ReportCompleted(cmd));
    }
  }

  lemma {:induction false} NothingToReport(s: State, n: nat)
    requires s.running == map[]
    ensures AllToReport(s, n) == 0
  {
    if n > 0 {
      NothingToReport(s, n - 1);
    }
  }

  /** With nothing in flight and the generator waiting, the ramp has not reached its end. */
  lemma RamperMoves(w: Workload, s: State)
    requires Invariant(w, s) && CanRun(w) && s.numFinished < w.numCommands
    requires s.executorAt == Idle && s.generatorAt == Selecting && s.commandFinished == 0
    requires s.work == [] && s.executionUpdates == [] && s.running == map[]
    ensures !IsDead(w, s)
  {
    StartedAreFirst(w, s);
    ReportedAdd(w, s);
    NothingToReport(s, |s.started|);
    assert s.allCmds != [] && s.maxConcurrentCommands <= 0;
    match s.ramperAt {
      case Computing => assert IsEnabled(w, s, ComputeLimit);
      case SendingLimit => assert IsEnabled(w, s, DeliverLimit);
      case Sleeping => assert IsEnabled(w, s, WakeUp);
      case RamperDone =>
    }
  }

  /** The only way in which a workload that can run ends too early. */
  lemma DeadIsWedged(w: Workload, s: State)
    requires Invariant(w, s) && CanRun(w) && IsDead(w, s)
    ensures IsWedged(w, s)
  {
    GeneratorMoves(w, s);
    if s.executorAt == Idle {
      ExecutorMoves(w, s);
      if s.generatorAt == Selecting {
        RamperMoves(w, s);
      }
    } else {
      assert !IsEnabled(w, s, Acknowledge);
    }
  }

  /** To wedge the generator takes three commands among those started that fail to start. */
  lemma WedgedHasFailures(w: Workload, s: State)
    requires Invariant(w, s) && IsWedged(w, s)
    ensures FailedAmong(w, |s.started|) >= 3
    ensures |s.started| + w.concurrentCommands + 1 <= w.numCommands && |s.started| + 3 <= w.numCommands
  {
    StartedAreFirst(w, s);
    ReportedAdd(w, s);
  }

  /** Until the executor has left its loop, some step is enabled, if fewer than three of the commands
      started so far have failed to start. */
  lemma NoDeadlock(w: Workload, s: State)
    requires Invariant(w, s) && CanRun(w) && s.executorAt != Exited && FailedAmong(w, |s.started|) < 3
    ensures exists step :: IsEnabled(w, s, step)
  {
    if IsDead(w, s) {
      DeadIsWedged(w, s);
      WedgedHasFailures(w, s);
    }
  }

  // ----- workloads that cannot run -----

  /** Nothing has been handed out and nothing ever will be. */
  predicate IsStuck(w: Workload, s: State) {
    && s.limit <= 0 && s.maxConcurrentCommands <= 0 && s.numInFlightCommands == 0
    && (w.concurrentCommands == 0 || w.rampUpAmount <= 0)
    && s.newWork == [] && s.work == [] && s.executionUpdates == [] && s.running == map[]
    && s.commandFinished == 0 && s.numFinished == 0 && s.executorAt == Idle
  }

  lemma {:induction false} StuckStaysStuck(w: Workload, s: State, steps: seq<Step>)
    requires IsRun(w, s, steps) && IsStuck(w, s) && w.numCommands > 0
    ensures IsStuck(w, After(w, s, steps))
    decreases steps
  {
    if steps != [] {
      assert IsStuck(w, Take(w, s, steps[0]));
      StuckStaysStuck(w, Take(w, s, steps[0]), steps[1..]);
    }
  }

  lemma ReachableIsStuck(w: Workload, s: State)
    requires !CanRun(w) && IsReachable(w, s)
    ensures IsStuck(w, s)
  {
    var steps :| IsRun(w, Start(w), steps) && After(w, Start(w), steps) == s;
    StuckStaysStuck(w, Start(w), steps);
  }

  // ----- the ramp -----

  function HowMany(steps: seq<Step>, step: Step): nat {
    if steps == [] then 0 else (if steps[0] == step then 1 else 0) + HowMany(steps[1..], step)
  }

  /** The ramper's limit and the one in force are those of the ramp after as many steps as have been
      computed and delivered; and the ramp goes on only below its target. */
  predicate FollowsRamp(w: Workload, s: State, computed: nat, delivered: nat) {
    && s.limit == Capped(computed, w.rampUpAmount, w.concurrentCommands)
    && s.maxConcurrentCommands == Capped(delivered, w.rampUpAmount, w.concurrentCommands)
    && computed == delivered + (if s.ramperAt == SendingLimit then 1 else 0)
    && (if s.ramperAt == RamperDone then IsWholeRamp(w, delivered)
        else delivered == 0 || delivered * w.rampUpAmount < w.concurrentCommands)
  }

  /** The least number of steps that reaches the target: what RampUp computes. */
  predicate IsWholeRamp(w: Workload, n: nat) {
    && n >= 1
    && n * w.rampUpAmount >= w.concurrentCommands
    && (n == 1 || (n - 1) * w.rampUpAmount < w.concurrentCommands)
  }

  lemma StepFollowsRamp(w: Workload, s: State, step: Step, computed: nat, delivered: nat)
    requires FollowsRamp(w, s, computed, delivered) && IsEnabled(w, s, step)
    ensures FollowsRamp(w, Take(w, s, step),
      computed + (if step == ComputeLimit then 1 else 0), delivered + (if step == DeliverLimit then 1 else 0))
  {
    Distribute(computed, w.rampUpAmount);
  }

  lemma {:induction false} RunFollowsRamp(w: Workload, s: State, steps: seq<Step>, computed: nat, delivered: nat)
    requires FollowsRamp(w, s, computed, delivered) && IsRun(w, s, steps)
    ensures FollowsRamp(w, After(w, s, steps),
      computed + HowMany(steps, ComputeLimit), delivered + HowMany(steps, DeliverLimit))
    decreases steps
  {
    if steps != [] {
      var step := steps[0];
      StepFollowsRamp(w, s, step, computed, delivered);
      RunFollowsRamp(w, Take(w, s, step), steps[1..],
        computed + (if step == ComputeLimit then 1 else 0), delivered + (if step == DeliverLimit then 1 else 0));
    }
  }

  /** In any run the limit in force is that of the ramp after the limits delivered so far, and the
      ramper ends when the target has been delivered, after the least number of limits. */
  lemma RampIsFollowed(w: Workload, steps: seq<Step>)
    requires IsRun(w, Start(w), steps)
    ensures var s := After(w, Start(w), steps); var delivered := HowMany(steps, DeliverLimit);
      && s.maxConcurrentCommands == Capped(delivered, w.rampUpAmount, w.concurrentCommands)
      && (s.ramperAt == RamperDone ==> IsWholeRamp(w, delivered) && s.maxConcurrentCommands == w.concurrentCommands)
  {
    RunFollowsRamp(w, Start(w), steps, 0, 0);
  }
}
