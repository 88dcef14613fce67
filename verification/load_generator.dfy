/** The load generator of tools/rbeperf/rbeperf.go: a ramper that raises the concurrency limit, a
    generator that hands out commands, an executor that starts them and collects their results, and
    one goroutine for every command under way. Their interleavings are the sequences of steps below;
    a step is enabled when the goroutine is not blocked on a channel. */
module LoadGenerator {
  import opened Bytes

  /** A command's position in the list that was prepared. */
  type Command = nat

  datatype Workload = Workload(
    numCommands: nat,
    concurrentCommands: nat,
    rampUpAmount: int,
    executingUpdates: Command -> nat,  // how many EXECUTING updates each command will send
    startFailures: set<Command>)       // the commands whose Start fails

  datatype Update = Executing(cmd: Command) | Completed(cmd: Command)

  /** A command's goroutine: the updates that it still has to send. */
  datatype Running = Running(executing: nat, completed: nat)

  datatype RamperAt = Computing | SendingLimit | Sleeping | RamperDone
  datatype GeneratorAt = Filling | SendingWork | Selecting
  datatype ExecutorAt = Idle | Acknowledging(cmd: Command) | Exited

  datatype State = State(
    // the ramper
    ramperAt: RamperAt,
    limit: int,
    // the generator
    generatorAt: GeneratorAt,
    allCmds: seq<Command>,
    newWork: seq<Command>,
    maxConcurrentCommands: int,
    numInFlightCommands: int,
    // the channels
    work: seq<Command>,
    commandFinished: nat,
    executionUpdates: seq<Update>,
    // the commands' goroutines
    running: map<Command, Running>,
    // the executor
    executorAt: ExecutorAt,
    started: seq<Command>,
    results: seq<Command>,
    numFinished: nat)

  const UPDATES_CAPACITY := 100
  const FINISHED_CAPACITY := 1

  function Commands(n: nat): (cmds: seq<Command>)
    ensures |cmds| == n
    ensures forall i :: 0 <= i < n ==> cmds[i] == i
  {
    seq(n, i => i)
  }

  function Start(w: Workload): State {
    State(Computing, 0, Filling, Commands(w.numCommands), [], 0, 0, [], 0, [], map[], Idle, [], [], 0)
  }

  datatype Step =
    | ComputeLimit
    | DeliverLimit
    | WakeUp
    | Fill
    | SendWork
    | StopSending
    | TakeFinished
    | StartCommand
    | TakeUpdate
    | Acknowledge
    | Exit
    | ReportExecuting(cmd: Command)
    | ReportCompleted(cmd: Command)

  predicate IsEnabled(w: Workload, s: State, step: Step) {
    match step
    case ComputeLimit => s.ramperAt == Computing
    case DeliverLimit => s.ramperAt == SendingLimit && s.generatorAt == Selecting
    case WakeUp => s.ramperAt == Sleeping
    case Fill => s.generatorAt == Filling
    case SendWork => s.generatorAt == SendingWork && s.newWork != [] && |s.work| < w.concurrentCommands
    case StopSending => s.generatorAt == SendingWork && s.newWork == []
    case TakeFinished => s.generatorAt == Selecting && s.commandFinished > 0
    case StartCommand => s.executorAt == Idle && s.numFinished != w.numCommands && s.work != []
    case TakeUpdate => s.executorAt == Idle && s.numFinished != w.numCommands && s.executionUpdates != []
    case Acknowledge => s.executorAt.Acknowledging? && s.commandFinished < FINISHED_CAPACITY
    case Exit => s.executorAt == Idle && s.numFinished == w.numCommands
    case ReportExecuting(cmd) =>
      cmd in s.running && s.running[cmd].executing > 0 && |s.executionUpdates| < UPDATES_CAPACITY
    case ReportCompleted(cmd) =>
      cmd in s.running && s.running[cmd].completed > 0 && |s.executionUpdates| < UPDATES_CAPACITY
  }

  /** How many of the commands the generator may hand out now. */
  function RoomFor(commands: nat, inFlight: int, maxConcurrent: int): (n: nat)
    ensures n <= commands
  {
    var free := maxConcurrent - inFlight;
    if free <= 0 then 0 else if free < commands then free else commands
  }

  function Room(s: State): (n: nat)
    ensures n <= |s.allCmds|
  {
    RoomFor(|s.allCmds|, s.numInFlightCommands, s.maxConcurrentCommands)
  }

  /** The generator's inner loop, which runs under the lock: the step Fill. */
  method TakeNewWork(allCmds: seq<Command>, numInFlight: int, maxConcurrent: int)
    returns (newWork: seq<Command>, rest: seq<Command>, inFlight: int)
    ensures var n := RoomFor(|allCmds|, numInFlight, maxConcurrent);
      newWork == allCmds[..n] && rest == allCmds[n..] && inFlight == numInFlight + n
  {
    newWork, rest, inFlight := [], allCmds, numInFlight;
    ghost var n := 0;
    while inFlight < maxConcurrent && |rest| > 0
      invariant 0 <= n <= |allCmds| && (n == 0 || numInFlight + n <= maxConcurrent)
      invariant newWork == allCmds[..n] && rest == allCmds[n..] && inFlight == numInFlight + n
      decreases |rest|
    {
      inFlight := inFlight + 1;
      var cmd := rest[0];
      rest := rest[1..];
      newWork := newWork + [cmd];
      n := n + 1;
    }
    assert n == RoomFor(|allCmds|, numInFlight, maxConcurrent);
  }

  /** The limits that the ramper sends, one after the other. They rise in equal steps to the target,
      which is the last of them: as many as it takes to get there. The loop of the source does not
      end if the limit cannot rise to the target. */
  method RampUp(rampUpAmount: int, target: nat) returns (limits: seq<int>)
    requires rampUpAmount >= 1 || (rampUpAmount == 0 && target == 0)
    ensures limits != [] && limits[|limits| - 1] == target
    ensures forall i :: 0 <= i < |limits| ==> limits[i] == Capped(i + 1, rampUpAmount, target)
    ensures (|limits| - 1) * rampUpAmount < target || |limits| == 1
    ensures target <= |limits| * rampUpAmount
  {
    limits := [];
    var c := 0;
    while true
      invariant c == |limits| * rampUpAmount && (c < target || c == 0)
      invariant forall i :: 0 <= i < |limits| ==> limits[i] == Capped(i + 1, rampUpAmount, target)
      invariant |limits| > 0 ==> c < target
      decreases target - c
    {
      Distribute(|limits|, rampUpAmount);
      c := c + rampUpAmount;
      if c > target {
        c := target;
      }
      limits := limits + [c];
      if c == target {
        break;
      }
    }
  }

  function Capped(steps: nat, amount: int, target: nat): int {
    if steps * amount > target then target else steps * amount
  }

  lemma Distribute(n: nat, amount: int)
    ensures (n + 1) * amount == n * amount + amount
  {
  }

  /** What a command that has been started will send. After a failed start the goroutine reports
      completion and then goes on to wait for the time limit, which reports it once more. */
  function Begin(w: Workload, cmd: Command): Running {
    if cmd in w.startFailures then Running(0, 2) else Running(w.executingUpdates(cmd), 1)
  }

  // ----- what each step does -----

  function AfterComputeLimit(w: Workload, s: State): State {
    var c := s.limit + w.rampUpAmount;
    s.(ramperAt := SendingLimit, limit := if c > w.concurrentCommands then w.concurrentCommands else c)
  }

  function AfterDeliverLimit(w: Workload, s: State): State {
    s.(ramperAt := if s.limit == w.concurrentCommands then RamperDone else Sleeping,
       generatorAt := Filling, maxConcurrentCommands := s.limit)
  }

  function AfterFill(s: State): State {
    var n := Room(s);
    s.(generatorAt := SendingWork, newWork := s.allCmds[..n], allCmds := s.allCmds[n..],
       numInFlightCommands := s.numInFlightCommands + n)
  }

  function AfterSendWork(s: State): State
    requires s.newWork != []
  {
    s.(work := s.work + [s.newWork[0]], newWork := s.newWork[1..])
  }

  function AfterTakeFinished(s: State): State
    requires s.commandFinished > 0
  {
    s.(
      generatorAt := Filling,
      commandFinished := s.commandFinished - 1,
      numInFlightCommands := s.numInFlightCommands - 1)
  }

  function AfterStartCommand(w: Workload, s: State): State
    requires s.work != []
  {
    s.(work := s.work[1..], started := s.started + [s.work[0]], running := s.running[s.work[0] := Begin(w, s.work[0])])
  }

  function AfterTakeUpdate(s: State): State
    requires s.executionUpdates != []
  {
    var u := s.executionUpdates[0];
    s.(executionUpdates := s.executionUpdates[1..], executorAt := if u.Completed? then Acknowledging(u.cmd) else Idle)
  }

  function AfterAcknowledge(s: State): State
    requires s.executorAt.Acknowledging?
  {
    s.(commandFinished := s.commandFinished + 1, executorAt := Idle, results := s.results + [s.executorAt.cmd],
       numFinished := s.numFinished + 1)
  }

  function AfterReportExecuting(s: State, cmd: Command): State
    requires cmd in s.running && s.running[cmd].executing > 0
  {
    var r := s.running[cmd];
    s.(
      executionUpdates := s.executionUpdates + [Executing(cmd)],
      running := s.running[cmd := r.(executing := r.executing - 1)])
  }

  function AfterReportCompleted(s: State, cmd: Command): State
    requires cmd in s.running && s.running[cmd].completed > 0
  {
    var r := s.running[cmd];
    s.(executionUpdates := s.executionUpdates + [Completed(cmd)],
       running := if r.completed == 1 then s.running - {cmd} else s.running[cmd := r.(completed := r.completed - 1)])
  }

  function Take(w: Workload, s: State, step: Step): State
    requires IsEnabled(w, s, step)
  {
    match step
    case ComputeLimit => AfterComputeLimit(w, s)
    case DeliverLimit => AfterDeliverLimit(w, s)
    case WakeUp => s.(ramperAt := Computing)
    case Fill => AfterFill(s)
    case SendWork => AfterSendWork(s)
    case StopSending => s.(generatorAt := Selecting)
    case TakeFinished => AfterTakeFinished(s)
    case StartCommand => AfterStartCommand(w, s)
    case TakeUpdate => AfterTakeUpdate(s)
    case Acknowledge => AfterAcknowledge(s)
    case Exit => s.(executorAt := Exited)
    case ReportExecuting(cmd) => AfterReportExecuting(s, cmd)
    case ReportCompleted(cmd) => AfterReportCompleted(s, cmd)
  }

  // ----- what every step keeps -----

  function CompletionOf(u: Update): seq<Command> {
    if u.Completed? then [u.cmd] else []
  }

  /** The commands whose completion waits in the executor's channel. */
  function CompletedIn(updates: seq<Update>): seq<Command> {
    if updates == [] then [] else CompletionOf(updates[0]) + CompletedIn(updates[1..])
  }

  lemma {:induction false} CompletedInAppend(a: seq<Update>, u: Update)
    ensures CompletedIn(a + [u]) == CompletedIn(a) + CompletionOf(u)
  {
    if a == [] {
      assert CompletedIn([u]) == CompletionOf(u) + CompletedIn([]);
    } else {
      assert (a + [u])[1..] == a[1..] + [u];
      CompletedInAppend(a[1..], u);
      Reassociate(CompletionOf(a[0]), CompletedIn(a[1..]), CompletionOf(u));
    }
  }

  function Acknowledged(s: State): seq<Command> {
    if s.executorAt.Acknowledging? then [s.executorAt.cmd] else []
  }

  /** Every completion that has been reported, in the order in which the executor takes them. */
  function Reported(s: State): seq<Command> {
    s.results + Acknowledged(s) + CompletedIn(s.executionUpdates)
  }

  /** The completions that a command has yet to report. */
  function ToReport(running: map<Command, Running>, cmd: Command): nat {
    if cmd in running then running[cmd].completed else 0
  }

  /** The commands that have been started, those on their way to the executor and those not handed
      out yet are, in this order, the commands that were prepared. */
  predicate IsInOrder(w: Workload, s: State) {
    s.started + s.work + s.newWork + s.allCmds == Commands(w.numCommands)
  }

  /** How often a command that has been started reports completion, all in all. */
  function Completions(w: Workload, cmd: Command): nat {
    if cmd in w.startFailures then 2 else 1
  }

  /** Each completion of the first n commands is still to be reported or has been, and no others. */
  predicate AddUp(w: Workload, n: nat, running: map<Command, Running>, reported: seq<Command>) {
    && (forall cmd :: cmd in running ==> cmd < n && running[cmd].completed >= 1)
    && (forall cmd :: cmd in reported ==> cmd < n)
    && (forall cmd: Command :: cmd < n ==> AddsUp(w, cmd, running, reported))
  }

  predicate AddsUp(w: Workload, cmd: Command, running: map<Command, Running>, reported: seq<Command>) {
    multiset(reported)[cmd] + ToReport(running, cmd) == Completions(w, cmd)
  }

  predicate IsAccountedFor(w: Workload, s: State) {
    AddUp(w, |s.started|, s.running, Reported(s))
  }

  /** What is in flight has been handed out and not yet been reported back to the generator. */
  predicate IsCounted(s: State) {
    && s.numFinished == |s.results|
    && s.commandFinished <= FINISHED_CAPACITY
    && |s.executionUpdates| <= UPDATES_CAPACITY
    && s.numInFlightCommands + |s.results| - s.commandFinished == |s.started| + |s.work| + |s.newWork|
  }

  /** The executor leaves its loop as soon as it has as many results as there are commands; the channel
      for work holds as many as may run at a time. */
  predicate IsWithinBounds(w: Workload, s: State) {
    && s.numFinished <= w.numCommands
    && |s.work| <= w.concurrentCommands
    && (s.executorAt.Acknowledging? ==> s.numFinished < w.numCommands)
    && (s.executorAt == Exited ==> s.numFinished == w.numCommands)
  }

  /** The ramp rises towards the workload's concurrency and the generator's limit follows it. */
  predicate IsRamping(w: Workload, s: State) {
    && s.maxConcurrentCommands <= s.limit <= w.concurrentCommands
    && (s.ramperAt == RamperDone ==> s.maxConcurrentCommands == w.concurrentCommands)
    && (s.ramperAt == Sleeping ==> s.limit < w.concurrentCommands)
  }

  /** The generator never exceeds its limit, and waits only when it has handed out all it may. */
  predicate IsLimited(s: State) {
    && s.numInFlightCommands <= s.maxConcurrentCommands
    && (s.generatorAt != SendingWork ==> s.newWork == [])
    && (s.generatorAt != Filling ==> s.allCmds == [] || s.numInFlightCommands == s.maxConcurrentCommands)
  }

  predicate Invariant(w: Workload, s: State) {
    IsInOrder(w, s) && IsAccountedFor(w, s) && IsCounted(s) && IsWithinBounds(w, s) && IsRamping(w, s) && IsLimited(s)
  }

  /** Commands are started in order, from the first. */
  lemma StartedAreFirst(w: Workload, s: State)
    requires IsInOrder(w, s)
    ensures |s.started| + |s.work| + |s.newWork| + |s.allCmds| == w.numCommands
    ensures s.started == Commands(w.numCommands)[..|s.started|]
    ensures s.work != [] ==> s.work[0] == |s.started|
  {
    var cmds := Commands(w.numCommands);
    assert forall i :: 0 <= i < |s.started| ==> s.started[i] == cmds[i];
    if s.work != [] {
      assert s.work[0] == cmds[|s.started|];
    }
  }

  // ----- the commands stay in order -----

  lemma StartKeepsOrder(w: Workload, s: State)
    requires IsInOrder(w, s) && s.work != []
    ensures IsInOrder(w, AfterStartCommand(w, s))
  {
    assert s.started + s.work == (s.started + [s.work[0]]) + s.work[1..];
  }

  lemma FillKeepsOrder(w: Workload, s: State)
    requires IsInOrder(w, s) && s.newWork == []
    ensures IsInOrder(w, AfterFill(s))
  {
    var n := Room(s);
    assert s.started + s.work + s.allCmds[..n] + s.allCmds[n..] == s.started + s.work + [] + s.allCmds;
  }

  lemma SendKeepsOrder(w: Workload, s: State)
    requires IsInOrder(w, s) && s.newWork != []
    ensures IsInOrder(w, AfterSendWork(s))
  {
    assert s.started + (s.work + [s.newWork[0]]) + s.newWork[1..] == s.started + s.work + s.newWork;
  }

  lemma StepKeepsOrder(w: Workload, s: State, step: Step)
    requires IsInOrder(w, s) && IsLimited(s) && IsEnabled(w, s, step)
    ensures IsInOrder(w, Take(w, s, step))
  {
    match step {
      case Fill => FillKeepsOrder(w, s);
      case SendWork => SendKeepsOrder(w, s);
      case StartCommand => StartKeepsOrder(w, s);
      case _ =>
    }
  }

  // ----- no completion gets lost -----

  lemma StartAddsUp(w: Workload, n: nat, running: map<Command, Running>, reported: seq<Command>)
    requires AddUp(w, n, running, reported)
    ensures AddUp(w, n + 1, running[n := Begin(w, n)], reported)
  {
    var longer := running[n := Begin(w, n)];
    assert n !in reported && multiset(reported)[n] == 0;
    forall c: Command | c < n ensures AddsUp(w, c, longer, reported) {
      assert AddsUp(w, c, running, reported);
    }
  }

  lemma StartIsAccountedFor(w: Workload, s: State)
    requires IsInOrder(w, s) && IsAccountedFor(w, s) && s.work != []
    ensures IsAccountedFor(w, AfterStartCommand(w, s))
  {
    StartedAreFirst(w, s);
    StartAddsUp(w, |s.started|, s.running, Reported(s));
  }

  /** An update that the executor takes, or acknowledges, keeps its place among those reported. */
  lemma TakingKeepsReported(s: State)
    ensures s.executorAt == Idle && s.executionUpdates != [] ==> Reported(AfterTakeUpdate(s)) == Reported(s)
    ensures s.executorAt.Acknowledging? ==> Reported(AfterAcknowledge(s)) == Reported(s)
  {
  }

  lemma ExecutingAddsUp(
      w: Workload, n: nat, running: map<Command, Running>, reported: seq<Command>, cmd: Command, r: Running)
    requires AddUp(w, n, running, reported) && cmd in running && r.completed == running[cmd].completed
    ensures AddUp(w, n, running[cmd := r], reported)
  {
    var after := running[cmd := r];
    forall c: Command | c < n ensures AddsUp(w, c, after, reported) {
      assert AddsUp(w, c, running, reported);
    }
  }

  lemma ExecutingIsReported(s: State, cmd: Command)
    requires cmd in s.running && s.running[cmd].executing > 0
    ensures Reported(AfterReportExecuting(s, cmd)) == Reported(s)
  {
    CompletedInAppend(s.executionUpdates, Executing(cmd));
  }

  lemma CompletedIsReported(s: State, cmd: Command)
    requires cmd in s.running && s.running[cmd].completed > 0
    ensures Reported(AfterReportCompleted(s, cmd)) == Reported(s) + [cmd]
  {
    CompletedInAppend(s.executionUpdates, Completed(cmd));
    Reassociate(s.results + Acknowledged(s), CompletedIn(s.executionUpdates), [cmd]);
  }

  lemma CompletedAddsUp(
      w: Workload, n: nat, running: map<Command, Running>, reported: seq<Command>,
      cmd: Command, after: map<Command, Running>)
    requires AddUp(w, n, running, reported) && cmd in running
    requires forall c: Command :: c != cmd ==> ToReport(after, c) == ToReport(running, c)
    requires ToReport(after, cmd) == ToReport(running, cmd) - 1
    requires after.Keys <= running.Keys
    requires forall c :: c in after ==> after[c].completed >= 1
    ensures AddUp(w, n, after, reported + [cmd])
  {
    forall c: Command | c < n ensures AddsUp(w, c, after, reported + [cmd]) {
      assert AddsUp(w, c, running, reported);
    }
  }

  lemma CompletedIsAccountedFor(w: Workload, s: State, cmd: Command)
    requires IsAccountedFor(w, s) && cmd in s.running
    ensures IsAccountedFor(w, AfterReportCompleted(s, cmd))
  {
    CompletedIsReported(s, cmd);
    CompletedAddsUp(w, |s.started|, s.running, Reported(s), cmd, AfterReportCompleted(s, cmd).running);
  }

  lemma StepIsAccountedFor(w: Workload, s: State, step: Step)
    requires IsInOrder(w, s) && IsAccountedFor(w, s) && IsEnabled(w, s, step)
    ensures IsAccountedFor(w, Take(w, s, step))
  {
    if step.StartCommand? {
      StartIsAccountedFor(w, s);
    } else if step.ReportExecuting? {
      ExecutingIsReported(s, step.cmd);
      var r := AfterReportExecuting(s, step.cmd).running[step.cmd];
      ExecutingAddsUp(w, |s.started|, s.running, Reported(s), step.cmd, r);
    } else if step.ReportCompleted? {
      CompletedIsAccountedFor(w, s, step.cmd);
    } else {
      TakingKeepsReported(s);
    }
  }

  // ----- the counters agree, and the limit holds -----

  lemma StepKeepsCounted(w: Workload, s: State, step: Step)
    requires IsCounted(s) && IsLimited(s) && IsEnabled(w, s, step)
    ensures IsCounted(Take(w, s, step))
  {
    match step {
      case Fill =>
        assert |AfterFill(s).newWork| == Room(s);
      case SendWork =>
        assert |AfterSendWork(s).work| + |AfterSendWork(s).newWork| == |s.work| + |s.newWork|;
      case StartCommand =>
        assert |AfterStartCommand(w, s).started| + |AfterStartCommand(w, s).work| == |s.started| + |s.work|;
      case _ =>
    }
  }

  lemma StepKeepsBounds(w: Workload, s: State, step: Step)
    requires IsWithinBounds(w, s) && IsEnabled(w, s, step)
    ensures IsWithinBounds(w, Take(w, s, step))
  {
  }

  lemma StepKeepsRamping(w: Workload, s: State, step: Step)
    requires w.rampUpAmount >= 1 && IsRamping(w, s) && IsEnabled(w, s, step)
    ensures IsRamping(w, Take(w, s, step))
    ensures s.maxConcurrentCommands <= Take(w, s, step).maxConcurrentCommands
  {
  }

  lemma StepKeepsLimited(w: Workload, s: State, step: Step)
    requires IsRamping(w, s) && IsLimited(s) && IsEnabled(w, s, step)
    ensures IsLimited(Take(w, s, step))
  {
  }

  /** Once there are as many results as commands, nothing is started any more and no update taken: the
      executor can only leave. */
  lemma NothingStartsAfterwards(w: Workload, s: State, step: Step)
    requires IsWithinBounds(w, s) && s.numFinished == w.numCommands && IsEnabled(w, s, step)
    ensures var t := Take(w, s, step);
      && t.started == s.started && t.results == s.results
      && (t.executorAt != s.executorAt ==> s.executorAt == Idle && t.executorAt == Exited)
  {
  }

  /** Every step keeps the invariant, whichever commands fail to start, and the limit in force never
      falls. */
  lemma StepKeepsInvariant(w: Workload, s: State, step: Step)
    requires w.rampUpAmount >= 1 && Invariant(w, s) && IsEnabled(w, s, step)
    ensures Invariant(w, Take(w, s, step))
    ensures s.maxConcurrentCommands <= Take(w, s, step).maxConcurrentCommands
  {
    StepKeepsOrder(w, s, step);
    StepIsAccountedFor(w, s, step);
    StepKeepsCounted(w, s, step);
    StepKeepsBounds(w, s, step);
    StepKeepsRamping(w, s, step);
    StepKeepsLimited(w, s, step);
  }

  lemma StartIsInvariant(w: Workload)
    ensures Invariant(w, Start(w))
  {
    assert [] + [] + [] + Commands(w.numCommands) == Commands(w.numCommands);
  }

  // ----- how many completions there are -----

  /** How many of the first n commands fail to start. */
  function FailedAmong(w: Workload, n: int): nat {
    if n <= 0 then 0 else FailedAmong(w, n - 1) + if n - 1 in w.startFailures then 1 else 0
  }

  /** How often the first n commands occur. */
  function Occurrences(q: seq<Command>, n: nat): nat {
    if n == 0 then 0 else Occurrences(q, n - 1) + multiset(q)[n - 1]
  }

  function AllToReport(s: State, n: nat): nat {
    if n == 0 then 0 else AllToReport(s, n - 1) + ToReport(s.running, n - 1)
  }

  lemma {:induction false} OneMoreOccurs(q: seq<Command>, x: Command, n: nat)
    ensures Occurrences(q + [x], n) == Occurrences(q, n) + if x < n then 1 else 0
  {
    if n > 0 {
      OneMoreOccurs(q, x, n - 1);
    }
  }

  lemma {:induction false} NothingOccurs(q: seq<Command>, n: nat)
    requires q == []
    ensures Occurrences(q, n) == 0
  {
    if n > 0 {
      NothingOccurs(q, n - 1);
    }
  }

  lemma {:induction false} OccurrencesAdd(q: seq<Command>, n: nat)
    requires forall x: Command :: x in q ==> x < n
    ensures Occurrences(q, n) == |q|
  {
    if q == [] {
      NothingOccurs(q, n);
    } else {
      var init, last := q[..|q| - 1], q[|q| - 1];
      assert q == init + [last] && last in q;
      assert forall x: Command :: x in init ==> x in q;
      OccurrencesAdd(init, n);
      OneMoreOccurs(init, last, n);
    }
  }

  lemma {:induction false} CompletionsAdd(w: Workload, s: State, n: nat)
    requires IsAccountedFor(w, s) && n <= |s.started|
    ensures Occurrences(Reported(s), n) + AllToReport(s, n) == n + FailedAmong(w, n)
  {
    if n > 0 {
      CompletionsAdd(w, s, n - 1);
      assert AddsUp(w, n - 1, s.running, Reported(s));
    }
  }

  /** Started commands report completion once each, and once more if they failed to start. */
  lemma ReportedAdd(w: Workload, s: State)
    requires IsAccountedFor(w, s)
    ensures |Reported(s)| + AllToReport(s, |s.started|) == |s.started| + FailedAmong(w, |s.started|)
    ensures |Reported(s)| == |s.results| + |Acknowledged(s)| + |CompletedIn(s.executionUpdates)|
  {
    OccurrencesAdd(Reported(s), |s.started|);
    CompletionsAdd(w, s, |s.started|);
  }

  lemma {:induction false} FailedAmongGrows(w: Workload, m: int, n: int)
    requires m <= n
    ensures FailedAmong(w, m) <= FailedAmong(w, n)
    ensures n >= 0 && m >= 0 ==> FailedAmong(w, n) <= FailedAmong(w, m) + (n - m)
    decreases n - m
  {
    if m < n {
      FailedAmongGrows(w, m, n - 1);
    }
  }

  // ----- the channel for work -----

  /** What is in the channel and what is still to be sent would fit into it, were it not for the
      second reports of commands that failed to start: each of them lets the generator hand out one
      command more. */
  lemma WorkFits(w: Workload, s: State)
    requires Invariant(w, s)
    ensures |s.work| + |s.newWork| <= w.concurrentCommands + FailedAmong(w, |s.started|)
    ensures |s.work| + |s.newWork| + |s.started| <= w.concurrentCommands + |s.results| - s.commandFinished
    ensures FailedAmong(w, |s.started|) == 0 && s.newWork != [] ==> |s.work| < w.concurrentCommands
  {
    ReportedAdd(w, s);
  }
}
