/** What commands that fail to start do to a load test: each of them reports completion twice. This
    module says exactly which workloads can then repeat results, block the generator or deadlock,
    and which can always be brought to their end. */
module StartFailures {
  import opened LoadGenerator
  import opened LoadRuns

  // ----- runs that process one command after the other -----

  /** How many commands are in the work channel when the first n have been processed. */
  function Ahead(w: Workload, n: nat): (m: nat)
    requires n <= w.numCommands
    ensures n + m <= w.numCommands
  {
    if w.concurrentCommands < w.numCommands - n then w.concurrentCommands else w.numCommands - n
  }

  /** The commands that failed to start and still have their second report to make. */
  function ReportedOnce(w: Workload, n: nat): map<Command, Running> {
    map cmd: Command | cmd < n && cmd in w.startFailures :: Running(0, 1)
  }

  /** The ramp is over, the first n commands have one result each, and the next ones are waiting. */
  function Processed(w: Workload, n: nat): State
    requires n <= w.numCommands
  {
    var cmds, m := Commands(w.numCommands), Ahead(w, n);
    State(RamperDone, w.concurrentCommands, Selecting, cmds[n + m..], [], w.concurrentCommands, m, cmds[n..n + m],
      0, [],
      ReportedOnce(w, n), Idle, cmds[..n], cmds[..n], n)
  }

  /** The ramp has reached this limit, and the executor has not done anything yet. */
  function Ramped(w: Workload, limit: nat): State {
    var cmds, m := Commands(w.numCommands), if limit < w.numCommands then limit else w.numCommands;
    State(Computing, limit, Selecting, cmds[m..], [], limit, m, cmds[..m], 0, [], map[], Idle, [], [], 0)
  }

  /** The state after the generator has handed out what it may. */
  function HandedOut(s: State): State {
    var n := Room(s);
    s.(generatorAt := Selecting, allCmds := s.allCmds[n..], work := s.work + s.allCmds[..n],
       numInFlightCommands := s.numInFlightCommands + n)
  }

  lemma {:induction false} SendsAll(w: Workload, s: State)
    requires IsReachable(w, s) && s.generatorAt == SendingWork && |s.work| + |s.newWork| <= w.concurrentCommands
    ensures IsReachable(w, s.(generatorAt := Selecting, work := s.work + s.newWork, newWork := []))
    decreases |s.newWork|
  {
    if s.newWork == [] {
      LeadsOn(w, Start(w), s, StopSending);
      assert s.work + [] == s.work;
    } else {
      var t := Take(w, s, SendWork);
      LeadsOn(w, Start(w), s, SendWork);
      SendsAll(w, t);
      assert t.work + t.newWork == s.work + s.newWork;
    }
  }

  lemma HandsOut(w: Workload, s: State)
    requires IsReachable(w, s) && s.generatorAt == Filling
    requires s.newWork == [] && |s.work| + Room(s) <= w.concurrentCommands
    ensures IsReachable(w, HandedOut(s))
  {
    LeadsOn(w, Start(w), s, Fill);
    SendsAll(w, Take(w, s, Fill));
  }

  lemma StartIsRamped(w: Workload)
    requires w.concurrentCommands >= 1
    ensures IsReachable(w, Ramped(w, 0))
  {
    LeadsToItself(w, Start(w));
    HandsOut(w, Start(w));
    var cmds := Commands(w.numCommands);
    assert cmds[0..] == cmds && cmds[..0] == [] && [] + cmds[..0] == [];
  }

  lemma {:induction false} RampEnds(w: Workload, limit: nat)
    requires w.rampUpAmount >= 1 && limit < w.concurrentCommands && IsReachable(w, Ramped(w, limit))
    ensures IsReachable(w, Processed(w, 0))
    decreases w.concurrentCommands - limit
  {
    var s := Ramped(w, limit);
    var t := Take(w, s, ComputeLimit);
    LeadsOn(w, Start(w), s, ComputeLimit);
    var u := Take(w, t, DeliverLimit);
    LeadsOn(w, Start(w), t, DeliverLimit);
    HandsOut(w, u);
    LimitIsUsed(w, limit, u);
    if u.limit < w.concurrentCommands {
      LeadsOn(w, Start(w), HandedOut(u), WakeUp);
      RampEnds(w, u.limit);
    } else {
      assert HandedOut(u) == Processed(w, 0);
    }
  }

  /** A new limit lets the generator hand out the commands up to it. */
  lemma LimitIsUsed(w: Workload, limit: nat, u: State)
    requires limit < w.concurrentCommands && limit <= u.limit <= w.concurrentCommands
    requires u == Ramped(w, limit).(
      ramperAt := if u.limit == w.concurrentCommands then RamperDone else Sleeping,
      limit := u.limit, generatorAt := Filling, maxConcurrentCommands := u.limit)
    ensures HandedOut(u) == Ramped(w, u.limit).(ramperAt := u.ramperAt)
    ensures u.limit == w.concurrentCommands ==> HandedOut(u) == Processed(w, 0)
  {
    var cmds, m, n := Commands(w.numCommands), |u.work|, Room(u);
    assert cmds[m..][n..] == cmds[m + n..];
    assert cmds[..m] + cmds[m..][..n] == cmds[..m + n];
    assert cmds[0..m + n] == cmds[..m + n] && cmds[..0] == [];
    assert ReportedOnce(w, 0) == map[];
  }

  // ----- one command after the other -----

  function WithoutReport(running: map<Command, Running>, cmd: Command): map<Command, Running>
    requires cmd in running && running[cmd].completed > 0
  {
    if running[cmd].completed == 1 then running - {cmd}
    else running[cmd := running[cmd].(completed := running[cmd].completed - 1)]
  }

  /** A command has reported completion, and the executor has acknowledged that. */
  function WithResult(s: State, cmd: Command): State
    requires cmd in s.running && s.running[cmd].completed > 0
  {
    s.(
      running := WithoutReport(s.running, cmd),
      results := s.results + [cmd],
      numFinished := s.numFinished + 1,
      commandFinished := 1)
  }

  lemma GetsResult(w: Workload, s: State, cmd: Command)
    requires IsReachable(w, s) && s.executorAt == Idle && s.numFinished != w.numCommands
    requires s.executionUpdates == [] && s.commandFinished == 0
    requires cmd in s.running && s.running[cmd].completed > 0
    ensures IsReachable(w, WithResult(s, cmd))
  {
    var t := Take(w, s, ReportCompleted(cmd));
    LeadsOn(w, Start(w), s, ReportCompleted(cmd));
    assert t.executionUpdates == [Completed(cmd)];
    var u := Take(w, t, TakeUpdate);
    LeadsOn(w, Start(w), t, TakeUpdate);
    assert u.executionUpdates == [] && u.executorAt == Acknowledging(cmd);
    LeadsOn(w, Start(w), u, Acknowledge);
    assert Take(w, u, Acknowledge) == WithResult(s, cmd);
  }

  /** Processing the next command: it starts, reports once, and the generator hands out another. */
  lemma ProcessesNext(w: Workload, n: nat)
    requires n < w.numCommands && w.concurrentCommands >= 1 && IsReachable(w, Processed(w, n))
    ensures IsReachable(w, Processed(w, n + 1))
  {
    var s := Processed(w, n);
    var t := Take(w, s, StartCommand);
    assert s.work[0] == n;
    LeadsOn(w, Start(w), s, StartCommand);
    assert t.running == s.running[n := Begin(w, n)];
    GetsResult(w, t, n);
    var u := WithResult(t, n);
    ReportsOnce(w, n);
    var v := Take(w, u, TakeFinished);
    LeadsOn(w, Start(w), u, TakeFinished);
    HandsOut(w, v);
    NextIsHandedOut(w, n, v);
  }

  /** A command that failed to start is left with its second report, any other with none. */
  lemma ReportsOnce(w: Workload, n: nat)
    ensures WithoutReport(ReportedOnce(w, n)[n := Begin(w, n)], n) == ReportedOnce(w, n + 1)
  {
  }

  lemma NextIsHandedOut(w: Workload, n: nat, v: State)
    requires n < w.numCommands && w.concurrentCommands >= 1
    requires var cmds, m := Commands(w.numCommands), Ahead(w, n);
      v == State(RamperDone, w.concurrentCommands, Filling, cmds[n + m..], [], w.concurrentCommands, m - 1,
        cmds[n..n + m][1..], 0, [],
        ReportedOnce(w, n + 1), Idle, cmds[..n] + [n], cmds[..n] + [n], n + 1)
    ensures HandedOut(v) == Processed(w, n + 1)
  {
    var cmds, m, k := Commands(w.numCommands), Ahead(w, n), Room(v);
    assert k == n + 1 + Ahead(w, n + 1) - (n + m);
    assert cmds[n + m..][k..] == cmds[n + m + k..];
    assert cmds[n..n + m][1..] + cmds[n + m..][..k] == cmds[n + 1..n + m + k];
    assert cmds[..n] + [n] == cmds[..n + 1];
  }

  /** The first n commands can be processed like this, whichever of them fail to start. */
  lemma {:induction false} AreProcessed(w: Workload, n: nat)
    requires n <= w.numCommands && w.concurrentCommands >= 1 && w.rampUpAmount >= 1
    ensures IsReachable(w, Processed(w, n))
  {
    if n == 0 {
      StartIsRamped(w);
      RampEnds(w, 0);
    } else {
      AreProcessed(w, n - 1);
      ProcessesNext(w, n - 1);
    }
  }
}
