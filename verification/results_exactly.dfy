/** Exactly when a load test ends with one result for each command. */
module ResultsExactly {
  import opened LoadGenerator
  import opened LoadRuns
  import opened StartFailures
  import opened StartFailuresExactly

  predicate HasEachOnce(w: Workload, s: State) {
    multiset(s.results) == multiset(Commands(w.numCommands))
  }

  /** However the goroutines are scheduled, the results at the end hold each command once. */
  ghost predicate AlwaysHasEachOnce(w: Workload) {
    forall s :: IsReachable(w, s) && s.executorAt == Exited ==> HasEachOnce(w, s)
  }

  /** A command other than the last fails to start; or the last one does, and another can be under way
      with it. */
  predicate MayRepeat(w: Workload) {
    CanRun(w)
    && (FailedAmong(w, w.numCommands - 1) >= 1
        || (w.numCommands >= 2 && w.concurrentCommands >= 2 && w.numCommands - 1 in w.startFailures))
  }

  // ----- counting results -----

  lemma {:induction false} FewOccur(q: seq<Command>, n: nat)
    requires forall x: Command :: x < n ==> multiset(q)[x] <= 1
    ensures Occurrences(q, n) <= n
    ensures forall x: Command :: x < n && x !in q ==> Occurrences(q, n) < n
  {
    if n > 0 {
      FewOccur(q, n - 1);
    }
  }

  /** Enough results without repetition are one of each. */
  lemma AllOccur(q: seq<Command>, n: nat)
    requires |q| >= n && (forall x: Command :: x in q ==> x < n) && forall x: Command :: x < n ==> multiset(q)[x] <= 1
    ensures |q| == n && forall x: Command :: x < n ==> x in q
  {
    OccurrencesAdd(q, n);
    FewOccur(q, n);
  }

  lemma {:induction false} CommandsOccurOnce(n: nat, x: Command)
    ensures multiset(Commands(n))[x] == if x < n then 1 else 0
  {
    if n > 0 {
      assert Commands(n) == Commands(n - 1) + [n - 1];
      CommandsOccurOnce(n - 1, x);
    }
  }

  lemma EachOccursOnce(q: seq<Command>, n: nat)
    requires |q| >= n && (forall x: Command :: x in q ==> x < n) && forall x: Command :: x < n ==> multiset(q)[x] <= 1
    ensures multiset(q) == multiset(Commands(n))
  {
    AllOccur(q, n);
    forall x: Command ensures multiset(q)[x] == multiset(Commands(n))[x] {
      CommandsOccurOnce(n, x);
      assert x in q <==> x < n;
    }
  }

  lemma ReportedAtMost(w: Workload, n: nat, running: map<Command, Running>, reported: seq<Command>, x: Command)
    requires AddUp(w, n, running, reported)
    ensures multiset(reported)[x] <= Completions(w, x)
  {
    if x < n {
      assert AddsUp(w, x, running, reported);
    } else {
      assert x !in reported;
    }
  }

  lemma PartOccurs(a: seq<Command>, b: seq<Command>, x: Command)
    ensures multiset(a)[x] <= multiset(a + b)[x] && (x in a ==> x in a + b)
  {
  }

  /** No command has more results than it reports completions. */
  lemma ResultsAreReported(w: Workload, s: State)
    requires IsAccountedFor(w, s)
    ensures forall x: Command :: x in s.results ==> x < |s.started|
    ensures forall x: Command :: multiset(s.results)[x] <= Completions(w, x)
  {
    var rest: seq<Command> := Acknowledged(s) + CompletedIn(s.executionUpdates);
    assert Reported(s) == s.results + rest;
    forall x: Command ensures (x in s.results ==> x < |s.started|) && multiset(s.results)[x] <= Completions(w, x) {
      PartOccurs(s.results, rest, x);
      ReportedAtMost(w, |s.started|, s.running, Reported(s), x);
    }
  }

  lemma {:induction false} NoneFails(w: Workload, n: int, x: Command)
    requires FailedAmong(w, n) == 0 && x < n
    ensures x !in w.startFailures
  {
    if x < n - 1 {
      NoneFails(w, n - 1, x);
    }
  }

  // ----- one at a time -----

  function Issued(w: Workload, s: State): int {
    w.numCommands - |s.allCmds|
  }

  /** Whenever a command is handed out, those before it have their results. */
  predicate IsOneAtATime(w: Workload, s: State) {
    forall x: Command :: x + 1 < Issued(w, s) ==> x in s.results
  }

  lemma FillIsOneAtATime(w: Workload, s: State)
    requires w.concurrentCommands <= 1 && FailedAmong(w, w.numCommands - 1) == 0
    requires Invariant(w, s) && IsOneAtATime(w, s) && s.generatorAt == Filling
    ensures IsOneAtATime(w, AfterFill(s))
  {
    if Room(s) > 0 {
      StartedAreFirst(w, s);
      ResultsAreReported(w, s);
      var n := |s.started|;
      forall x: Command | x < n ensures multiset(s.results)[x] <= 1 {
        NoneFails(w, w.numCommands - 1, x);
      }
      assert |s.results| >= n;
      AllOccur(s.results, n);
    }
  }

  lemma StepIsOneAtATime(w: Workload, s: State, step: Step)
    requires IsOneAtATime(w, s) && IsEnabled(w, s, step) && !step.Fill?
    ensures IsOneAtATime(w, Take(w, s, step))
  {
    var t := Take(w, s, step);
    assert t.allCmds == s.allCmds && s.results <= t.results;
    assert forall x :: x in s.results ==> x in t.results;
  }

  lemma {:induction false} RunIsOneAtATime(w: Workload, s: State, steps: seq<Step>)
    requires w.concurrentCommands <= 1 && FailedAmong(w, w.numCommands - 1) == 0 && w.rampUpAmount >= 1
    requires Invariant(w, s) && IsOneAtATime(w, s) && IsRun(w, s, steps)
    ensures IsOneAtATime(w, After(w, s, steps))
    decreases steps
  {
    if steps != [] {
      StepKeepsInvariant(w, s, steps[0]);
      if steps[0].Fill? {
        FillIsOneAtATime(w, s);
      } else {
        StepIsOneAtATime(w, s, steps[0]);
      }
      RunIsOneAtATime(w, Take(w, s, steps[0]), steps[1..]);
    }
  }

  lemma ReachableIsOneAtATime(w: Workload, s: State)
    requires w.concurrentCommands <= 1 && FailedAmong(w, w.numCommands - 1) == 0
    requires w.rampUpAmount >= 1 && IsReachable(w, s)
    ensures IsOneAtATime(w, s)
  {
    var steps :| IsRun(w, Start(w), steps) && After(w, Start(w), steps) == s;
    StartIsInvariant(w);
    RunIsOneAtATime(w, Start(w), steps);
  }

  /** Then the last command has one result, even if it has failed to start. */
  lemma LastOccursOnce(w: Workload, s: State)
    requires w.concurrentCommands == 1 && w.rampUpAmount >= 1 && w.numCommands >= 1
    requires FailedAmong(w, w.numCommands - 1) == 0 && IsReachable(w, s) && s.numFinished == w.numCommands
    ensures multiset(s.results)[w.numCommands - 1] <= 1
  {
    ReachableIsInvariant(w, s);
    ReachableIsOneAtATime(w, s);
    var q: seq<Command>, n := s.results, w.numCommands;
    ResultsAreReported(w, s);
    StartedAreFirst(w, s);
    if n - 1 in q {
      OccurrencesAdd(q, n);
      OthersOccur(q, n - 1);
    }
  }

  lemma {:induction false} OthersOccur(q: seq<Command>, n: nat)
    requires forall x: Command :: x < n ==> x in q
    ensures Occurrences(q, n) >= n
  {
    if n > 0 {
      assert n - 1 in q;
      OthersOccur(q, n - 1);
    }
  }

  // ----- results without repetition -----

  lemma ResultsAreComplete(w: Workload, s: State)
    requires IsReachable(w, s) && s.executorAt == Exited && !MayRepeat(w)
    ensures HasEachOnce(w, s)
  {
    if w.numCommands == 0 {
      WithoutCommands(w, s);
    } else if !CanRun(w) {
      ReachableIsStuck(w, s);
    } else {
      ReachableIsInvariant(w, s);
      StartedAreFirst(w, s);
      ResultsAreReported(w, s);
      var n := w.numCommands;
      forall x: Command | x < n - 1 ensures multiset(s.results)[x] <= 1 {
        NoneFails(w, n - 1, x);
      }
      if n >= 2 && n - 1 in w.startFailures {
        LastOccursOnce(w, s);
      } else if n == 1 {
        OccurrencesAdd(s.results, 1);
        assert Occurrences(s.results, 1) == Occurrences(s.results, 0) + multiset(s.results)[0];
      }
      assert multiset(s.results)[n - 1] <= 1;
      EachOccursOnce(s.results, n);
    }
  }

  // ----- results with repetition -----

  /** A command that is not the last reports for the second time before the last one reports at all. */
  lemma EarlierRepeats(w: Workload, cmd: Command) returns (s: State)
    requires CanRun(w) && cmd < w.numCommands - 1 && cmd in w.startFailures
    ensures IsReachable(w, s) && s.executorAt == Exited
    ensures s.results == Commands(w.numCommands)[..w.numCommands - 1] + [cmd]
    ensures s.started == Commands(w.numCommands)[..w.numCommands - 1]
  {
    var p := Processed(w, w.numCommands - 1);
    AreProcessed(w, w.numCommands - 1);
    GetsResult(w, p, cmd);
    LeadsOn(w, Start(w), WithResult(p, cmd), Exit);
    s := Take(w, WithResult(p, cmd), Exit);
  }

  /** The last command reports twice before the one before it reports. */
  lemma LastRepeats(w: Workload) returns (s: State)
    requires CanRun(w) && w.numCommands >= 2 && w.concurrentCommands >= 2 && w.numCommands - 1 in w.startFailures
    ensures IsReachable(w, s) && s.executorAt == Exited
    ensures s.results == Commands(w.numCommands)[..w.numCommands - 2] + [w.numCommands - 1] + [w.numCommands - 1]
  {
    var n := w.numCommands;
    var p := Processed(w, n - 2);
    AreProcessed(w, n - 2);
    assert p.work == [n - 2, n - 1] && p.allCmds == [];
    LeadsOn(w, Start(w), p, StartCommand);
    var t := Take(w, p, StartCommand);
    assert t.work == [n - 1];
    LeadsOn(w, Start(w), t, StartCommand);
    var u := Take(w, t, StartCommand);
    s := ReportsTwice(w, u);
  }

  lemma ReportsTwice(w: Workload, u: State) returns (s: State)
    requires w.numCommands >= 2 && IsReachable(w, u) && u.executorAt == Idle && u.generatorAt == Selecting
    requires u.numFinished == w.numCommands - 2 && u.commandFinished == 0 && u.executionUpdates == []
    requires u.allCmds == [] && u.newWork == [] && u.work == []
    requires w.numCommands - 1 in u.running && u.running[w.numCommands - 1] == Running(0, 2)
    ensures IsReachable(w, s) && s.executorAt == Exited
    ensures s.results == u.results + [w.numCommands - 1] + [w.numCommands - 1]
  {
    var last := w.numCommands - 1;
    GetsResult(w, u, last);
    var v := WithResult(u, last);
    LeadsOn(w, Start(w), v, TakeFinished);
    var x := Take(w, v, TakeFinished);
    HandsOut(w, x);
    var y := HandedOut(x);
    GetsResult(w, y, last);
    LeadsOn(w, Start(w), WithResult(y, last), Exit);
    s := Take(w, WithResult(y, last), Exit);
  }

  lemma MissingIsNotOnce(w: Workload, s: State, x: Command)
    requires x < w.numCommands && x !in s.results
    ensures !HasEachOnce(w, s)
  {
    CommandsOccurOnce(w.numCommands, x);
    assert multiset(s.results)[x] == 0;
  }

  /** The results hold each command once, under every schedule, exactly when no command fails to start
      that could report twice before all the others have reported. */
  lemma ResultsAreCompleteExactly(w: Workload)
    ensures AlwaysHasEachOnce(w) <==> !MayRepeat(w)
  {
    if MayRepeat(w) {
      if FailedAmong(w, w.numCommands - 1) >= 1 {
        var cmd := FindFailure(w, w.numCommands - 1);
        var s := EarlierRepeats(w, cmd);
        MissingIsNotOnce(w, s, w.numCommands - 1);
      } else {
        var s := LastRepeats(w);
        MissingIsNotOnce(w, s, w.numCommands - 2);
      }
    } else {
      forall s | IsReachable(w, s) && s.executorAt == Exited ensures HasEachOnce(w, s) {
        ResultsAreComplete(w, s);
      }
    }
  }

  /** All in all, for a workload that has a limit and raises it: a run is no longer than the distance
      from its start; until the executor has left its loop some step can be taken, unless three
      failures can wedge the test; and then there is one result for each command, unless a failure
      can be counted twice. */
  lemma EveryRunFinishes(w: Workload, steps: seq<Step>)
    requires w.concurrentCommands >= 1 && w.rampUpAmount >= 1 && IsRun(w, Start(w), steps)
    ensures |steps| <= Distance(w, Start(w))
    ensures var s := After(w, Start(w), steps);
      if s.executorAt == Exited then MayRepeat(w) || HasEachOnce(w, s)
      else HasThreeFailures(w) || exists step :: IsEnabled(w, s, step)
  {
    var s := After(w, Start(w), steps);
    assert IsReachable(w, s);
    RunsAreBounded(w, steps);
    if s.executorAt == Exited && !MayRepeat(w) {
      ResultsAreComplete(w, s);
    } else if IsDead(w, s) {
      DeadHasThreeFailures(w, s);
    }
  }

  // ----- an example -----

  /** Two commands, one at a time, and the first of them fails to start. */
  const FAILING := Workload(2, 1, 1, (cmd: Command) => 0, {0})

  /** The executor can leave its loop with two results for the first command and without having
      started the other. */
  lemma StartFailureIsCountedTwice() returns (s: State)
    ensures IsReachable(FAILING, s) && s.executorAt == Exited
    ensures s.results == [0, 0] && s.started == [0]
  {
    s := EarlierRepeats(FAILING, 0);
    assert Commands(2)[..1] == [0];
  }
}
