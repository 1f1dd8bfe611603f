/**
  What one turn of the job scheduler does, from what it observes: which jobs go on running,
  which are noted as finished, which one is terminated, and how many are started.
 */
module JobTurns {
  import opened Common
  import opened JobScheduler

  // ---- polling ----

  /** The jobs whose process still runs, in order. */
  function Alive(jobs: seq<Job>, exits: nat -> Option<int>): seq<Job> {
    if jobs == [] then []
    else (if exits(jobs[0].index).None? then [jobs[0]] else []) + Alive(jobs[1..], exits)
  }

  /** The lines printed for the jobs whose process has exited, in order. */
  function ExitLines(jobs: seq<Job>, exits: nat -> Option<int>): seq<Line> {
    if jobs == [] then []
    else
      (match exits(jobs[0].index)
       case None => []
       case Some(code) => [Finished(jobs[0], code)])
      + ExitLines(jobs[1..], exits)
  }

  /** Failures of a list of lines, in order. */
  function FailuresOf(lines: seq<Line>): seq<Failure> {
    if lines == [] then [] else FailureOf(lines[0]) + FailuresOf(lines[1..])
  }

  function LiveHead(job: Job, exits: nat -> Option<int>): seq<Job> {
    if exits(job.index).None? then [job] else []
  }

  function LineHead(job: Job, exits: nat -> Option<int>): seq<Line> {
    match exits(job.index)
    case None => []
    case Some(code) => [Finished(job, code)]
  }

  /** Polling the first job of the list. */
  lemma ReapStep(st: State, todo: seq<Job>, exits: nat -> Option<int>)
    requires todo != []
    ensures var live, lines := LiveHead(todo[0], exits), LineHead(todo[0], exits);
            Reap(st, todo, exits)
            == Reap(st.(running := st.running + live, log := st.log + lines,
                        failures := st.failures + FailuresOf(lines)),
                    todo[1..], exits)
  {
    assert st.running + [] == st.running && st.log + [] == st.log && st.failures + [] == st.failures;
    if exits(todo[0].index).Some? {
      OneFailure(Finished(todo[0], exits(todo[0].index).value));
    }
  }

  lemma OneFailure(line: Line)
    ensures FailuresOf([line]) == FailureOf(line)
  {
    FailuresStep(line, []);
    assert [line] + [] == [line] && FailureOf(line) + [] == FailureOf(line);
  }

  lemma HeadsAre(todo: seq<Job>, exits: nat -> Option<int>)
    requires todo != []
    ensures Alive(todo, exits) == LiveHead(todo[0], exits) + Alive(todo[1..], exits)
    ensures ExitLines(todo, exits) == LineHead(todo[0], exits) + ExitLines(todo[1..], exits)
    ensures FailuresOf(ExitLines(todo, exits))
         == FailuresOf(LineHead(todo[0], exits)) + FailuresOf(ExitLines(todo[1..], exits))
  {
    hide FailuresOf;
    FailuresOfConcat(LineHead(todo[0], exits), ExitLines(todo[1..], exits));
  }

  lemma {:induction false} FailuresOfConcat(a: seq<Line>, b: seq<Line>)
    ensures FailuresOf(a + b) == FailuresOf(a) + FailuresOf(b)
    decreases |a|
  {
    if a == [] {
      assert a + b == b;
    } else {
      FailuresOfConcat(a[1..], b);
      assert (a + b)[1..] == a[1..] + b;
    }
  }

  lemma {:induction false} ReapMeans(st: State, todo: seq<Job>, exits: nat -> Option<int>)
    ensures var lines := ExitLines(todo, exits);
            Reap(st, todo, exits)
            == st.(running := st.running + Alive(todo, exits), log := st.log + lines,
                   failures := st.failures + FailuresOf(lines))
    decreases |todo|
  {
    hide LiveHead, LineHead;
    if todo == [] {
      NothingReaped(st, exits);
    } else {
      hide Alive, ExitLines, FailuresOf, Reap;
      var live, lines := LiveHead(todo[0], exits), LineHead(todo[0], exits);
      ReapStep(st, todo, exits);
      HeadsAre(todo, exits);
      ReapMeans(st.(running := st.running + live, log := st.log + lines, failures := st.failures + FailuresOf(lines)),
                todo[1..], exits);
      Associates(st.running, live, Alive(todo[1..], exits));
      Associates(st.log, lines, ExitLines(todo[1..], exits));
      Associates(st.failures, FailuresOf(lines), FailuresOf(ExitLines(todo[1..], exits)));
    }
  }

  lemma Associates<T>(a: seq<T>, b: seq<T>, c: seq<T>)
    ensures a + b + c == a + (b + c)
  {
  }

  lemma NothingReaped(st: State, exits: nat -> Option<int>)
    ensures Reap(st, [], exits)
         == st.(running := st.running + Alive([], exits), log := st.log + ExitLines([], exits),
                failures := st.failures + FailuresOf(ExitLines([], exits)))
  {
    assert st.running + [] == st.running && st.log + [] == st.log && st.failures + [] == st.failures;
  }

  lemma FailuresStep(line: Line, rest: seq<Line>)
    ensures FailuresOf([line] + rest) == FailureOf(line) + FailuresOf(rest)
  {
    assert ([line] + rest)[1..] == rest;
  }

  // ---- starting ----

  /** The jobs of a list that start, in order. */
  function Starting(jobs: seq<Job>, starts: nat -> bool): seq<Job> {
    if jobs == [] then []
    else (if starts(jobs[0].index) then [jobs[0]] else []) + Starting(jobs[1..], starts)
  }

  function StartLines(jobs: seq<Job>, starts: nat -> bool): (lines: seq<Line>)
    ensures |lines| == |jobs|
  {
    seq(|jobs|, i requires 0 <= i < |jobs| =>
      if starts(jobs[i].index) then Started(jobs[i]) else FailedToStart(jobs[i]))
  }

  ghost predicate AllStart(jobs: seq<Job>, starts: nat -> bool) {
    forall i :: 0 <= i < |jobs| ==> starts(jobs[i].index)
  }

  /** What the starting loop does when it takes n jobs from the front of the pending list. */
  ghost predicate Takes(args: Arguments, st: State, budget: int, starts: nat -> bool, n: nat, after: State) {
    && n <= |st.pending|
    && var taken, left := st.pending[..n], st.pending[n..];
       var lines := StartLines(taken, starts);
       && after.running == st.running + Starting(taken, starts)
       && after.log == st.log + lines
       && after.failures == st.failures + FailuresOf(lines)
       && after.zeroBudgetSince == st.zeroBudgetSince
       && (forall m :: 0 <= m < n ==> |st.running| + |Starting(st.pending[..m], starts)| < budget)
       && if args.stopOnFailure && !AllStart(taken, starts)
          then after.pending == [] && after.dropped == left + st.dropped
               && n > 0 && AllStart(taken[..n - 1], starts)
          else after.pending == left && after.dropped == st.dropped
               && (left == [] || |after.running| >= budget)
  }

  lemma TakesNothing(args: Arguments, st: State, budget: int, starts: nat -> bool)
    requires st.pending == [] || |st.running| >= budget
    ensures Takes(args, st, budget, starts, 0, st)
  {
    assert st.running + [] == st.running && st.log + [] == st.log && st.failures + [] == st.failures;
  }

  /** The state after the first pending job was taken. */
  function AfterFirst(st: State, ok: bool): State
    requires st.pending != []
  {
    var job := st.pending[0];
    var line := if ok then Started(job) else FailedToStart(job);
    st.(pending := st.pending[1..], running := st.running + (if ok then [job] else []),
        log := st.log + [line], failures := st.failures + FailureOf(line))
  }

  lemma FirstTaken(pending: seq<Job>, starts: nat -> bool, k: nat)
    requires pending != [] && k <= |pending| - 1
    ensures var ok, taken, rest := starts(pending[0].index), pending[..k + 1], pending[1..][..k];
            var line := if ok then Started(pending[0]) else FailedToStart(pending[0]);
            && Starting(taken, starts) == (if ok then [pending[0]] else []) + Starting(rest, starts)
            && StartLines(taken, starts) == [line] + StartLines(rest, starts)
            && FailuresOf(StartLines(taken, starts)) == FailureOf(line) + FailuresOf(StartLines(rest, starts))
            && (AllStart(taken, starts) <==> ok && AllStart(rest, starts))
  {
    hide Starting, StartLines, FailuresOf, AllStart;
    var rest := pending[1..][..k];
    assert pending[..k + 1] == [pending[0]] + rest;
    StartingStep(pending[0], rest, starts);
    StartLinesStep(pending[0], rest, starts);
    AllStartStep(pending[0], rest, starts);
    FailuresStep(if starts(pending[0].index) then Started(pending[0]) else FailedToStart(pending[0]),
                 StartLines(rest, starts));
  }

  lemma StartingStep(job: Job, rest: seq<Job>, starts: nat -> bool)
    ensures Starting([job] + rest, starts) == (if starts(job.index) then [job] else []) + Starting(rest, starts)
  {
    assert ([job] + rest)[1..] == rest;
  }

  lemma StartLinesStep(job: Job, rest: seq<Job>, starts: nat -> bool)
    ensures StartLines([job] + rest, starts)
         == [if starts(job.index) then Started(job) else FailedToStart(job)] + StartLines(rest, starts)
  {
  }

  lemma AllStartStep(job: Job, rest: seq<Job>, starts: nat -> bool)
    ensures AllStart([job] + rest, starts) <==> starts(job.index) && AllStart(rest, starts)
  {
    var all := [job] + rest;
    assert all[0] == job;
    if AllStart(all, starts) {
      forall i | 0 <= i < |rest| ensures starts(rest[i].index) {
        assert rest[i] == all[i + 1];
      }
    }
    if starts(job.index) && AllStart(rest, starts) {
      forall i | 0 <= i < |all| ensures starts(all[i].index) {
        assert i > 0 ==> all[i] == rest[i - 1];
      }
    }
  }

  lemma LessFits(st: State, budget: int, starts: nat -> bool, n: nat)
    requires st.pending != [] && |st.running| < budget && 0 < n <= |st.pending|
    requires var next := AfterFirst(st, starts(st.pending[0].index));
             forall m :: 0 <= m < n - 1 ==> |next.running| + |Starting(next.pending[..m], starts)| < budget
    ensures forall m :: 0 <= m < n ==> |st.running| + |Starting(st.pending[..m], starts)| < budget
  {
    hide Starting;
    var next := AfterFirst(st, starts(st.pending[0].index));
    forall m | 0 <= m < n ensures |st.running| + |Starting(st.pending[..m], starts)| < budget {
      if m == 0 {
        NoneStarting(starts);
        assert st.pending[..0] == [];
      } else {
        FirstTaken(st.pending, starts, m - 1);
        assert |next.running| + |Starting(next.pending[..m - 1], starts)| < budget;
      }
    }
  }

  lemma NoneStarting(starts: nat -> bool)
    ensures Starting([], starts) == []
  {
  }

  lemma TakesOneMore(args: Arguments, st: State, budget: int, starts: nat -> bool, k: nat, after: State)
    requires st.pending != [] && |st.running| < budget
    requires var ok := starts(st.pending[0].index);
             (args.stopOnFailure ==> ok) && Takes(args, AfterFirst(st, ok), budget, starts, k, after)
    ensures Takes(args, st, budget, starts, k + 1, after)
  {
    hide Starting, StartLines, FailuresOf, AllStart;
    var next := AfterFirst(st, starts(st.pending[0].index));
    FirstTaken(st.pending, starts, k);
    if k > 0 {
      FirstTaken(st.pending, starts, k - 1);
      assert st.pending[..k + 1][..k] == st.pending[..k];
      assert next.pending[..k][..k - 1] == next.pending[..k - 1];
    }
    LessFits(st, budget, starts, k + 1);
    assert st.pending[k + 1..] == next.pending[k..];
  }

  lemma TakesFailedStop(args: Arguments, st: State, budget: int, starts: nat -> bool)
    requires st.pending != [] && |st.running| < budget && args.stopOnFailure && !starts(st.pending[0].index)
    ensures Takes(args, st, budget, starts, 1,
                  DropPending(NoteFailedStart(st.(pending := st.pending[1..]), st.pending[0])))
  {
    FirstTaken(st.pending, starts, 0);
    assert st.pending[..1][..0] == [] && st.pending[..1] == [st.pending[0]];
    assert st.pending[..0] == [];
  }

  /** The starting loop takes jobs from the front until the budget is reached or none is left. */
  lemma {:induction false} AdmitMeans(args: Arguments, st: State, budget: int, starts: nat -> bool) returns (n: nat)
    ensures Takes(args, st, budget, starts, n, Admit(args, st, budget, starts))
    decreases |st.pending|
  {
    hide Takes;
    if st.pending == [] || |st.running| >= budget {
      n := 0;
      TakesNothing(args, st, budget, starts);
    } else {
      var ok := starts(st.pending[0].index);
      if !ok && args.stopOnFailure {
        n := 1;
        TakesFailedStop(args, st, budget, starts);
      } else {
        var k := AdmitMeans(args, AfterFirst(st, ok), budget, starts);
        n := k + 1;
        FirstAdmitted(args, st, budget, starts);
        TakesOneMore(args, st, budget, starts, k, Admit(args, st, budget, starts));
      }
    }
  }

  lemma FirstAdmitted(args: Arguments, st: State, budget: int, starts: nat -> bool)
    requires st.pending != [] && |st.running| < budget
    requires var ok := starts(st.pending[0].index); args.stopOnFailure ==> ok
    ensures Admit(args, st, budget, starts)
         == Admit(args, AfterFirst(st, starts(st.pending[0].index)), budget, starts)
  {
    assert st.running + [] == st.running && st.failures + [] == st.failures;
  }

  // ---- whole turns ----

  /** The budget that memory allows, as a bound on running jobs. */
  ghost predicate IsBudget(args: Arguments, poll: Poll, budget: int) {
    && budget >= 0 && (budget > 0 ==> budget <= args.maxJobs)
    && (args.maxJobs > 0 && args.perJobMb <= 0 ==> budget == args.maxJobs)
    && (args.maxJobs > 0 && args.perJobMb > 0 ==>
          && (budget > 0 ==> budget * args.perJobMb + args.minFreeMb <= poll.availableMb)
          && (budget < args.maxJobs ==> (budget + 1) * args.perJobMb + args.minFreeMb > poll.availableMb))
  }

  /** The newest running job is terminated when memory is critical, and only it, and only then. */
  ghost predicate TerminatesNewest(args: Arguments, poll: Poll, running: seq<Job>, lines: seq<Line>) {
    lines == if args.terminateOnCritical && running != [] && 0 < poll.availableMb < args.criticalFreeMb
                && poll.newestRuns
             then [Terminated(running[|running| - 1])] else []
  }

  /** The jobs that were running, polled: the live ones go on, the others are noted. */
  ghost predicate IsPolled(args: Arguments, st: State, poll: Poll, polled: State) {
    var lines := ExitLines(st.running, poll.exits);
    var failures := st.failures + FailuresOf(lines);
    && polled.running == Alive(st.running, poll.exits)
    && polled.log == st.log + lines && polled.failures == failures
    && polled.zeroBudgetSince == st.zeroBudgetSince
    && if failures != [] && args.stopOnFailure
       then polled.pending == [] && polled.dropped == st.pending + st.dropped
       else polled.pending == st.pending && polled.dropped == st.dropped
  }

  lemma PolledMeans(args: Arguments, st: State, poll: Poll)
    ensures IsPolled(args, st, poll, Polled(args, st, poll))
  {
    ReapMeans(st.(running := []), st.running, poll.exits);
    assert [] + Alive(st.running, poll.exits) == Alive(st.running, poll.exits);
  }

  lemma BudgetMeans(args: Arguments, poll: Poll)
    ensures IsBudget(args, poll, BudgetOf(args, poll))
  {
    if args.perJobMb > 0 && args.maxJobs > 0 {
      BudgetFits(poll.availableMb, args.maxJobs, args.perJobMb, args.minFreeMb);
    }
  }

  /**
    One turn that does not give up: the running jobs are polled, the newest live one is
    terminated if memory is critical, and then pending jobs are taken from the front until
    as many run as memory allows.
   */
  lemma TurnMeans(args: Arguments, st: State, poll: Poll) returns (polled: State, budget: int, lines: seq<Line>, n: nat)
    requires OneTurn(args, st, poll).Next?
    ensures IsPolled(args, st, poll, polled) && IsBudget(args, poll, budget)
    ensures TerminatesNewest(args, poll, polled.running, lines)
    ensures var since := OneTurn(args, st, poll).state.zeroBudgetSince;
            Takes(args, polled.(zeroBudgetSince := since, log := polled.log + lines), budget, poll.starts, n,
                  OneTurn(args, st, poll).state)
  {
    hide Polled, BudgetOf, Takes, Admit;
    polled, budget := Polled(args, st, poll), BudgetOf(args, poll);
    PolledMeans(args, st, poll);
    BudgetMeans(args, poll);
    var noted := NoteBudget(polled, budget, poll.now);
    var ready := TerminateNewest(args, noted, poll);
    lines := if ready == noted then [] else [Terminated(polled.running[|polled.running| - 1])];
    TerminationMeans(args, noted, poll);
    n := AdmitMeans(args, ready, budget, poll.starts);
    AdmitKeepsSince(args, ready, budget, poll.starts);
  }

  lemma TerminationMeans(args: Arguments, st: State, poll: Poll)
    ensures var after := TerminateNewest(args, st, poll);
            var lines := if after == st then [] else [Terminated(st.running[|st.running| - 1])];
            (after != st ==> st.running != []) && TerminatesNewest(args, poll, st.running, lines)
            && after == st.(log := st.log + lines)
  {
    assert st.log + [] == st.log;
    assert TerminateNewest(args, st, poll).log != st.log || TerminateNewest(args, st, poll) == st;
  }

  lemma AdmitKeepsSince(args: Arguments, st: State, budget: int, starts: nat -> bool)
    ensures Admit(args, st, budget, starts).zeroBudgetSince == st.zeroBudgetSince
    decreases |st.pending|
  {
  }
}
