/**
  The memory-guarded job scheduler.  Every turn of its loop polls the running processes,
  reads the free memory and starts jobs up to a budget.  Process exits, memory readings,
  the clock and failing starts are what one Poll observes; a run is a list of polls.
 */
module JobScheduler {
  import opened Common

  datatype Job = Job(index: nat, command: string)

  datatype Arguments = Arguments(
    maxJobs: int, perJobMb: int, minFreeMb: int, criticalFreeMb: int,
    stopOnFailure: bool, terminateOnCritical: bool, waitForMemory: bool, maxWaitSeconds: real)

  datatype Poll = Poll(
    exits: nat -> Option<int>,   // exit code of a job's process, or None while it runs
    newestRuns: bool,            // the second poll made before terminating the newest job
    availableMb: int,
    now: real,
    starts: nat -> bool)         // whether spawning a job succeeds

  /** What the scheduler prints about a job. */
  datatype Line =
    | Started(job: Job)
    | Finished(job: Job, code: int)
    | FailedToStart(job: Job)
    | Terminated(job: Job)

  datatype Failure = Failure(index: nat, code: int, command: string)

  datatype State = State(
    pending: seq<Job>,
    running: seq<Job>,
    failures: seq<Failure>,
    zeroBudgetSince: Option<real>,
    log: seq<Line>,
    dropped: seq<Job>)           // jobs removed by pending.clear()

  // ---- the budget ----

  function Min(a: int, b: int): int { if a <= b then a else b }

  function RecommendedJobs(availableMb: int, maxJobs: int, perJobMb: int, minFreeMb: int): (k: int)
    ensures k >= 0 && (k > 0 ==> k <= maxJobs)
  {
    if maxJobs <= 0 then 0
    else if perJobMb <= 0 then maxJobs
    else
      var usable := availableMb - minFreeMb;
      if usable <= 0 then 0 else Min(maxJobs, usable / perJobMb)
  }

  /** A positive budget fits into memory, and one job more would not, unless maxJobs says so. */
  lemma BudgetFits(availableMb: int, maxJobs: int, perJobMb: int, minFreeMb: int)
    requires perJobMb > 0 && maxJobs > 0
    ensures var k := RecommendedJobs(availableMb, maxJobs, perJobMb, minFreeMb);
            && (k > 0 ==> k * perJobMb + minFreeMb <= availableMb)
            && (k < maxJobs ==> (k + 1) * perJobMb + minFreeMb > availableMb)
  {
    if availableMb - minFreeMb > 0 {
      QuotientFits(availableMb - minFreeMb, perJobMb, maxJobs);
    }
  }

  lemma QuotientFits(usable: int, perJob: int, maxJobs: int)
    requires usable > 0 && perJob > 0 && maxJobs > 0
    ensures var k := Min(maxJobs, usable / perJob);
            k * perJob <= usable && (k < maxJobs ==> (k + 1) * perJob > usable)
  {
    var q := usable / perJob;
    assert usable == perJob * q + usable % perJob;
    if maxJobs < q {
      Monotone(maxJobs, q, perJob);
    }
  }

  lemma Monotone(a: int, b: int, c: int)
    requires a <= b && c > 0
    ensures a * c <= b * c
  {
  }

  // ---- one turn of the loop ----

  /** The polling loop: todo is the rest of the old running list, st.running the jobs kept. */
  function Reap(st: State, todo: seq<Job>, exits: nat -> Option<int>): State
    decreases |todo|
  {
    if todo == [] then st
    else
      match exits(todo[0].index)
      case None => Reap(st.(running := st.running + [todo[0]]), todo[1..], exits)
      case Some(code) => Reap(NoteExit(st, todo[0], code), todo[1..], exits)
  }

  function NoteExit(st: State, job: Job, code: int): State {
    st.(log := st.log + [Finished(job, code)],
        failures := st.failures + if code != 0 then [Failure(job.index, code, job.command)] else [])
  }

  function DropPending(st: State): State {
    st.(pending := [], dropped := st.pending + st.dropped)
  }

  /** The starting loop. */
  function Admit(args: Arguments, st: State, budget: int, starts: nat -> bool): State
    decreases |st.pending|
  {
    if st.pending == [] || |st.running| >= budget then st
    else
      var job, rest := st.pending[0], st.(pending := st.pending[1..]);
      if starts(job.index) then
        Admit(args, rest.(running := rest.running + [job], log := rest.log + [Started(job)]), budget, starts)
      else
        var failed := NoteFailedStart(rest, job);
        if args.stopOnFailure then DropPending(failed) else Admit(args, failed, budget, starts)
  }

  function NoteFailedStart(st: State, job: Job): State {
    st.(log := st.log + [FailedToStart(job)], failures := st.failures + [Failure(job.index, 127, job.command)])
  }

  predicate Starved(st: State, budget: int) {
    st.pending != [] && st.running == [] && budget <= 0
  }

  /** A starved scheduler gives up at once, or when it has waited long enough. */
  predicate GivesUp(args: Arguments, st: State, poll: Poll) {
    || !args.waitForMemory
    || (st.zeroBudgetSince.Some? && args.maxWaitSeconds >= 0.0
        && poll.now - st.zeroBudgetSince.value >= args.maxWaitSeconds)
  }

  function NoteBudget(st: State, budget: int, now: real): State {
    if !Starved(st, budget) then st.(zeroBudgetSince := None)
    else if st.zeroBudgetSince.None? then st.(zeroBudgetSince := Some(now))
    else st
  }

  function TerminateNewest(args: Arguments, st: State, poll: Poll): State {
    if args.terminateOnCritical && st.running != [] && 0 < poll.availableMb < args.criticalFreeMb && poll.newestRuns
    then st.(log := st.log + [Terminated(st.running[|st.running| - 1])])
    else st
  }

  function BudgetOf(args: Arguments, poll: Poll): int {
    RecommendedJobs(poll.availableMb, args.maxJobs, args.perJobMb, args.minFreeMb)
  }

  /** The state after the running list was polled and, on failure, the pending jobs dropped. */
  function Polled(args: Arguments, st: State, poll: Poll): State {
    var reaped := Reap(st.(running := []), st.running, poll.exits);
    if reaped.failures != [] && args.stopOnFailure then DropPending(reaped) else reaped
  }

  datatype Turn = GaveUp(state: State) | Next(state: State)

  function OneTurn(args: Arguments, st: State, poll: Poll): Turn {
    var polled, budget := Polled(args, st, poll), BudgetOf(args, poll);
    if Starved(polled, budget) && GivesUp(args, polled, poll) then GaveUp(polled)
    else Next(Admit(args, TerminateNewest(args, NoteBudget(polled, budget, poll.now), poll), budget, poll.starts))
  }

  predicate Done(st: State) {
    st.pending == [] && st.running == []
  }

  datatype Ending = Exit(code: int, state: State) | StillWaiting(state: State)

  function ExitCode(st: State): int {
    if st.failures != [] then 1 else 0
  }

  /** The loop over the observations made so far. */
  function Loop(args: Arguments, st: State, polls: seq<Poll>): Ending
    decreases |polls|
  {
    if Done(st) then Exit(ExitCode(st), st)
    else if polls == [] then StillWaiting(st)
    else
      match OneTurn(args, st, polls[0])
      case GaveUp(s) => Exit(3, s)
      case Next(s) => Loop(args, s, polls[1..])
  }

  function Numbered(commands: seq<string>): (jobs: seq<Job>)
    ensures |jobs| == |commands|
  {
    seq(|commands|, i requires 0 <= i < |commands| => Job(i + 1, commands[i]))
  }

  function Initial(jobs: seq<Job>): State {
    State(jobs, [], [], None, [], [])
  }

  function RunJobs(args: Arguments, commands: seq<string>, polls: seq<Poll>): Ending {
    if commands == [] then Exit(2, Initial([])) else Loop(args, Initial(Numbered(commands)), polls)
  }

  // ---- the log ----

  /** Jobs taken from the pending list, in order. */
  function Attempted(log: seq<Line>): seq<Job> {
    if log == [] then []
    else
      var line := log[|log| - 1];
      Attempted(log[..|log| - 1]) + if line.Started? || line.FailedToStart? then [line.job] else []
  }

  function StartedJobs(log: seq<Line>): seq<Job> {
    if log == [] then []
    else
      var line := log[|log| - 1];
      StartedJobs(log[..|log| - 1]) + if line.Started? then [line.job] else []
  }

  function FinishedJobs(log: seq<Line>): seq<Job> {
    if log == [] then []
    else
      var line := log[|log| - 1];
      FinishedJobs(log[..|log| - 1]) + if line.Finished? then [line.job] else []
  }

  function UnstartedJobs(log: seq<Line>): seq<Job> {
    if log == [] then []
    else
      var line := log[|log| - 1];
      UnstartedJobs(log[..|log| - 1]) + if line.FailedToStart? then [line.job] else []
  }

  function FailureOf(line: Line): seq<Failure> {
    match line
    case Finished(job, code) => if code != 0 then [Failure(job.index, code, job.command)] else []
    case FailedToStart(job) => [Failure(job.index, 127, job.command)]
    case Started(_) => []
    case Terminated(_) => []
  }

  function FailuresIn(log: seq<Line>): seq<Failure> {
    if log == [] then [] else FailuresIn(log[..|log| - 1]) + FailureOf(log[|log| - 1])
  }

  lemma LogAppend(log: seq<Line>, line: Line)
    ensures Attempted(log + [line]) == Attempted(log) + if line.Started? || line.FailedToStart? then [line.job] else []
    ensures StartedJobs(log + [line]) == StartedJobs(log) + if line.Started? then [line.job] else []
    ensures FinishedJobs(log + [line]) == FinishedJobs(log) + if line.Finished? then [line.job] else []
    ensures UnstartedJobs(log + [line]) == UnstartedJobs(log) + if line.FailedToStart? then [line.job] else []
    ensures FailuresIn(log + [line]) == FailuresIn(log) + FailureOf(line)
  {
    assert (log + [line])[..|log|] == log;
  }

  // ---- what every turn keeps ----

  ghost predicate Ascending(jobs: seq<Job>) {
    forall a, b :: 0 <= a < b < |jobs| ==> jobs[a].index < jobs[b].index
  }

  /** The list of jobs is what was attempted, then what is pending, then what was dropped. */
  ghost predicate ListSplit(jobs: seq<Job>, st: State) {
    && jobs == Attempted(st.log) + st.pending + st.dropped
    && (st.dropped != [] ==> st.pending == [])
  }

  /** Attempted jobs started or failed to; started jobs run or have finished. */
  ghost predicate Accounted(st: State, running: seq<Job>) {
    && multiset(Attempted(st.log)) == multiset(StartedJobs(st.log)) + multiset(UnstartedJobs(st.log))
    && multiset(StartedJobs(st.log)) == multiset(running) + multiset(FinishedJobs(st.log))
  }

  /** Running jobs stand in start order. */
  ghost predicate RunningInOrder(st: State, running: seq<Job>) {
    && Ascending(running)
    && (forall j :: j in running ==> j in Attempted(st.log))
  }

  ghost predicate Bookkeeping(args: Arguments, st: State) {
    && st.failures == FailuresIn(st.log)
    && (st.dropped != [] ==> args.stopOnFailure && st.failures != [])
  }

  ghost predicate Kept(args: Arguments, jobs: seq<Job>, st: State, running: seq<Job>) {
    && ListSplit(jobs, st) && Accounted(st, running) && RunningInOrder(st, running) && Bookkeeping(args, st)
  }

  /** The invariant of the loop. */
  ghost predicate Sound(args: Arguments, jobs: seq<Job>, st: State) {
    Kept(args, jobs, st, st.running) && (|st.running| <= args.maxJobs || st.running == [])
  }

  lemma InitiallySound(args: Arguments, jobs: seq<Job>)
    ensures Sound(args, jobs, Initial(jobs))
  {
  }

  lemma LessOneAscends(before: seq<Job>, job: Job, after: seq<Job>)
    requires Ascending(before + ([job] + after))
    ensures Ascending(before + after)
  {
    var longer, shorter := before + ([job] + after), before + after;
    forall a, b | 0 <= a < b < |shorter| ensures shorter[a].index < shorter[b].index {
      var n := |before|;
      assert shorter[a] == longer[if a < n then a else a + 1];
      assert shorter[b] == longer[if b < n then b else b + 1];
    }
  }

  lemma ExitAccounted(st: State, st': State, before: seq<Job>, job: Job, after: seq<Job>, code: int)
    requires Accounted(st, before + ([job] + after)) && st'.log == st.log + [Finished(job, code)]
    ensures Accounted(st', before + after)
  {
    LogAppend(st.log, Finished(job, code));
    hide Attempted, StartedJobs, FinishedJobs, UnstartedJobs, FailuresIn;
  }

  lemma UntakenSplit(jobs: seq<Job>, st: State, st': State, line: Line)
    requires ListSplit(jobs, st) && (line.Finished? || line.Terminated?)
    requires st'.log == st.log + [line] && st'.pending == st.pending && st'.dropped == st.dropped
    ensures ListSplit(jobs, st')
  {
    LogAppend(st.log, line);
    hide Attempted;
    assert Attempted(st'.log) == Attempted(st.log);
  }

  lemma ExitKept(args: Arguments, jobs: seq<Job>, st: State, job: Job, todo: seq<Job>, code: int)
    requires Kept(args, jobs, st, st.running + ([job] + todo))
    ensures Kept(args, jobs, NoteExit(st, job, code), st.running + todo)
  {
    var line, st' := Finished(job, code), NoteExit(st, job, code);
    UntakenSplit(jobs, st, st', line);
    ExitAccounted(st, st', st.running, job, todo, code);
    ExitInOrder(st, st', job, todo, code);
    LogAppend(st.log, line);
    hide ListSplit, Accounted, RunningInOrder, FailuresIn;
  }

  lemma ExitInOrder(st: State, st': State, job: Job, todo: seq<Job>, code: int)
    requires RunningInOrder(st, st.running + ([job] + todo)) && st'.log == st.log + [Finished(job, code)]
    ensures RunningInOrder(st', st.running + todo)
  {
    LogAppend(st.log, Finished(job, code));
    LessOneAscends(st.running, job, todo);
    hide Ascending, Attempted;
    forall j | j in st.running + todo ensures j in st.running + ([job] + todo) {
    }
  }

  lemma {:induction false} ReapKept(args: Arguments, jobs: seq<Job>, st: State, todo: seq<Job>,
                                    exits: nat -> Option<int>)
    requires Kept(args, jobs, st, st.running + todo)
    ensures var after := Reap(st, todo, exits);
            Kept(args, jobs, after, after.running) && |after.running| <= |st.running| + |todo|
    decreases |todo|
  {
    hide Kept;
    if todo == [] {
      assert st.running + todo == st.running;
    } else {
      assert todo == [todo[0]] + todo[1..];
      match exits(todo[0].index) {
        case None =>
          assert st.running + todo == (st.running + [todo[0]]) + todo[1..];
          KeptRunningField(args, jobs, st, st.running + [todo[0]], st.running + todo);
          ReapKept(args, jobs, st.(running := st.running + [todo[0]]), todo[1..], exits);
        case Some(code) =>
          ExitKept(args, jobs, st, todo[0], todo[1..], code);
          ReapKept(args, jobs, NoteExit(st, todo[0], code), todo[1..], exits);
      }
    }
  }

  /** The invariant speaks of the running list it is given, not of the field. */
  lemma KeptRunningField(args: Arguments, jobs: seq<Job>, st: State, field: seq<Job>, running: seq<Job>)
    requires Kept(args, jobs, st, running)
    ensures Kept(args, jobs, st.(running := field), running)
  {
  }

  lemma DropKept(args: Arguments, jobs: seq<Job>, st: State, running: seq<Job>)
    requires Kept(args, jobs, st, running) && args.stopOnFailure && st.failures != []
    ensures Kept(args, jobs, DropPending(st), running)
  {
  }

  /** The first pending job becomes the last attempted one. */
  lemma TakenSplit(jobs: seq<Job>, st: State, st': State, line: Line)
    requires ListSplit(jobs, st) && st.pending != []
    requires line == Started(st.pending[0]) || line == FailedToStart(st.pending[0])
    requires st'.log == st.log + [line] && st'.pending == st.pending[1..] && st'.dropped == st.dropped
    ensures ListSplit(jobs, st')
  {
    LogAppend(st.log, line);
    MoveHead(jobs, Attempted(st.log), st.pending, st.dropped);
    hide Attempted;
  }

  lemma MoveHead<T>(all: seq<T>, a: seq<T>, p: seq<T>, d: seq<T>)
    requires all == a + p + d && p != []
    ensures all == a + [p[0]] + p[1..] + d
  {
    assert p == [p[0]] + p[1..];
  }

  lemma StartedInOrder(jobs: seq<Job>, st: State, st': State, job: Job)
    requires ListSplit(jobs, st) && Ascending(jobs) && RunningInOrder(st, st.running)
    requires st.pending != [] && job == st.pending[0]
    requires st'.log == st.log + [Started(job)]
    ensures RunningInOrder(st', st.running + [job])
  {
    LogAppend(st.log, Started(job));
    hide Attempted;
    var n := |Attempted(st.log)|;
    assert jobs[n] == job;
    forall j | j in st.running ensures j.index < job.index {
      var a :| 0 <= a < n && Attempted(st.log)[a] == j;
      assert jobs[a] == j;
    }
  }

  lemma StartAccounted(st: State, st': State, running: seq<Job>, job: Job)
    requires Accounted(st, running) && st'.log == st.log + [Started(job)]
    ensures Accounted(st', running + [job])
  {
    LogAppend(st.log, Started(job));
    hide Attempted, StartedJobs, FinishedJobs, UnstartedJobs, FailuresIn;
  }

  lemma FailedStartAccounted(st: State, st': State, running: seq<Job>, job: Job)
    requires Accounted(st, running) && st'.log == st.log + [FailedToStart(job)]
    ensures Accounted(st', running)
  {
    LogAppend(st.log, FailedToStart(job));
    hide Attempted, StartedJobs, FinishedJobs, UnstartedJobs, FailuresIn;
  }

  /** More log keeps the running list inside the attempted jobs. */
  lemma StillAttempted(st: State, st': State, running: seq<Job>, line: Line)
    requires RunningInOrder(st, running) && st'.log == st.log + [line]
    ensures RunningInOrder(st', running)
  {
    LogAppend(st.log, line);
    hide Attempted, Ascending;
  }

  lemma StartKept(args: Arguments, jobs: seq<Job>, st: State)
    requires Kept(args, jobs, st, st.running) && st.pending != [] && Ascending(jobs)
    ensures var job := st.pending[0];
            Kept(args, jobs, st.(pending := st.pending[1..], running := st.running + [job],
                                 log := st.log + [Started(job)]), st.running + [job])
  {
    var job := st.pending[0];
    var after := st.(pending := st.pending[1..], running := st.running + [job], log := st.log + [Started(job)]);
    TakenSplit(jobs, st, after, Started(job));
    StartedInOrder(jobs, st, after, job);
    StartAccounted(st, after, st.running, job);
    LogAppend(st.log, Started(job));
    hide ListSplit, Accounted, RunningInOrder, Ascending, FailuresIn;
  }

  lemma FailedStartKept(args: Arguments, jobs: seq<Job>, st: State)
    requires Kept(args, jobs, st, st.running) && st.pending != []
    ensures Kept(args, jobs, NoteFailedStart(st.(pending := st.pending[1..]), st.pending[0]), st.running)
  {
    var job := st.pending[0];
    var after := NoteFailedStart(st.(pending := st.pending[1..]), job);
    TakenSplit(jobs, st, after, FailedToStart(job));
    StillAttempted(st, after, st.running, FailedToStart(job));
    FailedStartAccounted(st, after, st.running, job);
    LogAppend(st.log, FailedToStart(job));
    hide ListSplit, Accounted, RunningInOrder, FailuresIn;
  }

  lemma {:induction false} AdmitKept(args: Arguments, jobs: seq<Job>, st: State, budget: int, starts: nat -> bool)
    requires Kept(args, jobs, st, st.running) && Ascending(jobs)
    ensures var after := Admit(args, st, budget, starts);
            && Kept(args, jobs, after, after.running)
            && (|after.running| <= |st.running| || |after.running| <= budget)
    decreases |st.pending|
  {
    hide Kept, Ascending;
    if st.pending == [] || |st.running| >= budget {
    } else {
      var job, rest := st.pending[0], st.(pending := st.pending[1..]);
      if starts(job.index) {
        StartKept(args, jobs, st);
        AdmitKept(args, jobs, rest.(running := rest.running + [job], log := rest.log + [Started(job)]), budget, starts);
      } else {
        FailedStartKept(args, jobs, st);
        var failed := NoteFailedStart(rest, job);
        if args.stopOnFailure {
          DropKept(args, jobs, failed, st.running);
        } else {
          AdmitKept(args, jobs, failed, budget, starts);
        }
      }
    }
  }

  lemma BudgetNoteKept(args: Arguments, jobs: seq<Job>, st: State, budget: int, now: real)
    requires Kept(args, jobs, st, st.running)
    ensures var noted := NoteBudget(st, budget, now);
            Kept(args, jobs, noted, noted.running) && noted.running == st.running
  {
    hide Attempted, StartedJobs, FinishedJobs, UnstartedJobs, FailuresIn, Ascending;
  }

  lemma TerminateKept(args: Arguments, jobs: seq<Job>, st: State, poll: Poll)
    requires Kept(args, jobs, st, st.running)
    ensures var noted := TerminateNewest(args, st, poll);
            Kept(args, jobs, noted, noted.running) && noted.running == st.running
  {
    var st' := TerminateNewest(args, st, poll);
    if st' != st {
      var line := Terminated(st.running[|st.running| - 1]);
      LogAppend(st.log, line);
      UntakenSplit(jobs, st, st', line);
      StillAttempted(st, st', st.running, line);
      TerminationAccounted(st, st', st.running, line);
      hide ListSplit, Accounted, RunningInOrder, FailuresIn;
    }
  }

  lemma TerminationAccounted(st: State, st': State, running: seq<Job>, line: Line)
    requires Accounted(st, running) && line.Terminated? && st'.log == st.log + [line]
    ensures Accounted(st', running)
  {
    LogAppend(st.log, line);
    hide Attempted, StartedJobs, FinishedJobs, UnstartedJobs, FailuresIn;
  }

  lemma PolledIsSound(args: Arguments, jobs: seq<Job>, st: State, poll: Poll)
    requires Sound(args, jobs, st)
    ensures Sound(args, jobs, Polled(args, st, poll))
    ensures var polled := Polled(args, st, poll); polled.failures != [] && args.stopOnFailure ==> polled.pending == []
  {
    KeptRunningField(args, jobs, st, [], st.running);
    assert [] + st.running == st.running;
    hide Kept;
    ReapKept(args, jobs, st.(running := []), st.running, poll.exits);
    var reaped := Reap(st.(running := []), st.running, poll.exits);
    if reaped.failures != [] && args.stopOnFailure {
      DropKept(args, jobs, reaped, reaped.running);
    }
  }

  lemma TurnIsSound(args: Arguments, jobs: seq<Job>, st: State, poll: Poll)
    requires Sound(args, jobs, st) && Ascending(jobs)
    ensures Sound(args, jobs, OneTurn(args, st, poll).state)
    ensures OneTurn(args, st, poll).GaveUp? ==>
              var s := OneTurn(args, st, poll).state; s.running == [] && s.pending != [] && BudgetOf(args, poll) <= 0
  {
    PolledIsSound(args, jobs, st, poll);
    hide Kept, Ascending, Polled, Admit, NoteBudget, TerminateNewest, GivesUp, RecommendedJobs;
    var polled, budget := Polled(args, st, poll), BudgetOf(args, poll);
    var noted := NoteBudget(polled, budget, poll.now);
    BudgetNoteKept(args, jobs, polled, budget, poll.now);
    TerminateKept(args, jobs, noted, poll);
    AdmitKept(args, jobs, TerminateNewest(args, noted, poll), budget, poll.starts);
  }

  lemma {:induction false} LoopIsSound(args: Arguments, jobs: seq<Job>, st: State, polls: seq<Poll>)
    requires Sound(args, jobs, st) && Ascending(jobs)
    ensures Sound(args, jobs, Loop(args, st, polls).state)
    decreases |polls|
  {
    hide Sound, Ascending, OneTurn;
    if Done(st) || polls == [] {
    } else {
      TurnIsSound(args, jobs, st, polls[0]);
      var turn := OneTurn(args, st, polls[0]);
      if turn.Next? {
        LoopIsSound(args, jobs, turn.state, polls[1..]);
      }
    }
  }

  lemma NumberedAscend(commands: seq<string>)
    ensures Ascending(Numbered(commands))
  {
  }

  lemma PartsAddUp(jobs: seq<Job>, st: State)
    requires ListSplit(jobs, st) && Accounted(st, st.running)
    ensures multiset(st.pending) + multiset(st.running) + multiset(FinishedJobs(st.log))
            + multiset(UnstartedJobs(st.log)) + multiset(st.dropped) == multiset(jobs)
  {
    hide Attempted, StartedJobs, FinishedJobs, UnstartedJobs;
  }

  /**
    At every poll every job is in exactly one place; started and failed jobs were taken in
    list order; running jobs stay within maxJobs and in start order, so that the last one is
    the newest; jobs are dropped only after a failure
    under stop-on-failure.
   */
  lemma EveryJobIsSomewhere(args: Arguments, commands: seq<string>, polls: seq<Poll>)
    requires commands != []
    ensures var st := RunJobs(args, commands, polls).state;
            && Attempted(st.log) + st.pending + st.dropped == Numbered(commands)
            && multiset(st.pending) + multiset(st.running) + multiset(FinishedJobs(st.log))
               + multiset(UnstartedJobs(st.log)) + multiset(st.dropped) == multiset(Numbered(commands))
            && (|st.running| <= args.maxJobs || st.running == [])
            && Ascending(st.running)
            && (st.dropped != [] ==> args.stopOnFailure && st.failures != [] && st.pending == [])
            && st.failures == FailuresIn(st.log)
  {
    var jobs := Numbered(commands);
    InitiallySound(args, jobs);
    NumberedAscend(commands);
    LoopIsSound(args, jobs, Initial(jobs), polls);
    PartsAddUp(jobs, RunJobs(args, commands, polls).state);
    hide Loop, Numbered, Attempted, StartedJobs, FinishedJobs, UnstartedJobs, FailuresIn, Ascending;
  }

  // ---- what the exit codes mean ----

  lemma {:induction false} NoFailuresInLog(log: seq<Line>)
    requires FailuresIn(log) == []
    ensures UnstartedJobs(log) == [] && StartedJobs(log) == Attempted(log)
    ensures forall line :: line in log && line.Finished? ==> line.code == 0
    decreases |log|
  {
    if log == [] {
    } else {
      var n := |log| - 1;
      var line := log[n];
      assert log == log[..n] + [line];
      LogAppend(log[..n], line);
      hide FailuresIn, UnstartedJobs, StartedJobs, Attempted, FinishedJobs;
      assert FailuresIn(log[..n]) == [] && FailureOf(line) == [];
      NoFailuresInLog(log[..n]);
    }
  }

  lemma {:induction false} LoopEndings(args: Arguments, st: State, polls: seq<Poll>)
    ensures match Loop(args, st, polls)
            case Exit(code, s) =>
              || (code == ExitCode(s) && Done(s))
              || (code == 3 && s.pending != [] && s.running == [])
            case StillWaiting(s) => !Done(s)
    decreases |polls|
  {
    hide Polled, Admit, TerminateNewest, NoteBudget, GivesUp, BudgetOf;
    if Done(st) || polls == [] {
    } else {
      var turn := OneTurn(args, st, polls[0]);
      if turn.Next? {
        LoopEndings(args, turn.state, polls[1..]);
      }
    }
  }

  /**
    Exit 0: every job was started, in order, and finished with 0.  Exit 1: everything ended
    and something failed.  Exit 2: there were no jobs.  Exit 3: jobs are pending, nothing runs.
   */
  lemma ExitCodesMean(args: Arguments, commands: seq<string>, polls: seq<Poll>)
    ensures match RunJobs(args, commands, polls)
            case StillWaiting(st) => commands != [] && !Done(st)
            case Exit(code, st) =>
              && code in {0, 1, 2, 3}
              && (code == 2 <==> commands == [])
              && (code == 0 ==>
                    && StartedJobs(st.log) == Numbered(commands)
                    && multiset(FinishedJobs(st.log)) == multiset(Numbered(commands))
                    && (forall line :: line in st.log && line.Finished? ==> line.code == 0)
                    && st.dropped == [])
              && (code == 1 ==> FailuresIn(st.log) != [] && Done(st))
              && (code == 3 ==> st.pending != [] && st.running == [])
  {
    if commands != [] {
      EveryJobIsSomewhere(args, commands, polls);
      LoopEndings(args, Initial(Numbered(commands)), polls);
      var ending := RunJobs(args, commands, polls);
      if ending.Exit? && ending.code == 0 {
        NoFailuresInLog(ending.state.log);
        hide Loop, Numbered, StartedJobs, FinishedJobs, FailuresIn;
        assert multiset(ending.state.pending) == multiset{} && multiset(ending.state.running) == multiset{};
        assert ending.state.dropped == [];
      }
    }
  }

  // ---- waiting for memory ----

  /** The state before poll k, when the loop gets that far. */
  function StateBefore(args: Arguments, st: State, polls: seq<Poll>, k: nat): Option<State>
    requires k <= |polls|
  {
    if k == 0 then Some(st)
    else
      match StateBefore(args, st, polls, k - 1)
      case None => None
      case Some(s) =>
        if Done(s) then None
        else
          match OneTurn(args, s, polls[k - 1])
          case GaveUp(_) => None
          case Next(s') => Some(s')
  }

  /** At poll k jobs are pending, nothing runs and the budget is zero. */
  predicate StarvedAt(args: Arguments, st: State, polls: seq<Poll>, k: nat)
    requires k < |polls|
  {
    match StateBefore(args, st, polls, k)
    case None => false
    case Some(s) => !Done(s) && Starved(Polled(args, s, polls[k]), BudgetOf(args, polls[k]))
  }

  /** All polls from i up to but not including k were starved. */
  ghost predicate StarvedThrough(args: Arguments, st: State, polls: seq<Poll>, i: nat, k: nat)
    requires k <= |polls|
  {
    forall j :: i <= j < k ==> StarvedAt(args, st, polls, j)
  }

  lemma {:induction false} ReapKeepsClock(st: State, todo: seq<Job>, exits: nat -> Option<int>)
    ensures Reap(st, todo, exits).zeroBudgetSince == st.zeroBudgetSince
    decreases |todo|
  {
    if todo == [] {
    } else {
      match exits(todo[0].index) {
        case None => ReapKeepsClock(st.(running := st.running + [todo[0]]), todo[1..], exits);
        case Some(code) => ReapKeepsClock(NoteExit(st, todo[0], code), todo[1..], exits);
      }
    }
  }

  lemma {:induction false} AdmitKeepsClock(args: Arguments, st: State, budget: int, starts: nat -> bool)
    ensures Admit(args, st, budget, starts).zeroBudgetSince == st.zeroBudgetSince
    decreases |st.pending|
  {
    if st.pending == [] || |st.running| >= budget {
    } else {
      var job, rest := st.pending[0], st.(pending := st.pending[1..]);
      if starts(job.index) {
        AdmitKeepsClock(args, rest.(running := rest.running + [job], log := rest.log + [Started(job)]), budget, starts);
      } else if !args.stopOnFailure {
        AdmitKeepsClock(args, NoteFailedStart(rest, job), budget, starts);
      }
    }
  }

  /** One turn starts the clock at the first starved poll, keeps it, or clears it. */
  lemma ClockAfterTurn(args: Arguments, st: State, poll: Poll)
    ensures var starved := Starved(Polled(args, st, poll), BudgetOf(args, poll));
            && (OneTurn(args, st, poll).GaveUp? ==>
                  starved && (args.waitForMemory ==>
                    && st.zeroBudgetSince.Some? && args.maxWaitSeconds >= 0.0
                    && poll.now - st.zeroBudgetSince.value >= args.maxWaitSeconds))
            && (OneTurn(args, st, poll).Next? ==>
                  OneTurn(args, st, poll).state.zeroBudgetSince
                  == if !starved then None else if st.zeroBudgetSince.None? then Some(poll.now) else st.zeroBudgetSince)
  {
    ReapKeepsClock(st.(running := []), st.running, poll.exits);
    var polled, budget := Polled(args, st, poll), BudgetOf(args, poll);
    assert polled.zeroBudgetSince == st.zeroBudgetSince;
    hide Polled, Admit, BudgetOf;
    AdmitKeepsClock(args, TerminateNewest(args, NoteBudget(polled, budget, poll.now), poll), budget, poll.starts);
  }

  /** The clock shows when the current stretch of starved polls began. */
  lemma {:induction false} ClockShowsStretch(args: Arguments, st: State, polls: seq<Poll>, k: nat) returns (i: nat)
    requires k <= |polls| && st.zeroBudgetSince.None? && StateBefore(args, st, polls, k).Some?
    ensures var s := StateBefore(args, st, polls, k).value;
            && i <= k && StarvedThrough(args, st, polls, i, k)
            && (s.zeroBudgetSince.Some? <==> i < k)
            && (i < k ==> s.zeroBudgetSince == Some(polls[i].now))
    decreases k
  {
    hide OneTurn, Starved, Polled;
    i := k;
    if k == 0 {
    } else {
      var s := StateBefore(args, st, polls, k - 1).value;
      ClockAfterTurn(args, s, polls[k - 1]);
      var before := ClockShowsStretch(args, st, polls, k - 1);
      if StarvedAt(args, st, polls, k - 1) {
        i := before;
      }
    }
  }

  lemma {:induction false} StateShift(args: Arguments, st: State, polls: seq<Poll>, k: nat)
    requires k < |polls| && !Done(st) && OneTurn(args, st, polls[0]).Next?
    ensures StateBefore(args, OneTurn(args, st, polls[0]).state, polls[1..], k) == StateBefore(args, st, polls, k + 1)
    decreases k
  {
    hide OneTurn;
    if k == 0 {
      assert StateBefore(args, st, polls, 0) == Some(st);
    } else {
      StateShift(args, st, polls, k - 1);
    }
  }

  /** The poll at which a run gives up. */
  lemma {:induction false} GivesUpAt(args: Arguments, st: State, polls: seq<Poll>) returns (k: nat)
    requires Loop(args, st, polls).Exit? && Loop(args, st, polls).code == 3
    ensures k < |polls| && StateBefore(args, st, polls, k).Some?
    ensures var s := StateBefore(args, st, polls, k).value; !Done(s) && OneTurn(args, s, polls[k]).GaveUp?
    decreases |polls|
  {
    hide OneTurn;
    k := 0;
    if OneTurn(args, st, polls[0]).Next? {
      var rest := GivesUpAt(args, OneTurn(args, st, polls[0]).state, polls[1..]);
      StateShift(args, st, polls, rest);
      k := rest + 1;
    }
  }

  /**
    What exit 3 means.  The run ends at a starved poll; without waiting that is enough, and
    with waiting the starvation was uninterrupted since a poll at least maxWaitSeconds
    earlier.
   */
  lemma TimeoutMeans(args: Arguments, commands: seq<string>, polls: seq<Poll>) returns (i: nat, k: nat)
    requires RunJobs(args, commands, polls).Exit? && RunJobs(args, commands, polls).code == 3
    ensures i <= k < |polls| && StarvedThrough(args, Initial(Numbered(commands)), polls, i, k + 1)
    ensures args.waitForMemory ==>
              i < k && args.maxWaitSeconds >= 0.0 && polls[k].now - polls[i].now >= args.maxWaitSeconds
  {
    hide Loop, OneTurn, Numbered, Starved, Polled, StateBefore;
    var st := Initial(Numbered(commands));
    k := GivesUpAt(args, st, polls);
    i := ClockShowsStretch(args, st, polls, k);
    ClockAfterTurn(args, StateBefore(args, st, polls, k).value, polls[k]);
  }

  // ---- the program ----

  class Scheduler {
    const args: Arguments
    var pending: seq<Job>
    var running: seq<Job>
    var failures: seq<Failure>
    var zeroBudgetSince: Option<real>
    var log: seq<Line>
    ghost var dropped: seq<Job>

    constructor (args: Arguments)
      ensures this.args == args && View() == Initial([])
    {
      this.args := args;
      pending, running, failures, zeroBudgetSince, log, dropped := [], [], [], None, [], [];
    }

    ghost function View(): State
      reads this
    {
      State(pending, running, failures, zeroBudgetSince, log, dropped)
    }

    method PollRunning(poll: Poll)
      modifies this
      ensures View() == Polled(args, old(View()), poll)
    {
      hide DropPending, NoteExit;
      var stillRunning: seq<Job> := [];
      ghost var first := View().(running := []);
      for i := 0 to |running|
        invariant running == old(running)
        invariant Reap(View().(running := stillRunning), running[i..], poll.exits) == Reap(first, running, poll.exits)
      {
        var job := running[i];
        assert running[i..][0] == job && running[i..][1..] == running[i + 1..];
        var code := poll.exits(job.index);
        if code.None? {
          stillRunning := stillRunning + [job];
          continue;
        }
        ReportExit(job, code.value);
      }
      running := stillRunning;
      if failures != [] && args.stopOnFailure {
        ClearPending();
      }
    }

    method ReportExit(job: Job, code: int)
      modifies this
      ensures View() == NoteExit(old(View()), job, code)
      ensures forall r: seq<Job> :: View().(running := r) == NoteExit(old(View()).(running := r), job, code)
    {
      log := log + [Finished(job, code)];
      if code != 0 {
        failures := failures + [Failure(job.index, code, job.command)];
      }
    }

    method ClearPending()
      modifies this
      ensures View() == DropPending(old(View()))
    {
      dropped := pending + dropped;
      pending := [];
    }

    method StartJobs(budget: int, starts: nat -> bool)
      modifies this
      ensures View() == Admit(args, old(View()), budget, starts)
    {
      while pending != [] && |running| < budget
        invariant Admit(args, View(), budget, starts) == Admit(args, old(View()), budget, starts)
        decreases |pending|
      {
        var job := pending[0];
        pending := pending[1..];
        if starts(job.index) {
          running := running + [job];
          log := log + [Started(job)];
        } else {
          log := log + [FailedToStart(job)];
          failures := failures + [Failure(job.index, 127, job.command)];
          if args.stopOnFailure {
            ClearPending();
            break;
          }
        }
      }
    }

    /** The loop of run_jobs, for as many polls as were observed. */
    method Run(commands: seq<string>, polls: seq<Poll>) returns (exit: Option<int>)
      requires View() == Initial([])
      modifies this
      ensures exit.Some? ==> RunJobs(args, commands, polls) == Exit(exit.value, View())
      ensures exit.None? ==> RunJobs(args, commands, polls) == StillWaiting(View())
    {
      if commands == [] {
        return Some(2);
      }
      pending := Numbered(commands);
      var i := 0;
      while pending != [] || running != []
        invariant i <= |polls|
        invariant Loop(args, View(), polls[i..]) == RunJobs(args, commands, polls)
        decreases |polls| - i
      {
        if i == |polls| {
          return None;
        }
        assert polls[i..][0] == polls[i] && polls[i..][1..] == polls[i + 1..];
        var gaveUp := TakeTurn(polls[i]);
        if gaveUp {
          return Some(3);
        }
        i := i + 1;
      }
      return Some(if failures != [] then 1 else 0);
    }

    method TakeTurn(poll: Poll) returns (gaveUp: bool)
      modifies this
      ensures OneTurn(args, old(View()), poll) == if gaveUp then GaveUp(View()) else Next(View())
    {
      hide Polled, Admit;
      PollRunning(poll);
      var budget := RecommendedJobs(poll.availableMb, args.maxJobs, args.perJobMb, args.minFreeMb);
      if pending != [] && running == [] && budget <= 0 {
        if !args.waitForMemory {
          return true;
        }
        if zeroBudgetSince.None? {
          zeroBudgetSince := Some(poll.now);
        } else if args.maxWaitSeconds >= 0.0 && poll.now - zeroBudgetSince.value >= args.maxWaitSeconds {
          return true;
        }
      } else {
        zeroBudgetSince := None;
      }
      if args.terminateOnCritical && running != [] && poll.availableMb > 0 && poll.availableMb < args.criticalFreeMb {
        var newest := running[|running| - 1];
        if poll.newestRuns {
          log := log + [Terminated(newest)];
        }
      }
      StartJobs(budget, poll.starts);
      return false;
    }
  }
}
