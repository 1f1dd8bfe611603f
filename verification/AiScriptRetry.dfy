/**
  Two laws that follow one thread through a whole run of the engine: a blocking opcode
  is retried without leaving a trace, and a call returns to just after its operand.
 */
module AiScriptRetry {
  import opened Common
  import opened AiScriptCode
  import opened AiScriptMachine
  import opened AiScriptSafety
  import opened AiScriptSchedule
  import opened AiScriptSleep

  ghost predicate IsHead(vm: Vm, t: Thread) {
    vm.running && vm.todo != [] && vm.todo[0] == t
  }

  ghost predicate Holds(vm: Vm, t: Thread) {
    Dormant(vm, t) || IsHead(vm, t)
  }

  /** Settling keeps the thread that ran: it is still the head, or it has been passed. */
  lemma SettleSelf(vm: Vm, o: Outcome)
    requires vm.running && vm.todo != [] && o.Ran? && !o.killAll
    ensures var v := Settle(vm, o);
            if o.goOn && o.thread.offset != 0 then IsHead(v, o.thread)
            else (if o.goOn then Kill(o.thread) else o.thread) in v.done
  {
    var v := Settle(vm, o);
    assert !v.running ==> v.done[|v.done| - 1] == (if o.goOn then Kill(o.thread) else o.thread);
  }

  // ---- retry ----

  function Behind(s: Script, b: nat): nat
    requires b < |s.code| && s.code[b] in s.table
  {
    b + 1 + s.table[s.code[b]].width
  }

  /** The thread waits at the blocking opcode at b, one debug entry for it already logged. */
  ghost predicate WaitingAt(s: Script, b: nat, log: seq<Byte>, calls: seq<nat>, t: Thread) {
    && BlockingAt(s, b)
    && t.offset == b && t.retryBlock && t.log == log && t.calls == calls && t.bytesRead == 0
  }

  /** The opcode at b has succeeded; the thread stands on the next one. */
  ghost predicate PassedAt(s: Script, b: nat, log: seq<Byte>, calls: seq<nat>, t: Thread) {
    && BlockingAt(s, b)
    && t.offset == Behind(s, b) && !t.retryBlock && t.log == log && t.calls == calls
    && t.bytesRead == 0 && t.sleep == 0
  }

  /** The answer lets the opcode at b pass: enough units, or the upgrades are finished. */
  predicate Enough(s: Script, b: nat, ctl: Controller, w: World) {
    && b < |s.code| && s.code[b] in s.table
    && var action := s.table[s.code[b]].action;
       || ((action.Train? || action.WaitTrain?) && b + 1 < |s.code| && w.unitCount >= s.code[b + 1])
       || (action.WaitUpgrades? && ctl.upgradesFinished)
  }

  /**
    Executing a blocking opcode: it moves past it exactly when the answer is enough, and
    rewinds to its own first byte otherwise.  Either way the log holds one entry for it and
    the call stack is untouched.
   */
  lemma BlockingOpcode(s: Script, t: Thread, ctl: Controller, w: World)
    requires ctl.Shaped() && BlockingAt(s, t.offset)
    requires t.bytesRead == 0 && t.sleep == 0
    requires ReadOpcode(s, t, ctl, w).Ran?
    ensures var o := ReadOpcode(s, t, ctl, w);
            var log := if t.retryBlock then t.log else PushLog(t.log, s.code[t.offset]);
            && o.spawn.None? && !o.killAll && o.thread.serial == t.serial
            && o.thread.wantKilled == t.wantKilled
            && (o.goOn <==> Enough(s, t.offset, ctl, w))
            && if o.goOn then PassedAt(s, t.offset, log, t.calls, o.thread)
               else WaitingAt(s, t.offset, log, t.calls, o.thread) && o.thread.sleep == 30
  {
    hide PushLog;
    var h := s.table[s.code[t.offset]];
    var flow := FlowOf(s.code, h, t.offset + 1, ctl, w);
    assert flow.Block? || flow.Fall?;
    hide FlowOf, ControllerEffect;
  }

  /** The same, as a step of the engine. */
  lemma BlockingTurn(s: Script, vm: Vm, w: World, t: Thread) returns (x: Thread)
    requires Ordered(vm) && IsHead(vm, t) && BlockingAt(s, t.offset)
    requires t.bytesRead == 0 && t.sleep == 0 && Turn(s, vm, w).Next?
    ensures var r := Turn(s, vm, w);
            var log := if t.retryBlock then t.log else PushLog(t.log, s.code[t.offset]);
            && r.event == Executed(t.serial, t.offset)
            && x.serial == t.serial
            && (IsHead(r.vm, x) <==> Enough(s, t.offset, vm.ctl, w))
            && if IsHead(r.vm, x) then PassedAt(s, t.offset, log, t.calls, x)
               else x in r.vm.done && WaitingAt(s, t.offset, log, t.calls, x)
                    && x.sleep == 30 && Due(r.vm, x) == r.vm.frame + 31
  {
    var o := ReadOpcode(s, t, vm.ctl, w);
    BlockingOpcode(s, t, vm.ctl, w);
    x := o.thread;
    SettleSelf(vm, o);
    if !o.goOn {
      assert !Settle(vm, o).running;
    }
  }

  ghost predicate WaitsAt(s: Script, vm: Vm, b: nat, log: seq<Byte>, calls: seq<nat>, t: Thread) {
    Holds(vm, t) && WaitingAt(s, b, log, calls, t) && (IsHead(vm, t) ==> t.sleep == 0)
  }

  /** The pass in which a waiting thread is to execute its opcode again. */
  ghost function NextTry(vm: Vm, t: Thread): nat {
    if Dormant(vm, t) then Due(vm, t) else vm.frame
  }

  predicate Tries(e: Event, serial: nat) {
    e.Executed? && e.serial == serial
  }

  /** A step that leaves the thread waiting; executing it costs exactly 31 passes. */
  ghost predicate KeepsWaiting(
    s: Script, r: Result, b: nat, log: seq<Byte>, calls: seq<nat>, due: nat, x: Thread)
    requires r.Next?
  {
    && WaitsAt(s, r.vm, b, log, calls, x)
    && if Tries(r.event, x.serial)
       then r.event.at == b && r.vm.frame == due && NextTry(r.vm, x) == due + 31
       else NextTry(r.vm, x) == due
  }

  ghost predicate Passes(s: Script, r: Result, b: nat, log: seq<Byte>, calls: seq<nat>, x: Thread)
    requires r.Next?
  {
    r.event == Executed(x.serial, b) && IsHead(r.vm, x) && PassedAt(s, b, log, calls, x)
  }

  lemma WaitingAsleep(s: Script, vm: Vm, input: Input, b: nat, log: seq<Byte>, calls: seq<nat>, t: Thread)
    returns (x: Thread)
    requires Ordered(vm) && Dormant(vm, t) && WaitingAt(s, b, log, calls, t)
    requires Step(Some(s), vm, input).Next?
    ensures var r := Step(Some(s), vm, input);
            r.event == Erased(t.serial)
            || (x.serial == t.serial && KeepsWaiting(s, r, b, log, calls, Due(vm, t), x))
  {
    var r := Step(Some(s), vm, input);
    x := SleepStep(Some(s), vm, input, t);
    StepKeepsOrdered(Some(s), vm, input);
    if Touches(r.event, t.serial) {
      x := t.(sleep := 0, bytesRead := 0);
      if r.event != Erased(t.serial) {
        HeadIsNotDormant(r.vm, x);
      }
    } else if r.vm.running && r.vm.todo != [] {
      DormantIsNotRunning(r.vm, x);
    }
  }

  lemma AsleepTriesNothing(s: Script, vm: Vm, input: Input, t: Thread)
    requires Ordered(vm) && Dormant(vm, t) && Step(Some(s), vm, input).Next?
    ensures !Tries(Step(Some(s), vm, input).event, t.serial)
  {
    hide ReadOpcode;
    if input.Tick? && vm.running && vm.todo != [] {
      DormantIsNotRunning(vm, t);
    }
  }

  lemma HeadIsNotDormant(vm: Vm, t: Thread)
    requires Ordered(vm) && IsHead(vm, t)
    ensures !Dormant(vm, t)
  {
    if Dormant(vm, t) {
      DormantIsNotRunning(vm, t);
    }
  }

  /** What one step does to a thread that waits at b. */
  lemma WaitingStep(s: Script, vm: Vm, input: Input, b: nat, log: seq<Byte>, calls: seq<nat>, t: Thread)
    returns (x: Thread)
    requires Ordered(vm) && WaitsAt(s, vm, b, log, calls, t)
    requires Step(Some(s), vm, input).Next?
    ensures var r := Step(Some(s), vm, input);
            r.event == Erased(t.serial)
            || (x.serial == t.serial
                && (KeepsWaiting(s, r, b, log, calls, NextTry(vm, t), x)
                    || (Passes(s, r, b, log, calls, x) && r.vm.frame == NextTry(vm, t))))
    ensures var r := Step(Some(s), vm, input);
            Tries(r.event, t.serial) ==>
              input.Tick? && (Passes(s, r, b, log, calls, x) <==> Enough(s, b, vm.ctl, input.world))
  {
    hide Enough;
    if Dormant(vm, t) {
      x := WaitingAsleep(s, vm, input, b, log, calls, t);
      AsleepTriesNothing(s, vm, input, t);
    } else if input.Launch? {
      x := t;
    } else {
      x := BlockingTurn(s, vm, input.world, t);
      assert t.retryBlock;
      FrameOfTurn(s, vm, input.world);
    }
  }

  lemma FrameOfTurn(s: Script, vm: Vm, w: World)
    requires vm.todo != [] && vm.ctl.Shaped() && Turn(s, vm, w).Next?
    ensures Turn(s, vm, w).vm.frame == vm.frame
  {
    hide ReadOpcode;
  }

  /** The instance is over: the thread has passed the opcode, or it was erased. */
  ghost predicate Over(s: Script, r: Result, b: nat, log: seq<Byte>, calls: seq<nat>, serial: nat) {
    && r.Next?
    && (r.event == Erased(serial)
        || exists x: Thread :: x.serial == serial && Passes(s, r, b, log, calls, x))
  }

  /** The thread waits at b and will execute it again in the pass due. */
  ghost predicate StillWaiting(
    s: Script, vm: Vm, b: nat, log: seq<Byte>, calls: seq<nat>, serial: nat, due: nat)
  {
    exists x: Thread :: x.serial == serial && WaitsAt(s, vm, b, log, calls, x) && NextTry(vm, x) == due
  }

  predicate ExecutesOnlyAt(tr: seq<Event>, serial: nat, b: nat) {
    forall i :: 0 <= i < |tr| && Tries(tr[i], serial) ==> tr[i].at == b
  }

  lemma WaitingContinues(
    s: Script, vm: Vm, input: Input, b: nat, log: seq<Byte>, calls: seq<nat>, serial: nat, due: nat)
    requires Ordered(vm) && StillWaiting(s, vm, b, log, calls, serial, due)
    requires var r := Step(Some(s), vm, input); r.Next? && !Over(s, r, b, log, calls, serial)
    ensures var r := Step(Some(s), vm, input);
            if Tries(r.event, serial)
            then input.Tick? && !Enough(s, b, vm.ctl, input.world) && r.event.at == b && r.vm.frame == due
                 && StillWaiting(s, r.vm, b, log, calls, serial, due + 31)
            else StillWaiting(s, r.vm, b, log, calls, serial, due)
  {
    var t: Thread :| t.serial == serial && WaitsAt(s, vm, b, log, calls, t) && NextTry(vm, t) == due;
    var x := WaitingStep(s, vm, input, b, log, calls, t);
  }

  /** The passes in which a thread executes opcodes during a run, in order. */
  function TryFrames(binary: Option<Script>, vm: Vm, inputs: seq<Input>, serial: nat): seq<nat>
    requires vm.ctl.Shaped() && Run(binary, vm, inputs).Next?
    decreases |inputs|
  {
    if inputs == [] then []
    else
      var r := Run(binary, vm, inputs);
      TryFrames(binary, vm, inputs[..|inputs| - 1], serial) + if Tries(r.event, serial) then [r.vm.frame] else []
  }

  /** Whatever the thread executed during a run, the answer was not enough. */
  ghost predicate TriesFail(s: Script, vm: Vm, inputs: seq<Input>, b: nat, serial: nat)
    requires vm.ctl.Shaped() && Run(Some(s), vm, inputs).Next?
  {
    forall i :: 0 <= i < |inputs| && Tries(Trace(Some(s), vm, inputs)[i], serial) ==>
      && inputs[i].Tick? && After(Some(s), vm, inputs, i).Next?
      && !Enough(s, b, After(Some(s), vm, inputs, i).vm.ctl, inputs[i].world)
  }

  lemma NothingTried(s: Script, vm: Vm, b: nat, serial: nat)
    requires vm.ctl.Shaped()
    ensures TriesFail(s, vm, [], b, serial)
  {
  }

  lemma OneMoreTry(s: Script, vm: Vm, inputs: seq<Input>, b: nat, serial: nat)
    requires vm.ctl.Shaped() && inputs != [] && Run(Some(s), vm, inputs).Next?
    requires var n := |inputs| - 1;
             && Run(Some(s), vm, inputs[..n]).Next? && TriesFail(s, vm, inputs[..n], b, serial)
             && (Tries(Run(Some(s), vm, inputs).event, serial) ==>
                   inputs[n].Tick? && !Enough(s, b, Run(Some(s), vm, inputs[..n]).vm.ctl, inputs[n].world))
    ensures TriesFail(s, vm, inputs, b, serial)
  {
    hide Run, Enough;
    var n := |inputs| - 1;
    var before := inputs[..n];
    forall i | 0 <= i < |inputs| && Tries(Trace(Some(s), vm, inputs)[i], serial)
      ensures inputs[i].Tick? && After(Some(s), vm, inputs, i).Next?
              && !Enough(s, b, After(Some(s), vm, inputs, i).vm.ctl, inputs[i].world)
    {
      if i < n {
        assert Trace(Some(s), vm, inputs)[i] == Trace(Some(s), vm, before)[i];
        assert before[..i] == inputs[..i];
      }
    }
  }

  /**
    Retry transparency.  From the first blocking execution on, however long the run and
    however often the opcode is retried, the thread sits at the opcode's first byte with
    the same call stack and the same log, until it passes the opcode with that same log.
    The retries lie exactly 31 passes apart: 30 passes are skipped between two of them.
    Every one of them had too few units, or unfinished upgrades.
   */
  lemma {:induction false} RetryLaw(
    s: Script, vm: Vm, inputs: seq<Input>, b: nat, log: seq<Byte>, calls: seq<nat>, serial: nat, due: nat)
    requires Ordered(vm) && StillWaiting(s, vm, b, log, calls, serial, due)
    requires Run(Some(s), vm, inputs).Next?
    requires NeverOver(s, vm, inputs, b, log, calls, serial)
    ensures var tries := TryFrames(Some(s), vm, inputs, serial);
            && StillWaiting(s, Run(Some(s), vm, inputs).vm, b, log, calls, serial, due + 31 * |tries|)
            && forall i :: 0 <= i < |tries| ==> tries[i] == due + 31 * i
    ensures ExecutesOnlyAt(Trace(Some(s), vm, inputs), serial, b)
    ensures TriesFail(s, vm, inputs, b, serial)
    decreases |inputs|
  {
    hide StillWaiting, NeverOver, Over, Step, Ordered, TriesFail, Enough;
    OrderedIsShaped(vm);
    if inputs == [] {
      NothingTried(s, vm, b, serial);
    } else {
      var n := |inputs| - 1;
      var before := inputs[..n];
      NotOverBefore(s, vm, inputs, b, log, calls, serial);
      RetryLaw(s, vm, before, b, log, calls, serial, due);
      ReachableIsOrdered(Some(s), vm, before);
      var m := Run(Some(s), vm, before).vm;
      WaitingContinues(s, m, inputs[n], b, log, calls, serial, due + 31 * |TryFrames(Some(s), vm, before, serial)|);
      OneMoreTry(s, vm, inputs, b, serial);
    }
  }

  /** The execution that ends an instance comes in its turn too, and its answer is enough,
      unless the thread is erased. */
  lemma InstanceEnds(
    s: Script, vm: Vm, inputs: seq<Input>, input: Input,
    b: nat, log: seq<Byte>, calls: seq<nat>, serial: nat, due: nat)
    requires Ordered(vm) && StillWaiting(s, vm, b, log, calls, serial, due)
    requires Run(Some(s), vm, inputs).Next? && NeverOver(s, vm, inputs, b, log, calls, serial)
    requires Over(s, Step(Some(s), Run(Some(s), vm, inputs).vm, input), b, log, calls, serial)
    ensures var r := Step(Some(s), Run(Some(s), vm, inputs).vm, input);
            || r.event == Erased(serial)
            || (r.event == Executed(serial, b)
                && r.vm.frame == due + 31 * |TryFrames(Some(s), vm, inputs, serial)|
                && input.Tick? && Enough(s, b, Run(Some(s), vm, inputs).vm.ctl, input.world))
  {
    hide StillWaiting, NeverOver, Over, Step, Ordered, Trace, TryFrames, Enough;
    OrderedIsShaped(vm);
    RetryLaw(s, vm, inputs, b, log, calls, serial, due);
    ReachableIsOrdered(Some(s), vm, inputs);
    EndsInTurn(s, Run(Some(s), vm, inputs).vm, input, b, log, calls, serial,
               due + 31 * |TryFrames(Some(s), vm, inputs, serial)|);
  }

  lemma EndsInTurn(
    s: Script, vm: Vm, input: Input, b: nat, log: seq<Byte>, calls: seq<nat>, serial: nat, due: nat)
    requires Ordered(vm) && StillWaiting(s, vm, b, log, calls, serial, due)
    requires Over(s, Step(Some(s), vm, input), b, log, calls, serial)
    ensures var r := Step(Some(s), vm, input);
            || r.event == Erased(serial)
            || (r.event == Executed(serial, b) && r.vm.frame == due
                && input.Tick? && Enough(s, b, vm.ctl, input.world))
  {
    OrderedIsShaped(vm);
    hide Step, Enough, Ordered, WaitsAt, NextTry, PassedAt, IsHead;
    var r := Step(Some(s), vm, input);
    var t: Thread :| t.serial == serial && WaitsAt(s, vm, b, log, calls, t) && NextTry(vm, t) == due;
    var x := WaitingStep(s, vm, input, b, log, calls, t);
    if r.event != Erased(serial) {
      var y: Thread :| y.serial == serial && Passes(s, r, b, log, calls, y);
      StepKeepsOrdered(Some(s), vm, input);
      if WaitsAt(s, r.vm, b, log, calls, x) {
        WaitingIsNotPassing(s, r.vm, b, log, calls, x, y);
      }
    }
  }

  lemma WaitingIsNotPassing(
    s: Script, vm: Vm, b: nat, log: seq<Byte>, calls: seq<nat>, x: Thread, y: Thread)
    requires Ordered(vm) && x.serial == y.serial && WaitsAt(s, vm, b, log, calls, x)
    ensures !(IsHead(vm, y) && PassedAt(s, b, log, calls, y))
  {
    if Dormant(vm, x) && vm.running {
      DormantIsNotRunning(vm, x);
    }
  }

  lemma OrderedIsShaped(vm: Vm)
    requires Ordered(vm)
    ensures vm.ctl.Shaped()
  {
  }

  /** No state of the run, after its start, ends the instance. */
  ghost predicate NeverOver(
    s: Script, vm: Vm, inputs: seq<Input>, b: nat, log: seq<Byte>, calls: seq<nat>, serial: nat)
    requires vm.ctl.Shaped()
  {
    forall k :: 0 < k <= |inputs| ==> !Over(s, After(Some(s), vm, inputs, k), b, log, calls, serial)
  }

  lemma NotOverBefore(
    s: Script, vm: Vm, inputs: seq<Input>, b: nat, log: seq<Byte>, calls: seq<nat>, serial: nat)
    requires vm.ctl.Shaped() && inputs != [] && NeverOver(s, vm, inputs, b, log, calls, serial)
    ensures NeverOver(s, vm, inputs[..|inputs| - 1], b, log, calls, serial)
    ensures !Over(s, Run(Some(s), vm, inputs), b, log, calls, serial)
  {
    hide Over, Run;
    var n := |inputs| - 1;
    var before := inputs[..n];
    forall k | 0 < k <= n ensures !Over(s, After(Some(s), vm, before, k), b, log, calls, serial) {
      assert before[..k] == inputs[..k];
      assert !Over(s, After(Some(s), vm, inputs, k), b, log, calls, serial);
    }
    assert inputs[..n + 1] == inputs;
    assert !Over(s, After(Some(s), vm, inputs, n + 1), b, log, calls, serial);
  }

  /**
    The whole life of one blocking instance: the first execution logs one entry; if it
    blocks, the thread is due again after exactly 30 skipped passes and RetryLaw takes over.
   */
  lemma InstanceBegins(s: Script, vm: Vm, w: World, t: Thread) returns (x: Thread)
    requires Ordered(vm) && IsHead(vm, t) && BlockingAt(s, t.offset)
    requires t.bytesRead == 0 && t.sleep == 0 && !t.retryBlock && Turn(s, vm, w).Next?
    ensures var r := Turn(s, vm, w);
            var log := PushLog(t.log, s.code[t.offset]);
            || (x.serial == t.serial && IsHead(r.vm, x) && PassedAt(s, t.offset, log, t.calls, x)
                && Enough(s, t.offset, vm.ctl, w))
            || (!Enough(s, t.offset, vm.ctl, w)
                && StillWaiting(s, r.vm, t.offset, log, t.calls, t.serial, r.vm.frame + 31)
                && Dormant(r.vm, x) && x.serial == t.serial && x.sleep == 30
                && Due(r.vm, x) == r.vm.frame + 31)
  {
    x := BlockingTurn(s, vm, w, t);
  }

  // ---- calls ----

  function Find(ts: seq<Thread>, serial: nat): Option<Thread> {
    if ts == [] then None
    else if ts[0].serial == serial then Some(ts[0])
    else Find(ts[1..], serial)
  }

  lemma {:induction false} FindFinds(ts: seq<Thread>, i: nat)
    requires i < |ts| && forall k :: 0 <= k < i ==> ts[k].serial != ts[i].serial
    ensures Find(ts, ts[i].serial) == Some(ts[i])
  {
    if i == 0 {
    } else {
      assert ts[0].serial != ts[i].serial;
      FindFinds(ts[1..], i - 1);
    }
  }

  lemma {:induction false} FindIsMember(ts: seq<Thread>, serial: nat)
    ensures var f := Find(ts, serial); f.Some? ==> f.value in ts && f.value.serial == serial
  {
    if ts == [] || ts[0].serial == serial {
    } else {
      FindIsMember(ts[1..], serial);
    }
  }

  lemma HeldIsFound(vm: Vm, t: Thread)
    requires Ordered(vm)
    ensures Holds(vm, t) ==> Find(vm.All(), t.serial) == Some(t)
    ensures t in vm.All() ==> Holds(vm, t)
  {
    if t in vm.All() {
      AllSerials(vm);
      assert t in Reached(vm) + Rest(vm);
    }
    if Holds(vm, t) {
      assert t in vm.All() by {
        if t in Rest(vm) {
          assert t in vm.todo;
        }
      }
      var i :| 0 <= i < |vm.All()| && vm.All()[i] == t;
      forall k | 0 <= k < i ensures vm.All()[k].serial != vm.All()[i].serial {
        SerialsDiffer(vm, k, i);
      }
      FindFinds(vm.All(), i);
    }
  }

  /** How one opcode may change the call stack. */
  ghost predicate StackMove(t: Thread, x: Thread) {
    || x.calls == t.calls
    || (|x.calls| == |t.calls| + 1 && x.calls[..|t.calls|] == t.calls)
    || (|t.calls| > 0 && x.calls == t.calls[..|t.calls| - 1] && x.offset == t.calls[|t.calls| - 1])
  }

  lemma OpcodeStackMove(s: Script, t: Thread, ctl: Controller, w: World)
    requires ctl.Shaped() && ReadOpcode(s, t, ctl, w).Ran?
    ensures StackMove(t, ReadOpcode(s, t, ctl, w).thread)
  {
    hide FlowOf, ControllerEffect, Follow;
    var op := s.code[t.offset];
    if op in s.table {
      var h := s.table[op];
      FollowStackMove(FlowOf(s.code, h, t.offset + 1, ctl, w), SaveDebug(Advance(t, 1 + h.width), op),
                      ControllerEffect(s.code, h, t.offset + 1, ctl, w));
    }
  }

  lemma FollowStackMove(flow: Flow, u: Thread, c: Controller)
    ensures Follow(flow, u, c).Ran? ==> StackMove(u, Follow(flow, u, c).thread)
  {
  }

  lemma StackStep(binary: Option<Script>, vm: Vm, input: Input, t: Thread) returns (x: Thread)
    requires Ordered(vm) && (vm.running ==> binary.Some?) && Holds(vm, t)
    requires Step(binary, vm, input).Next?
    ensures var r := Step(binary, vm, input);
            r.event == Erased(t.serial)
            || (x.serial == t.serial && x in r.vm.All() && StackMove(t, x))
  {
    var r := Step(binary, vm, input);
    if Dormant(vm, t) {
      x := SleepStep(binary, vm, input, t);
      if r.event == Started(t.serial) {
        x := StartedThread(binary.Some?, vm, t);
      }
    } else if input.Launch? {
      x := t;
    } else {
      var o := ReadOpcode(binary.value, t, vm.ctl, input.world);
      OpcodeStackMove(binary.value, t, vm.ctl, input.world);
      OpcodeKeepsIdentity(binary.value, t, vm.ctl, input.world);
      x := SettledHead(vm, o);
    }
  }

  lemma StartedThread(loaded: bool, vm: Vm, t: Thread) returns (x: Thread)
    requires Ordered(vm) && !vm.running && vm.todo != [] && Dormant(vm, t)
    requires Visit(loaded, vm).event == Started(t.serial)
    ensures x.serial == t.serial && x in Visit(loaded, vm).vm.All() && x.calls == t.calls
  {
    var u := SleepThroughVisit(loaded, vm, t);
    x := if loaded then t.(bytesRead := 0) else Kill(t.(bytesRead := 0));
    var v := Visit(loaded, vm).vm;
    assert v.All()[|vm.done|] == x;
  }

  lemma SettledHead(vm: Vm, o: Outcome) returns (x: Thread)
    requires vm.running && vm.todo != [] && o.Ran?
    ensures x in Settle(vm, o).All()
    ensures x == o.thread.(wantKilled := x.wantKilled)
  {
    var a, v := Applied(vm, o), Settle(vm, o);
    assert a.todo[0] == if o.killAll then Marked(o.thread) else o.thread;
    x := v.All()[|a.done|];
  }

  /** The thread with this serial, in a state that still lists it. */
  ghost predicate ListedWith(r: Result, serial: nat, depth: nat) {
    && r.Next?
    && var f := Find(r.vm.All(), serial); f.Some? && |f.value.calls| > depth
  }

  ghost predicate AboveCall(vm: Vm, serial: nat, lower: seq<nat>, back: nat) {
    && var f := Find(vm.All(), serial);
       f.Some? && |f.value.calls| > |lower| && f.value.calls[..|lower| + 1] == lower + [back]
  }

  ghost predicate ReturnedFrom(vm: Vm, serial: nat, lower: seq<nat>, back: nat) {
    && var f := Find(vm.All(), serial);
       f.Some? && f.value.calls == lower && f.value.offset == back
  }

  /** One step of a thread whose stack still reaches above the call. */
  lemma AboveCallStep(
    binary: Option<Script>, vm: Vm, input: Input, serial: nat, lower: seq<nat>, back: nat)
    requires Ordered(vm) && (vm.running ==> binary.Some?) && AboveCall(vm, serial, lower, back)
    requires var r := Step(binary, vm, input); r.Next? && Find(r.vm.All(), serial).Some?
    ensures var v := Step(binary, vm, input).vm;
            AboveCall(v, serial, lower, back) || ReturnedFrom(v, serial, lower, back)
  {
    var r := Step(binary, vm, input);
    FindIsMember(vm.All(), serial);
    var t := Find(vm.All(), serial).value;
    HeldIsFound(vm, t);
    var x := StackStep(binary, vm, input, t);
    FindIsMember(r.vm.All(), serial);
    if r.event == Erased(serial) {
      ErasedIsGone(binary, vm, input, t);
    } else {
      StepKeepsOrdered(binary, vm, input);
      HeldIsFound(r.vm, x);
      assert t.calls[|lower|] == t.calls[..|lower| + 1][|lower|] == back;
      assert |x.calls| > |lower| ==> x.calls[..|lower| + 1] == t.calls[..|lower| + 1];
    }
  }

  /**
    A balanced run resumes after the call.  The thread's stack has the return address back
    on top of the caller's stack lower.  As long as the stack stays above lower, both are
    untouched, and the step that brings the depth back to lower resumes at back.
   */
  lemma {:induction false} BalancedRunReturns(
    binary: Option<Script>, vm: Vm, inputs: seq<Input>, serial: nat, lower: seq<nat>, back: nat)
    requires Ordered(vm) && (vm.running ==> binary.Some?) && AboveCall(vm, serial, lower, back)
    requires forall k :: 0 <= k < |inputs| ==> ListedWith(After(binary, vm, inputs, k), serial, |lower|)
    requires var r := Run(binary, vm, inputs); r.Next? && Find(r.vm.All(), serial).Some?
    ensures var v := Run(binary, vm, inputs).vm;
            if |Find(v.All(), serial).value.calls| > |lower| then AboveCall(v, serial, lower, back)
            else ReturnedFrom(v, serial, lower, back)
    decreases |inputs|
  {
    if inputs == [] {
    } else {
      var n := |inputs| - 1;
      var before := inputs[..n];
      forall k | 0 <= k < n ensures ListedWith(After(binary, vm, before, k), serial, |lower|) {
        assert before[..k] == inputs[..k];
        assert ListedWith(After(binary, vm, inputs, k), serial, |lower|);
      }
      assert ListedWith(After(binary, vm, inputs, n), serial, |lower|);
      BalancedRunReturns(binary, vm, before, serial, lower, back);
      ReachableIsOrdered(binary, vm, before);
      AboveCallStep(binary, Run(binary, vm, before).vm, inputs[n], serial, lower, back);
    }
  }

  lemma ErasedIsGone(binary: Option<Script>, vm: Vm, input: Input, t: Thread)
    requires Ordered(vm) && (vm.running ==> binary.Some?) && Holds(vm, t)
    requires var r := Step(binary, vm, input); r.Next? && r.event == Erased(t.serial)
    ensures forall u :: u in Step(binary, vm, input).vm.All() ==> u.serial != t.serial
  {
    var r := Step(binary, vm, input);
    if Dormant(vm, t) {
      var x := SleepStep(binary, vm, input, t);
      ErasedIsAbsent(vm, vm.todo[0]);
      forall u | u in r.vm.All() ensures u.serial != t.serial {
        var i :| 0 <= i < |r.vm.All()| && r.vm.All()[i] == u;
        assert Serials(r.vm.All())[i] == u.serial;
      }
    }
  }

  /** CALL pushes the address of the instruction behind its operand. */
  lemma CallPushesNext(s: Script, t: Thread, ctl: Controller, w: World)
    requires ctl.Shaped() && t.offset < |s.code| && s.code[t.offset] in s.table
    requires s.table[s.code[t.offset]].action == Action.Call && ReadOpcode(s, t, ctl, w).Ran?
    ensures var o := ReadOpcode(s, t, ctl, w);
            && o.thread.calls == t.calls + [Behind(s, t.offset)]
            && o.thread.offset == Word(s.code, t.offset + 1)
            && o.goOn && o.spawn.None? && !o.killAll
  {
  }

  /** Executing CALL puts the address behind its operand on top of the caller's stack. */
  lemma CallOpensFrame(binary: Option<Script>, vm: Vm, w: World)
    requires Ordered(vm) && vm.running && binary.Some? && CallsAt(binary.value, vm.todo[0].offset)
    requires Step(binary, vm, Tick(w)).Next?
    ensures var t, v := vm.todo[0], Step(binary, vm, Tick(w)).vm;
            Ordered(v) && AboveCall(v, t.serial, t.calls, Behind(binary.value, t.offset))
  {
    var s, t := binary.value, vm.todo[0];
    var o := ReadOpcode(s, t, vm.ctl, w);
    CallPushesNext(s, t, vm.ctl, w);
    OpcodeKeepsIdentity(s, t, vm.ctl, w);
    StepKeepsOrdered(binary, vm, Tick(w));
    hide ReadOpcode, Ordered, Behind;
    var x := SettledHead(vm, o);
    var v := Settle(vm, o);
    hide Settle;
    HeldIsFound(v, x);
  }

  predicate CallsAt(s: Script, at: nat) {
    at < |s.code| && s.code[at] in s.table && s.table[s.code[at]].action == Action.Call
  }

  /**
    CALL followed by a balanced run: when the depth first comes back to the caller's, the
    thread resumes behind the operand of the call with the caller's stack as it was.
   */
  lemma CallReturns(binary: Option<Script>, vm: Vm, w: World, inputs: seq<Input>)
    requires Ordered(vm) && vm.running && binary.Some? && CallsAt(binary.value, vm.todo[0].offset)
    requires Step(binary, vm, Tick(w)).Next? && Step(binary, vm, Tick(w)).vm.ctl.Shaped()
    requires var t, v := vm.todo[0], Step(binary, vm, Tick(w)).vm;
             && (forall k :: 0 <= k < |inputs| ==> ListedWith(After(binary, v, inputs, k), t.serial, |t.calls|))
             && var r := Run(binary, v, inputs);
                r.Next? && Find(r.vm.All(), t.serial).Some? && |Find(r.vm.All(), t.serial).value.calls| <= |t.calls|
    ensures var t, v := vm.todo[0], Step(binary, vm, Tick(w)).vm;
            ReturnedFrom(Run(binary, v, inputs).vm, t.serial, t.calls, Behind(binary.value, t.offset))
  {
    var t, v := vm.todo[0], Step(binary, vm, Tick(w)).vm;
    var back := Behind(binary.value, t.offset);
    hide Step, Ordered, AboveCall, ReturnedFrom, ListedWith, Behind, CallsAt;
    CallOpensFrame(binary, vm, w);
    BalancedRunReturns(binary, v, inputs, t.serial, t.calls, back);
  }
}
