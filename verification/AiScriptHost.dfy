/**
  The script engine itself: the thread list, the controller and the loops of the source,
  proved to run the machine of AiScriptMachine.  A script can keep the read loop busy for
  ever, so UpdateScripts is given the game's answers as a finite list, one per opcode,
  and stops in mid-pass when they run out.
 */
module AiScriptHost {
  import opened Common
  import opened AiScriptCode
  import opened AiScriptThread
  import M = AiScriptMachine
  import Slots = ControllerSlots
  import Safety = AiScriptSafety
  import Frame = AiScriptFrame

  function Values(ts: seq<AiThread>): (r: seq<M.Thread>)
    reads ts
    ensures |r| == |ts|
  {
    seq(|ts|, i requires 0 <= i < |ts| reads ts => ts[i].Value())
  }

  ghost predicate AllDistinct(ts: seq<AiThread>) {
    forall i, j :: 0 <= i < j < |ts| ==> ts[i] != ts[j]
  }

  function Tables(table: array2<nat>): (r: seq<seq<nat>>)
    requires table.Length0 == Slots.DEFENSE_ROWS
    reads table
    ensures |r| == Slots.DEFENSE_ROWS
  {
    seq(Slots.DEFENSE_ROWS, r requires 0 <= r < Slots.DEFENSE_ROWS reads table => Slots.Row(table, r))
  }

  function ControllerValue(c: Slots.AIController): M.Controller
    requires c.Valid()
    reads c, c.attackGroups, c.defenseBuild, c.defenseUse
  {
    M.Controller(c.ifDif, c.upgradesFinished, c.waitForType, c.attackGroups[..],
                 Tables(c.defenseBuild), Tables(c.defenseUse))
  }

  /** What a handler does to the controller, through the controller's own methods. */
  method UpdateController(c: Slots.AIController, code: Code, h: Handler, at: nat, w: M.World)
    requires c.Valid() && at + h.width <= |code|
    modifies c, c.attackGroups, c.defenseBuild, c.defenseUse
    ensures c.Valid()
    ensures old(ControllerValue(c)).Shaped()
    ensures ControllerValue(c) == M.ControllerEffect(code, h, at, old(ControllerValue(c)), w)
  {
    ghost var was := ControllerValue(c);
    match h.action
    case StartTown =>
      c.ifDif := 1;
    case Train =>
      if w.unitCount < code[at] {
        c.waitForType := (Word(code, at + 1) + 1) % 65536;
      }
    case DoMorph =>
      if w.unitCount < code[at] {
        c.waitForType := (Word(code, at + 1) + 1) % 65536;
      }
    case AttackAdd =>
      c.AttackAdd(code[at], Word(code, at + 1));
    case EasyAttack =>
      if c.ifDif > 0 {
        return;
      }
      c.AttackAdd(code[at], Word(code, at + 1));
    case AttackClear =>
      c.AttackClear();
    case DefenseBuild(r) =>
      c.DefenseBuild(r, code[at], Word(code, at + 1));
      assert Tables(c.defenseBuild) == was.defenseBuild[r :=
        Slots.DefenseAdded(was.defenseBuild[r], code[at], Word(code, at + 1))];
    case DefenseUse(r) =>
      c.DefenseUse(r, code[at], Word(code, at + 1));
      assert Tables(c.defenseUse) == was.defenseUse[r :=
        Slots.DefenseAdded(was.defenseUse[r], code[at], Word(code, at + 1))];
    case DefenseClear(r) =>
      c.DefenseClear(r);
      assert Tables(c.defenseBuild) == was.defenseBuild[r := Slots.Zeroes(10)];
      assert Tables(c.defenseUse) == was.defenseUse[r := Slots.Zeroes(10)];
    case _ =>
  }

  class ScriptHost {
    const binary: Option<Script>
    const controller: Slots.AIController
    var threads: seq<AiThread>
    var threadCount: int
    var nextSerial: nat
    var frame: nat

    ghost predicate Valid()
      reads this, controller
    {
      controller.Valid() && AllDistinct(threads)
    }

    /** The code is None when the script file could not be loaded. */
    constructor (code: Option<Code>)
      ensures Valid() && fresh(controller)
      ensures binary == if code.Some? then Some(Script(code.value, OPCODE_LIST)) else None
      ensures Snapshot(0, false) == M.INITIAL
    {
      this.binary := if code.Some? then Some(Script(code.value, OPCODE_LIST)) else None;
      controller := new Slots.AIController();
      threads, threadCount, nextSerial, frame := [], 0, 0, 0;
      new;
      assert Tables(controller.defenseBuild) == M.EMPTY_CONTROLLER.defenseBuild;
      assert Tables(controller.defenseUse) == M.EMPTY_CONTROLLER.defenseUse;
    }

    /** The machine state when the loop's iterator stands at position i. */
    function Snapshot(i: nat, running: bool): M.Vm
      requires controller.Valid() && i <= |threads|
      reads this, threads, controller, controller.attackGroups, controller.defenseBuild, controller.defenseUse
    {
      M.Vm(Values(threads[..i]), Values(threads[i..]), running, frame, threadCount, nextSerial,
           ControllerValue(controller))
    }

    /** AICreateThread: the new thread goes to the front of the list. */
    method CreateThread(startBlock: nat, ghost i: nat)
      requires Valid() && i <= |threads|
      modifies this`threads, this`threadCount, this`nextSerial
      ensures Valid()
      ensures |threads| == old(|threads|) + 1 && fresh(threads[0]) && threads[1..] == old(threads)
      ensures forall running :: Snapshot(i + 1, running) == M.Spawn(old(Snapshot(i, running)), startBlock)
    {
      var t := new AiThread(nextSerial, startBlock);
      threads := [t] + threads;
      threadCount := threadCount + 1;
      nextSerial := nextSerial + 1;
      assert Values(threads[..i + 1]) == [t.Value()] + old(Values(threads[..i]));
      assert Values(threads[i + 1..]) == old(Values(threads[i..]));
    }

    /** KILL_THREAD marks every killable thread of the list. */
    method KillKillable(ghost i: nat)
      requires Valid() && i <= |threads|
      modifies threads
      ensures Valid()
      ensures forall running :: Snapshot(i, running) == old(Snapshot(i, running)).(
                done := M.MarkKillable(old(Snapshot(i, running)).done),
                todo := M.MarkKillable(old(Snapshot(i, running)).todo))
    {
      for k := 0 to |threads|
        invariant forall j :: 0 <= j < |threads| ==>
                    threads[j].Value() ==
                    if j < k && old(threads[j].killable) then M.Kill(old(threads[j].Value()))
                    else old(threads[j].Value())
      {
        if threads[k].killable {
          threads[k].KillThread();
        }
      }
      assert Values(threads[..i]) == M.MarkKillable(old(Values(threads[..i])));
      assert Values(threads[i..]) == M.MarkKillable(old(Values(threads[i..])));
    }

    /** Opcode::readOpcode on the thread the iterator stands on, with its effects on the list. */
    method ReadOpcode(i: nat, w: M.World) returns (goOn: bool, j: nat)
      requires Valid() && i < |threads| && binary.Some?
      requires M.ReadOpcode(binary.value, threads[i].Value(), ControllerValue(controller), w).Ran?
      requires threads[i].bytesRead == 0
      modifies this`threads, this`threadCount, this`nextSerial, threads
      modifies controller, controller.attackGroups, controller.defenseBuild, controller.defenseUse
      ensures Valid()
      ensures i <= j < |threads| && threads[j] == old(threads[i])
      ensures |threads| - j == old(|threads|) - i
      ensures forall k :: 0 <= k < |threads| ==> threads[k] in old(threads) || fresh(threads[k])
      ensures var o := old(M.ReadOpcode(binary.value, threads[i].Value(), ControllerValue(controller), w));
              goOn == o.goOn && Snapshot(j, true) == M.Applied(old(Snapshot(i, true)), o)
    {
      ghost var vm := Snapshot(i, true);
      ghost var o := M.ReadOpcode(binary.value, threads[i].Value(), ControllerValue(controller), w);
      hide M.ReadOpcode;
      var spawn, killAll;
      goOn, spawn, killAll := RunOpcode(binary.value, threads[i], controller, w);
      assert Values(threads[..i]) == vm.done;
      assert Values(threads[i..]) == [o.thread] + vm.todo[1..];
      assert Snapshot(i, true) == vm.(todo := [o.thread] + vm.todo[1..], ctl := o.ctl);
      j := i;
      if spawn.Some? {
        CreateThread(spawn.value, i);
        j := i + 1;
      }
      if killAll {
        KillKillable(j);
      }
    }

    /** This run of the machine has reached the given state, using the given answers. */
    ghost predicate Reached(start: M.Vm, inputs: seq<M.Input>, vm: M.Vm, answers: seq<M.World>) {
      && start.ctl.Shaped() && Frame.Ticks(inputs)
      && var r := M.Run(binary, start, inputs);
         r.Next? && r.vm == vm && Frame.Answers(binary, start, inputs) == answers
    }

    lemma ReachedNext(start: M.Vm, inputs: seq<M.Input>, vm: M.Vm, answers: seq<M.World>, input: M.Input)
      requires Reached(start, inputs, vm, answers) && input.Tick? && M.Step(binary, vm, input).Next?
      ensures var r := M.Step(binary, vm, input);
              Reached(start, inputs + [input], r.vm, answers + Frame.AnswerOf(r.event, input))
    {
      hide M.Step;
      Frame.RunExtends(binary, start, inputs, input);
    }

    ghost predicate SafeAt(B: set<nat>, vm: M.Vm) {
      binary.Some? ==> Safety.Closed(binary.value, B) && Safety.Safe(binary.value, B, vm)
    }

    lemma SafeNext(B: set<nat>, vm: M.Vm, w: M.World)
      requires vm.ctl.Shaped() && SafeAt(B, vm)
      requires vm.running ==> binary.Some?
      ensures var r := M.Step(binary, vm, M.Tick(w)); r.Next? && SafeAt(B, r.vm)
    {
      if binary.Some? {
        Safety.StepIsSafe(binary.value, B, vm, M.Tick(w));
      }
    }

    /** One turn of the read loop, as the machine sees it. */
    lemma TurnReached(B: set<nat>, vm: M.Vm, w: M.World)
      requires binary.Some? && SafeAt(B, vm) && vm.running && vm.todo != []
      ensures var o := M.ReadOpcode(binary.value, vm.todo[0], vm.ctl, w);
              o.Ran? && M.Step(binary, vm, M.Tick(w)).Next?
              && M.Step(binary, vm, M.Tick(w)).vm == M.Settle(vm, o)
              && M.Step(binary, vm, M.Tick(w)).event.Executed?
    {
      Safety.OpcodeIsSafe(binary.value, B, vm.todo[0], vm.ctl, w);
    }

    lemma PassAt(i: nat)
      requires Valid() && i < |threads|
      ensures M.Pass(Snapshot(i, true), threads[i].Value()) == Snapshot(i + 1, false)
      ensures M.Pass(Snapshot(i, false), threads[i].Value()) == Snapshot(i + 1, false)
      ensures Snapshot(i, true).todo[0] == threads[i].Value()
    {
      assert Values(threads[..i + 1]) == Values(threads[..i]) + [threads[i].Value()];
      assert Values(threads[i..])[1..] == Values(threads[i + 1..]);
    }

    method KillHead(j: nat)
      requires Valid() && j < |threads|
      modifies threads[j]
      ensures Valid()
      ensures Snapshot(j + 1, false) == M.Pass(old(Snapshot(j, true)), M.Kill(old(threads[j].Value())))
    {
      ghost var vm := Snapshot(j, true);
      threads[j].KillThread();
      assert Values(threads[..j]) == vm.done;
      assert Values(threads[j + 1..]) == vm.todo[1..];
      PassAt(j);
    }

    /** One turn of the read loop; stop when the thread yielded or ran to offset 0. */
    method TakeTurn(i: nat, w: M.World, ghost B: set<nat>,
                    ghost start: M.Vm, ghost inputs: seq<M.Input>, ghost answers: seq<M.World>)
      returns (stop: bool, j: nat)
      requires Valid() && i < |threads| && binary.Some?
      requires SafeAt(B, Snapshot(i, true)) && Reached(start, inputs, Snapshot(i, true), answers)
      modifies this`threads, this`threadCount, this`nextSerial, threads
      modifies controller, controller.attackGroups, controller.defenseBuild, controller.defenseUse
      ensures Valid() && j < |threads| && |threads| - j == old(|threads|) - i
      ensures forall k :: 0 <= k < |threads| ==> threads[k] in old(threads) || fresh(threads[k])
      ensures var vm := if stop then Snapshot(j + 1, false) else Snapshot(j, true);
              SafeAt(B, vm) && Reached(start, inputs + [M.Tick(w)], vm, answers + [w])
    {
      ghost var vm := Snapshot(i, true);
      PassAt(i);
      TurnReached(B, vm, w);
      SafeNext(B, vm, w);
      ReachedNext(start, inputs, vm, answers, M.Tick(w));
      var goOn;
      goOn, j := ReadOpcode(i, w);
      PassAt(j);
      stop := !goOn;
      if goOn && threads[j].scriptOffset == 0 {
        KillHead(j);
        stop := true;
      }
    }

    /**
      The read loop of aithread::execute.  It ends when an opcode asks for a break, when the
      script offset becomes 0, or when the given answers run out.
     */
    method Execute(i: nat, worlds: seq<M.World>, ghost B: set<nat>,
                   ghost start: M.Vm, ghost inputs: seq<M.Input>, ghost answers: seq<M.World>)
      returns (yielded: bool, j: nat, used: nat, ghost inputs': seq<M.Input>)
      requires Valid() && i < |threads| && binary.Some?
      requires SafeAt(B, Snapshot(i, true)) && Reached(start, inputs, Snapshot(i, true), answers)
      modifies this`threads, this`threadCount, this`nextSerial, threads
      modifies controller, controller.attackGroups, controller.defenseBuild, controller.defenseUse
      ensures Valid()
      ensures used <= |worlds| && j < |threads| && |threads| - j == old(|threads|) - i
      ensures !yielded ==> used == |worlds|
      ensures inputs <= inputs'
      ensures forall k :: 0 <= k < |threads| ==> threads[k] in old(threads) || fresh(threads[k])
      ensures var vm := if yielded then Snapshot(j + 1, false) else Snapshot(j, true);
              SafeAt(B, vm) && Reached(start, inputs', vm, answers + worlds[..used])
    {
      hide SafeAt, Reached;
      yielded, j, used, inputs' := false, i, 0, inputs;
      assert answers + worlds[..0] == answers;
      while !yielded && used < |worlds|
        invariant Valid() && used <= |worlds|
        invariant inputs <= inputs'
        invariant j < |threads| && |threads| - j == old(|threads|) - i
        invariant forall k :: 0 <= k < |threads| ==> threads[k] in old(threads) || fresh(threads[k])
        invariant var vm := if yielded then Snapshot(j + 1, false) else Snapshot(j, true);
                  SafeAt(B, vm) && Reached(start, inputs', vm, answers + worlds[..used])
        decreases |worlds| - used
      {
        yielded, j := TakeTurn(j, worlds[used], B, start, inputs', answers + worlds[..used]);
        assert answers + worlds[..used + 1] == answers + worlds[..used] + [worlds[used]];
        inputs' := inputs' + [M.Tick(worlds[used])];
        used := used + 1;
      }
    }

    method EraseAt(i: nat)
      requires Valid() && i < |threads|
      modifies this`threads, this`threadCount
      ensures Valid() && threads == old(threads[..i] + threads[i + 1..])
      ensures Snapshot(i, false) == old(Snapshot(i, false)).(
                todo := old(Snapshot(i, false)).todo[1..], count := old(threadCount) - 1)
    {
      ghost var vm := Snapshot(i, false);
      threads := threads[..i] + threads[i + 1..];
      threadCount := threadCount - 1;
      assert Values(threads[..i]) == vm.done;
      assert Values(threads[i..]) == vm.todo[1..];
    }

    /** The beginning of aithread::execute; without a script the thread is killed. */
    method StartThread(i: nat) returns (started: bool)
      requires Valid() && i < |threads|
      modifies threads[i]
      ensures Valid() && started == binary.Some?
      ensures var vm, t := old(Snapshot(i, false)), old(threads[i].Value()).(bytesRead := 0);
              if started then Snapshot(i, true) == vm.(todo := [t] + vm.todo[1..], running := true)
              else Snapshot(i + 1, false) == M.Pass(vm, M.Kill(t))
    {
      ghost var vm := Snapshot(i, false);
      var t := threads[i];
      t.bytesRead := 0;
      started := binary.Some?;
      if !started {
        t.KillThread();
      }
      assert Values(threads[..i]) == vm.done;
      assert Values(threads[i..]) == [t.Value()] + vm.todo[1..];
      PassAt(i);
    }

    /** One tick of sleep at the iterator; a thread that sleeps is passed over. */
    method SleepAt(i: nat) returns (left: nat)
      requires Valid() && i < |threads|
      modifies threads[i]
      ensures Valid() && left == old(threads[i].Value()).sleep
      ensures var vm, t := old(Snapshot(i, false)), old(threads[i].Value());
              if left > 0 then Snapshot(i + 1, false) == M.Pass(vm, t.(sleep := t.sleep - 1))
              else Snapshot(i, false) == vm && threads[i].Value() == t
    {
      ghost var vm := Snapshot(i, false);
      left := threads[i].Sleep();
      assert Values(threads[..i]) == vm.done;
      assert Values(threads[i..]) == [threads[i].Value()] + vm.todo[1..];
      PassAt(i);
    }

    /** What the loop of UpdateScripts does with the thread at the iterator. */
    method Visit(i: nat) returns (outcome: Visited)
      requires Valid() && i < |threads|
      modifies this`threads, this`threadCount, threads[i]
      ensures Valid()
      ensures threads == if outcome.Gone? then old(threads[..i] + threads[i + 1..]) else old(threads)
      ensures outcome.Started? ==> binary.Some?
      ensures var vm := M.Visit(binary.Some?, old(Snapshot(i, false))).vm;
              match outcome
              case Passed => Snapshot(i + 1, false) == vm
              case Gone => Snapshot(i, false) == vm
              case Started => Snapshot(i, true) == vm
    {
      PassAt(i);
      var left := SleepAt(i);
      if left > 0 {
        return Passed;
      }
      if threads[i].wantKilled {
        EraseAt(i);
        return Gone;
      }
      var started := StartThread(i);
      return if started then Started else Passed;
    }

    lemma VisitReached(B: set<nat>, start: M.Vm, inputs: seq<M.Input>, vm: M.Vm, answers: seq<M.World>)
      requires Reached(start, inputs, vm, answers) && SafeAt(B, vm) && !vm.running && vm.todo != []
      ensures var v := M.Visit(binary.Some?, vm).vm;
              SafeAt(B, v) && Reached(start, inputs + [M.Tick(NO_ANSWER)], v, answers)
    {
      SafeNext(B, vm, NO_ANSWER);
      ReachedNext(start, inputs, vm, answers, M.Tick(NO_ANSWER));
      assert answers + [] == answers;
    }

    lemma PassBegins(B: set<nat>, vm: M.Vm)
      requires SafeAt(B, vm) && vm.AtBoundary() && vm.ctl.Shaped()
      ensures var v := vm.(todo := vm.done, done := [], frame := vm.frame + 1);
              SafeAt(B, v) && Reached(vm, [M.Tick(NO_ANSWER)], v, [])
    {
      assert M.Run(binary, vm, []) == M.Next(vm, M.Idle);
      SafeNext(B, vm, NO_ANSWER);
      ReachedNext(vm, [], vm, [], M.Tick(NO_ANSWER));
      assert [] + [M.Tick(NO_ANSWER)] == [M.Tick(NO_ANSWER)];
    }

    /** One iteration of the loop; complete is false when the answers ran out. */
    method Iterate(i: nat, worlds: seq<M.World>, ghost B: set<nat>,
                   ghost start: M.Vm, ghost inputs: seq<M.Input>, ghost answers: seq<M.World>)
      returns (complete: bool, j: nat, used: nat, ghost inputs': seq<M.Input>)
      requires Valid() && i < |threads|
      requires SafeAt(B, Snapshot(i, false)) && Reached(start, inputs, Snapshot(i, false), answers)
      modifies this`threads, this`threadCount, this`nextSerial, threads
      modifies controller, controller.attackGroups, controller.defenseBuild, controller.defenseUse
      ensures Valid() && used <= |worlds| && j <= |threads|
      ensures !complete ==> used == |worlds| && j < |threads| && binary.Some?
      ensures inputs <= inputs'
      ensures forall k :: 0 <= k < |threads| ==> threads[k] in old(threads) || fresh(threads[k])
      ensures |threads| - j < old(|threads|) - i || !complete
      ensures var vm := Snapshot(j, !complete);
              SafeAt(B, vm) && Reached(start, inputs', vm, answers + worlds[..used])
    {
      hide M.Visit, SafeAt, Reached;
      assert Snapshot(i, false).todo != [];
      VisitReached(B, start, inputs, Snapshot(i, false), answers);
      var outcome := Visit(i);
      inputs' := inputs + [M.Tick(NO_ANSWER)];
      complete, j, used := true, i, 0;
      assert answers + worlds[..0] == answers;
      if outcome.Started? {
        complete, j, used, inputs' := Execute(i, worlds, B, start, inputs', answers);
        if complete {
          j := j + 1;
        }
      } else if outcome.Passed? {
        j := i + 1;
      }
    }

    lemma Finished(start: M.Vm, inputs: seq<M.Input>, vm: M.Vm, worlds: seq<M.World>, used: nat)
      requires used <= |worlds| && Reached(start, inputs, vm, worlds[..used])
      requires vm.AtBoundary() && vm.frame == start.frame + 1
      ensures exists whole :: Frame.WholePass(binary, start, whole) && Frame.Answers(binary, start, whole) <= worlds
    {
      assert Frame.WholePass(binary, start, inputs);
    }

    lemma Unfinished(start: M.Vm, inputs: seq<M.Input>, vm: M.Vm, worlds: seq<M.World>)
      requires Reached(start, inputs, vm, worlds) && vm.frame == start.frame + 1 && Frame.Asks(binary, vm)
      ensures !exists whole :: Frame.WholePass(binary, start, whole) && Frame.Answers(binary, start, whole) <= worlds
    {
      forall whole | Frame.WholePass(binary, start, whole)
        ensures !(Frame.Answers(binary, start, whole) <= worlds)
      {
        Frame.AskingNeedsMore(binary, start, inputs, whole);
      }
    }

    /**
      One frame: every thread of the list is visited once.  The final state is reached by a
      run of the machine that begins one pass and gives the executed opcodes exactly the
      first used answers, in order; it completes the pass exactly when the answers suffice for one.
     */
    method UpdateScripts(worlds: seq<M.World>, ghost B: set<nat>)
      returns (finished: bool, at: nat, used: nat, ghost inputs: seq<M.Input>, ghost vm: M.Vm)
      requires Valid() && SafeAt(B, Snapshot(|threads|, false))
      modifies this`threads, this`threadCount, this`nextSerial, this`frame, threads
      modifies controller, controller.attackGroups, controller.defenseBuild, controller.defenseUse
      ensures Valid() && SafeAt(B, vm)
      ensures used <= |worlds|
      ensures Reached(old(Snapshot(|threads|, false)), inputs, vm, worlds[..used])
      ensures inputs != [] && inputs[0].Tick? && vm.frame == old(frame) + 1
      ensures at <= |threads| && vm == Snapshot(at, !finished)
      ensures finished ==> at == |threads| && vm.AtBoundary()
      ensures !finished ==> used == |worlds|
      ensures var start := old(Snapshot(|threads|, false));
              finished <==> exists whole :: Frame.WholePass(binary, start, whole)
                                            && Frame.Answers(binary, start, whole) <= worlds
    {
      hide SafeAt, Reached, Frame.WholePass, Frame.Answers;
      ghost var start := Snapshot(|threads|, false);
      PassBegins(B, start);
      frame := frame + 1;
      inputs := [M.Tick(NO_ANSWER)];
      var i: nat;
      i, used := 0, 0;
      assert threads[..|threads|] == threads[0..] == threads;
      assert worlds[..0] == [];
      vm := Snapshot(0, false);
      while i < |threads|
        invariant Valid() && i <= |threads| && used <= |worlds|
        invariant frame == old(frame) + 1 && inputs != [] && inputs[0].Tick?
        invariant forall k :: 0 <= k < |threads| ==> threads[k] in old(threads) || fresh(threads[k])
        invariant vm == Snapshot(i, false) && SafeAt(B, vm) && Reached(start, inputs, vm, worlds[..used])
        decreases |threads| - i
      {
        var complete, n;
        complete, i, n, inputs := Iterate(i, worlds[used..], B, start, inputs, worlds[..used]);
        assert worlds[..used] + worlds[used..][..n] == worlds[..used + n];
        used := used + n;
        if !complete {
          vm := Snapshot(i, true);
          assert worlds[..used] == worlds;
          Unfinished(start, inputs, vm, worlds);
          return false, i, used, inputs, vm;
        }
        vm := Snapshot(i, false);
      }
      Finished(start, inputs, vm, worlds, used);
      return true, i, used, inputs, vm;
    }
  }

  datatype Visited = Passed | Gone | Started

  const NO_ANSWER: M.World := M.World(0, false, M.Terran)

  /** A handler: operands, log, effects on the controller and on the thread. */
  method RunHandler(code: Code, op: Byte, h: Handler, t: AiThread, c: Slots.AIController, w: M.World)
    returns (goOn: bool, spawn: Option<nat>, killAll: bool)
    requires c.Valid() && t.bytesRead == 1 && t.scriptOffset > 0 && t.scriptOffset + h.width <= |code|
    requires !M.FlowOf(code, h, t.scriptOffset, ControllerValue(c), w).BadString?
    modifies t, c, c.attackGroups, c.defenseBuild, c.defenseUse
    ensures c.Valid()
    ensures M.Ran(t.Value(), ControllerValue(c), goOn, spawn, killAll)
         == old(M.Follow(M.FlowOf(code, h, t.scriptOffset, ControllerValue(c), w),
                         M.SaveDebug(M.Advance(t.Value(), h.width), op),
                         M.ControllerEffect(code, h, t.scriptOffset, ControllerValue(c), w)))
  {
    hide M.FlowOf, M.ControllerEffect, M.Follow;
    ghost var was, before := t.Value(), ControllerValue(c);
    spawn, killAll := None, false;
    var at := t.scriptOffset;
    var _ := t.ReadOperands(code, h.width);
    var flow := M.FlowOf(code, h, at, ControllerValue(c), w);
    ghost var ctl := M.ControllerEffect(code, h, at, before, w);
    FollowRuns(flow, M.SaveDebug(M.Advance(was, h.width), op), ctl);
    M.FollowEffects(flow, M.SaveDebug(M.Advance(was, h.width), op), ctl);
    t.SaveDebug(op);
    UpdateController(c, code, h, at, w);
    goOn := t.Perform(flow, ctl);
    if flow.Fork? {
      spawn := Some(flow.target);
    } else if flow.KillAll? {
      killAll := true;
    }
  }

  lemma FollowRuns(flow: M.Flow, u: M.Thread, c: M.Controller)
    ensures M.Follow(flow, u, c).Ran? <==> !flow.BadString?
  {
  }

  /** One opcode: the thread reads it and its handler runs. */
  method RunOpcode(script: Script, t: AiThread, c: Slots.AIController, w: M.World)
    returns (goOn: bool, spawn: Option<nat>, killAll: bool)
    requires c.Valid() && t.bytesRead == 0
    requires M.ReadOpcode(script, t.Value(), ControllerValue(c), w).Ran?
    modifies t, c, c.attackGroups, c.defenseBuild, c.defenseUse
    ensures c.Valid()
    ensures M.Ran(t.Value(), ControllerValue(c), goOn, spawn, killAll)
         == old(M.ReadOpcode(script, t.Value(), ControllerValue(c), w))
  {
    hide M.FlowOf, M.ControllerEffect, M.Follow;
    ghost var was, before := t.Value(), ControllerValue(c);
    var op := t.ReadByte(script.code);
    if op !in script.table {
      return false, None, false;
    }
    var h := script.table[op];
    FollowRuns(M.FlowOf(script.code, h, was.offset + 1, before, w), M.SaveDebug(M.Advance(was, 1 + h.width), op),
               M.ControllerEffect(script.code, h, was.offset + 1, before, w));
    goOn, spawn, killAll := RunHandler(script.code, op, h, t, c, w);
  }
}
