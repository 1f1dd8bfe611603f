/**
  Program-counter safety.  A set B of instruction boundaries is closed when decoding at
  any member stays inside the script and every place control can go next is in B again.
  From a closed set no run ever reads outside the script.
 */
module AiScriptSafety {
  import opened Common
  import opened AiScriptCode
  import opened AiScriptMachine
  import Slots = ControllerSlots

  /** A jump to 0 is caught by the read loop, which kills the thread instead. */
  ghost predicate JumpOk(B: set<nat>, target: nat) {
    target == 0 || target in B
  }

  ghost predicate CoveredOperands(code: Code, B: set<nat>, h: Handler, at: nat)
    requires at + h.width <= |code|
  {
    var next := at + h.width;
    match h.action
    case Goto => JumpOk(B, Word(code, at))
    case CondJump(i) => JumpOk(B, Word(code, at + i)) && next in B
    case IfDif => JumpOk(B, Word(code, at + 2)) && next in B
    case RaceJump =>
      JumpOk(B, Word(code, at)) && JumpOk(B, Word(code, at + 2)) && JumpOk(B, Word(code, at + 4))
    case Debug => Terminated(code, next) && Terminated(code, Word(code, at)) && JumpOk(B, Word(code, at))
    case Call => JumpOk(B, Word(code, at)) && next in B
    case Return => true
    case Multirun => Word(code, at) in B && next in B
    case Stop => true
    case FatalError => true
    case WaitBuild => true
    case _ => next in B
  }

  ghost predicate Covered(s: Script, B: set<nat>, b: nat) {
    && b < |s.code|
    && if s.code[b] !in s.table then b + 1 in B
       else
         var h := s.table[s.code[b]];
         b + 1 + h.width <= |s.code| && CoveredOperands(s.code, B, h, b + 1)
  }

  ghost predicate Closed(s: Script, B: set<nat>) {
    forall b {:trigger Covered(s, B, b)} :: b in B ==> Covered(s, B, b)
  }

  ghost predicate BlockingAt(s: Script, b: nat) {
    b < |s.code| && s.code[b] in s.table && IsBlocking(s.table[s.code[b]].action)
  }

  /** alive: the thread will execute an opcode again. */
  ghost predicate ThreadOk(s: Script, B: set<nat>, t: Thread, alive: bool) {
    && (alive ==> t.offset in B)
    && (forall i :: 0 <= i < |t.calls| ==> t.calls[i] in B)
    && t.sleep <= RETRY_SLEEP
    && |t.log| <= 33
    && (t.retryBlock ==> BlockingAt(s, t.offset))
  }

  ghost predicate HeadOk(s: Script, B: set<nat>, t: Thread) {
    ThreadOk(s, B, t, true) && t.sleep == 0 && t.bytesRead == 0
  }

  ghost predicate ListOk(s: Script, B: set<nat>, ts: seq<Thread>) {
    forall i :: 0 <= i < |ts| ==> ThreadOk(s, B, ts[i], !ts[i].wantKilled)
  }

  ghost predicate Safe(s: Script, B: set<nat>, vm: Vm) {
    && vm.ctl.Shaped()
    && ListOk(s, B, vm.done)
    && (if vm.running
        then vm.todo != [] && HeadOk(s, B, vm.todo[0]) && ListOk(s, B, vm.todo[1..])
        else ListOk(s, B, vm.todo))
  }

  ghost predicate InputOk(B: set<nat>, input: Input) {
    input.Launch? ==> input.start in B
  }

  /** What a handler leaves behind, whatever the game answered. */
  ghost predicate OutcomeOk(s: Script, B: set<nat>, o: Outcome) {
    && o.Ran?
    && ThreadOk(s, B, o.thread, false)
    && (o.spawn.Some? ==> o.spawn.value in B)
    && (o.goOn ==> JumpOk(B, o.thread.offset) && o.thread.sleep == 0
                   && o.thread.bytesRead == 0 && !o.thread.retryBlock)
    && (!o.goOn ==> o.thread.wantKilled || o.thread.offset in B)
  }

  lemma RowStaysPacked(rows: seq<seq<nat>>, r: nat, row: seq<nat>)
    requires r < |rows| && Slots.Packed(row)
    requires forall i :: 0 <= i < |rows| ==> Slots.Packed(rows[i])
    ensures var after := rows[r := row]; forall i :: 0 <= i < |rows| ==> Slots.Packed(after[i])
  {
    hide Slots.Packed;
  }

  lemma ControllerStaysPacked(code: Code, h: Handler, at: nat, ctl: Controller, w: World)
    requires ctl.Shaped() && ctl.AllPacked() && at + h.width <= |code|
    ensures ControllerEffect(code, h, at, ctl, w).AllPacked()
  {
    Slots.ZeroesAreEmpty(64);
    Slots.ZeroesAreEmpty(10);
    hide Slots.Packed, Slots.AttackAdded, Slots.DefenseAdded, Slots.Zeroes, Word;
    match h.action
    case AttackAdd => Slots.AttackAddRefines(ctl.attack, code[at], Word(code, at + 1));
    case EasyAttack => Slots.AttackAddRefines(ctl.attack, code[at], Word(code, at + 1));
    case DefenseBuild(r) =>
      Slots.DefenseAddRefines(ctl.defenseBuild[r], code[at], Word(code, at + 1));
      RowStaysPacked(ctl.defenseBuild, r, Slots.DefenseAdded(ctl.defenseBuild[r], code[at], Word(code, at + 1)));
    case DefenseUse(r) =>
      Slots.DefenseAddRefines(ctl.defenseUse[r], code[at], Word(code, at + 1));
      RowStaysPacked(ctl.defenseUse, r, Slots.DefenseAdded(ctl.defenseUse[r], code[at], Word(code, at + 1)));
    case DefenseClear(r) =>
      RowStaysPacked(ctl.defenseBuild, r, Slots.Zeroes(Slots.DEFENSE_SLOTS));
      RowStaysPacked(ctl.defenseUse, r, Slots.Zeroes(Slots.DEFENSE_SLOTS));
    case _ =>
  }

  /** The thread as the handler sees it: opcode and operands read, nothing else changed. */
  ghost predicate Decoded(s: Script, B: set<nat>, t: Thread, op: Byte, h: Handler, b: nat) {
    && b in B && Covered(s, B, b) && s.code[b] == op && op in s.table && s.table[op] == h
    && t.offset == b + 1 + h.width && t.bytesRead == 1 + h.width
    && t.sleep == 0 && |t.log| <= 33
    && (forall i :: 0 <= i < |t.calls| ==> t.calls[i] in B)
    && (t.retryBlock ==> IsBlocking(h.action))
  }

  /** The flow of a handler decoded inside a closed set stays inside it. */
  ghost predicate FlowOk(B: set<nat>, flow: Flow, next: nat) {
    match flow
    case Fall => next in B
    case Jump(target) => JumpOk(B, target)
    case CallTo(target) => JumpOk(B, target) && next in B
    case Fork(target) => target in B && next in B
    case KillAll => next in B
    case BecomeKillable => next in B
    case Pause => next in B
    case BadString => false
    case _ => true
  }

  lemma FlowIsCovered(s: Script, B: set<nat>, b: nat, h: Handler, ctl: Controller, w: World)
    requires b in B && Covered(s, B, b) && s.code[b] in s.table && s.table[s.code[b]] == h
    ensures var flow := FlowOf(s.code, h, b + 1, ctl, w);
            FlowOk(B, flow, b + 1 + h.width) && (flow.Block? ==> IsBlocking(h.action))
            && (IsBlocking(h.action) ==> flow.Block? || flow.Fall?)
  {
  }

  lemma FollowIsSafe(s: Script, B: set<nat>, t: Thread, op: Byte, h: Handler, b: nat, flow: Flow, c: Controller)
    requires Decoded(s, B, t, op, h, b)
    requires FlowOk(B, flow, t.offset) && (flow.Block? ==> IsBlocking(h.action))
    ensures OutcomeOk(s, B, Follow(flow, SaveDebug(t, op), c))
  {
    var u := SaveDebug(t, op);
    assert |u.log| <= 33;
    match flow
    case Ret =>
      if u.calls != [] {
        assert u.calls[|u.calls| - 1] in B;
      }
    case Block => assert Retry(u).offset == b;
    case _ =>
  }

  lemma OpcodeIsSafe(s: Script, B: set<nat>, t: Thread, ctl: Controller, w: World)
    requires Closed(s, B) && HeadOk(s, B, t)
    requires ctl.Shaped()
    ensures OutcomeOk(s, B, ReadOpcode(s, t, ctl, w))
  {
    hide FlowOf, Follow, ControllerEffect, SaveDebug;
    assert Covered(s, B, t.offset);
    var op := s.code[t.offset];
    if op in s.table {
      var h := s.table[op];
      FlowIsCovered(s, B, t.offset, h, ctl, w);
      FollowIsSafe(s, B, Advance(t, 1 + h.width), op, h, t.offset,
                   FlowOf(s.code, h, t.offset + 1, ctl, w),
                   ControllerEffect(s.code, h, t.offset + 1, ctl, w));
    }
  }

  lemma MarkingIsSafe(s: Script, B: set<nat>, ts: seq<Thread>)
    requires ListOk(s, B, ts)
    ensures ListOk(s, B, MarkKillable(ts))
  {
  }

  lemma SettlingIsSafe(s: Script, B: set<nat>, vm: Vm, o: Outcome)
    requires Closed(s, B) && Safe(s, B, vm) && vm.running
    requires OutcomeOk(s, B, o) && o.ctl.Shaped()
    ensures Safe(s, B, Settle(vm, o))
  {
    hide Covered, BlockingAt;
    var rest := vm.todo[1..];
    MarkingIsSafe(s, B, rest);
    var v1 := vm.(todo := [o.thread] + rest, ctl := o.ctl);
    var v2 := if o.spawn.Some? then Spawn(v1, o.spawn.value) else v1;
    assert ListOk(s, B, v2.done);
    MarkingIsSafe(s, B, v2.done);
    var v := Applied(vm, o);
    assert v.todo[1..] == (if o.killAll then MarkKillable(rest) else rest);
  }

  /** One step from a safe state neither crashes nor leaves the safe states. */
  lemma StepIsSafe(s: Script, B: set<nat>, vm: Vm, input: Input)
    requires Closed(s, B) && Safe(s, B, vm) && InputOk(B, input)
    ensures var r := Step(Some(s), vm, input); r.Next? && Safe(s, B, r.vm)
  {
    if input.Tick? && vm.running {
      OpcodeIsSafe(s, B, vm.todo[0], vm.ctl, input.world);
      SettlingIsSafe(s, B, vm, ReadOpcode(s, vm.todo[0], vm.ctl, input.world));
    }
  }

  /** Every run from a safe state: no read leaves the script, every state stays safe. */
  lemma {:induction false} RunIsSafe(s: Script, B: set<nat>, vm: Vm, inputs: seq<Input>)
    requires Closed(s, B) && Safe(s, B, vm)
    requires forall i :: 0 <= i < |inputs| ==> InputOk(B, inputs[i])
    ensures var r := Run(Some(s), vm, inputs); r.Next? && Safe(s, B, r.vm)
    decreases |inputs|
  {
    if inputs == [] {
    } else {
      var before := inputs[..|inputs| - 1];
      RunIsSafe(s, B, vm, before);
      StepIsSafe(s, B, Run(Some(s), vm, before).vm, inputs[|inputs| - 1]);
    }
  }

  lemma InitialIsSafe(s: Script, B: set<nat>)
    ensures Safe(s, B, INITIAL)
  {
  }

  /** What Safe says of the thread at position i, without the case split on the cursor. */
  lemma ThreadOfSafe(s: Script, B: set<nat>, vm: Vm, i: nat)
    requires Safe(s, B, vm) && i < |vm.All()|
    ensures ThreadOk(s, B, vm.All()[i], !vm.All()[i].wantKilled || (vm.running && i == |vm.done|))
  {
    if i > |vm.done| && vm.running {
      assert vm.All()[i] == vm.todo[1..][i - |vm.done| - 1];
    }
  }

  /** Unfolded for a reader: what safety promises of every thread of every reachable state. */
  lemma EveryReachableThread(s: Script, B: set<nat>, inputs: seq<Input>, i: nat)
    requires Closed(s, B)
    requires forall k :: 0 <= k < |inputs| ==> InputOk(B, inputs[k])
    ensures Run(Some(s), INITIAL, inputs).Next?
    ensures var vm := Run(Some(s), INITIAL, inputs).vm;
            i < |vm.All()| ==>
              var t := vm.All()[i];
              && (!t.wantKilled || (vm.running && i == |vm.done|) ==> t.offset in B && t.offset < |s.code|)
              && (forall k :: 0 <= k < |t.calls| ==> t.calls[k] in B)
              && t.sleep <= 30 && |t.log| <= 33
  {
    InitialIsSafe(s, B);
    RunIsSafe(s, B, INITIAL, inputs);
    var vm := Run(Some(s), INITIAL, inputs).vm;
    if i < |vm.All()| {
      ThreadOfSafe(s, B, vm, i);
      assert vm.All()[i].offset in B ==> Covered(s, B, vm.All()[i].offset);
    }
  }

  lemma OpcodeKeepsPacked(s: Script, t: Thread, ctl: Controller, w: World)
    requires ctl.Shaped() && ctl.AllPacked()
    ensures var o := ReadOpcode(s, t, ctl, w); o.Ran? ==> o.ctl.AllPacked()
  {
    hide FlowOf, ControllerEffect, Slots.Packed;
    var b := t.offset;
    if b < |s.code| && s.code[b] in s.table && b + 1 + s.table[s.code[b]].width <= |s.code| {
      ControllerStaysPacked(s.code, s.table[s.code[b]], b + 1, ctl, w);
    }
  }

  lemma StepKeepsPacked(binary: Option<Script>, vm: Vm, input: Input)
    requires vm.ctl.Shaped() && vm.ctl.AllPacked()
    ensures var r := Step(binary, vm, input); r.Next? ==> r.vm.ctl.AllPacked()
  {
    hide ReadOpcode, MarkKillable, Slots.Packed;
    if input.Tick? && vm.running && vm.todo != [] && binary.Some? {
      OpcodeKeepsPacked(binary.value, vm.todo[0], vm.ctl, input.world);
    }
  }

  /** In every reachable state the taken slots of every controller table form a prefix. */
  lemma {:induction false} ReachableControllerIsPacked(binary: Option<Script>, inputs: seq<Input>)
    ensures var r := Run(binary, INITIAL, inputs);
            r.Next? ==> r.vm.ctl.Shaped() && r.vm.ctl.AllPacked()
    decreases |inputs|
  {
    if inputs == [] {
      Slots.ZeroesAreEmpty(64);
      Slots.ZeroesAreEmpty(10);
    } else {
      var before := inputs[..|inputs| - 1];
      ReachableControllerIsPacked(binary, before);
      var r := Run(binary, INITIAL, before);
      if r.Next? {
        StepKeepsPacked(binary, r.vm, inputs[|inputs| - 1]);
      }
    }
  }
}
