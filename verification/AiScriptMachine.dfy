/**
  The script engine as a state machine.  One step of Vm is one step of UpdateScripts:
  skipping a sleeping thread, erasing a killed one, starting a thread, or executing one
  opcode of the running thread.  A script may loop for ever, so a run is any finite
  list of inputs; what holds after every finite list holds in every reachable state.
 */
module AiScriptMachine {
  import opened Common
  import opened AiScriptCode
  import Slots = ControllerSlots

  datatype Race = Terran | Zerg | Protoss

  /** What the game answers during one step. */
  datatype World = World(unitCount: nat, jump: bool, race: Race)

  datatype Controller = Controller(
    ifDif: Byte,
    upgradesFinished: bool,
    waitForType: nat,
    attack: seq<nat>,
    defenseBuild: seq<seq<nat>>,
    defenseUse: seq<seq<nat>>)
  {
    ghost predicate Shaped() {
      && |attack| == Slots.ATTACK_SLOTS
      && |defenseBuild| == |defenseUse| == Slots.DEFENSE_ROWS
      && forall r :: 0 <= r < Slots.DEFENSE_ROWS ==>
           |defenseBuild[r]| == |defenseUse[r]| == Slots.DEFENSE_SLOTS
    }

    ghost predicate AllPacked() {
      && Slots.Packed(attack)
      && (forall r :: 0 <= r < |defenseBuild| ==> Slots.Packed(defenseBuild[r]))
      && (forall r :: 0 <= r < |defenseUse| ==> Slots.Packed(defenseUse[r]))
    }
  }

  /** serial identifies the list node; log holds the opcodes of the debug entries. */
  datatype Thread = Thread(
    serial: nat,
    offset: nat,
    sleep: nat,
    killable: bool,
    wantKilled: bool,
    bytesRead: nat,
    retryBlock: bool,
    calls: seq<nat>,
    log: seq<Byte>)

  const RETRY_SLEEP: nat := 30

  function NewThread(serial: nat, start: nat): Thread {
    Thread(serial, start, 0, false, false, 0, false, [], [])
  }

  function Advance(t: Thread, n: nat): Thread {
    t.(offset := t.offset + n, bytesRead := t.bytesRead + n)
  }

  function Kill(t: Thread): Thread {
    t.(wantKilled := true)
  }

  function NoRetry(t: Thread): Thread {
    t.(bytesRead := 0, retryBlock := false)
  }

  /** The source subtracts in 32 bits; bytesRead never exceeds the offset. */
  function Retry(t: Thread): Thread {
    t.(offset := if t.bytesRead <= t.offset then t.offset - t.bytesRead else 0,
       sleep := t.sleep + RETRY_SLEEP,
       bytesRead := 0,
       retryBlock := true)
  }

  function PushLog(log: seq<Byte>, op: Byte): seq<Byte> {
    (if |log| > 32 then log[1..] else log) + [op]
  }

  function SaveDebug(t: Thread, op: Byte): Thread {
    if t.retryBlock then t else t.(log := PushLog(t.log, op))
  }

  function PushCall(t: Thread, target: nat): Thread {
    t.(calls := t.calls + [t.offset], offset := target)
  }

  function PopCall(t: Thread): Thread
    requires t.calls != []
  {
    t.(offset := t.calls[|t.calls| - 1], calls := t.calls[..|t.calls| - 1])
  }

  /**
    Fault stands for a read outside the script.  goOn is the handler's return value;
    spawn and killAll are its effects on the thread list.
   */
  datatype Outcome =
    | Fault
    | Ran(thread: Thread, ctl: Controller, goOn: bool, spawn: Option<nat>, killAll: bool)

  /** What a handler does to the controller. */
  function ControllerEffect(code: Code, h: Handler, at: nat, ctl: Controller, w: World): (c: Controller)
    requires ctl.Shaped() && at + h.width <= |code|
    ensures c.Shaped()
  {
    match h.action
    case StartTown => ctl.(ifDif := 1)
    case Train =>
      if w.unitCount < code[at] then ctl.(waitForType := (Word(code, at + 1) + 1) % 65536) else ctl
    case DoMorph =>
      if w.unitCount < code[at] then ctl.(waitForType := (Word(code, at + 1) + 1) % 65536) else ctl
    case AttackAdd =>
      ctl.(attack := Slots.AttackAdded(ctl.attack, code[at], Word(code, at + 1)))
    case EasyAttack =>
      if ctl.ifDif > 0 then ctl
      else ctl.(attack := Slots.AttackAdded(ctl.attack, code[at], Word(code, at + 1)))
    case AttackClear => ctl.(attack := Slots.Zeroes(Slots.ATTACK_SLOTS))
    case DefenseBuild(r) =>
      ctl.(defenseBuild := ctl.defenseBuild[r :=
        Slots.DefenseAdded(ctl.defenseBuild[r], code[at], Word(code, at + 1))])
    case DefenseUse(r) =>
      ctl.(defenseUse := ctl.defenseUse[r :=
        Slots.DefenseAdded(ctl.defenseUse[r], code[at], Word(code, at + 1))])
    case DefenseClear(r) =>
      ctl.(defenseBuild := ctl.defenseBuild[r := Slots.Zeroes(Slots.DEFENSE_SLOTS)],
           defenseUse := ctl.defenseUse[r := Slots.Zeroes(Slots.DEFENSE_SLOTS)])
    case _ => ctl
  }

  /** Where a handler sends the thread that runs it, and what it does to the list. */
  datatype Flow =
    | Fall                   // next instruction
    | Jump(target: nat)
    | CallTo(target: nat)
    | Ret
    | Fork(target: nat)      // spawn a thread, then fall through
    | KillAll                // mark every killable thread, then fall through
    | BecomeKillable         // then fall through
    | Die                    // mark the thread itself and yield
    | Pause                  // yield
    | Block                  // yield and come back to this instruction
    | BadString              // a string to print runs past the script

  function FlowOf(code: Code, h: Handler, at: nat, ctl: Controller, w: World): Flow
    requires at + h.width <= |code|
  {
    match h.action
    case Goto => Jump(Word(code, at))
    case CondJump(i) => if w.jump then Jump(Word(code, at + i)) else Fall
    case IfDif =>
      if (if code[at] != 0 then ctl.ifDif > code[at + 1] else ctl.ifDif < code[at + 1])
      then Jump(Word(code, at + 2)) else Fall
    case RaceJump =>
      (match w.race
       case Terran => Jump(Word(code, at))
       case Zerg => Jump(Word(code, at + 2))
       case Protoss => Jump(Word(code, at + 4)))
    case Debug =>            // the inline string is sent, the one at the target is logged
      if Terminated(code, at + h.width) && Terminated(code, Word(code, at)) then Jump(Word(code, at)) else BadString
    case Call => CallTo(Word(code, at))
    case Return => Ret
    case Multirun => Fork(Word(code, at))
    case KillThread => KillAll
    case Killable => BecomeKillable
    case Stop => Die
    case FatalError => Die
    case Wait => Pause
    case Train => if w.unitCount < code[at] then Block else Fall
    case WaitTrain => if w.unitCount < code[at] then Block else Fall
    case WaitUpgrades => if ctl.upgradesFinished then Fall else Block
    case WaitBuild => Block
    case _ => Fall
  }

  /** A handler that succeeds clears its retry state. */
  function Continue(t: Thread, ctl: Controller): Outcome {
    Ran(NoRetry(t), ctl, true, None, false)
  }

  function Yield(t: Thread, ctl: Controller): Outcome {
    Ran(t, ctl, false, None, false)
  }

  function Follow(flow: Flow, u: Thread, c: Controller): Outcome {
    match flow
    case Fall => Continue(u, c)
    case Jump(target) => Continue(u.(offset := target), c)
    case CallTo(target) => Continue(PushCall(u, target), c)
    case Ret => if u.calls == [] then Yield(NoRetry(Kill(u)), c) else Continue(PopCall(u), c)
    case Fork(target) => Ran(NoRetry(u), c, true, Some(target), false)
    case KillAll => Ran(NoRetry(u), c, true, None, true)
    case BecomeKillable => Continue(u.(killable := true), c)
    case Die => Yield(NoRetry(Kill(u)), c)
    case Pause => Yield(NoRetry(u), c)
    case Block => Yield(Retry(u), c)
    case BadString => Fault
  }

  /** Opcode::readOpcode: an opcode without a handler yields and keeps its retry state. */
  function ReadOpcode(s: Script, t: Thread, ctl: Controller, w: World): Outcome
    requires ctl.Shaped()
  {
    if t.offset >= |s.code| then Fault
    else
      var op := s.code[t.offset];
      if op !in s.table then Yield(Advance(t, 1), ctl)
      else
        var h := s.table[op];
        if t.offset + 1 + h.width > |s.code| then Fault
        else
          Follow(FlowOf(s.code, h, t.offset + 1, ctl, w),
                 SaveDebug(Advance(t, 1 + h.width), op),
                 ControllerEffect(s.code, h, t.offset + 1, ctl, w))
  }

  /**
    The thread list is done + todo; todo starts at the loop's iterator.  frame counts
    the passes begun, count is the global thread counter.
   */
  datatype Vm = Vm(
    done: seq<Thread>,
    todo: seq<Thread>,
    running: bool,
    frame: nat,
    count: int,
    nextSerial: nat,
    ctl: Controller)
  {
    function All(): seq<Thread> { done + todo }

    predicate AtBoundary() { !running && todo == [] }
  }

  /** A tick of the loop, or a script launched by the player between two passes. */
  datatype Input = Tick(world: World) | Launch(start: nat)

  datatype Event =
    | Idle
    | PassBegun
    | Skipped(serial: nat)
    | Erased(serial: nat)
    | Started(serial: nat)
    | Executed(serial: nat, at: nat)
    | Launched(serial: nat)

  datatype Result = Crashed | Next(vm: Vm, event: Event)

  function MarkKillable(ts: seq<Thread>): (r: seq<Thread>)
    ensures |r| == |ts|
  {
    seq(|ts|, i requires 0 <= i < |ts| => if ts[i].killable then Kill(ts[i]) else ts[i])
  }

  function Spawn(vm: Vm, start: nat): Vm {
    vm.(done := [NewThread(vm.nextSerial, start)] + vm.done,
        count := vm.count + 1,
        nextSerial := vm.nextSerial + 1)
  }

  /** The head of todo moves behind the iterator. */
  function Pass(vm: Vm, t: Thread): Vm
    requires vm.todo != []
  {
    vm.(done := vm.done + [t], todo := vm.todo[1..], running := false)
  }

  function Visit(loaded: bool, vm: Vm): Result
    requires vm.todo != []
  {
    var t := vm.todo[0];
    if t.sleep > 0 then
      Next(Pass(vm, t.(sleep := t.sleep - 1)), Skipped(t.serial))
    else if t.wantKilled then
      Next(vm.(todo := vm.todo[1..], count := vm.count - 1), Erased(t.serial))
    else if !loaded then
      Next(Pass(vm, Kill(t.(bytesRead := 0))), Started(t.serial))
    else
      Next(vm.(todo := [t.(bytesRead := 0)] + vm.todo[1..], running := true), Started(t.serial))
  }

  /** The list after a handler ran: its own thread updated, then its list effects. */
  function Applied(vm: Vm, o: Outcome): Vm
    requires vm.todo != [] && o.Ran?
  {
    var v1 := vm.(todo := [o.thread] + vm.todo[1..], ctl := o.ctl);
    var v2 := if o.spawn.Some? then Spawn(v1, o.spawn.value) else v1;
    if o.killAll then v2.(done := MarkKillable(v2.done), todo := MarkKillable(v2.todo)) else v2
  }

  /** The read loop's reaction: a script offset of 0 after a success kills the thread. */
  function Settle(vm: Vm, o: Outcome): Vm
    requires vm.todo != [] && o.Ran?
  {
    var v := Applied(vm, o);
    if !o.goOn then Pass(v, v.todo[0])
    else if v.todo[0].offset == 0 then Pass(v, Kill(v.todo[0]))
    else v
  }

  /** One turn of the read loop. */
  function Turn(s: Script, vm: Vm, w: World): Result
    requires vm.todo != [] && vm.ctl.Shaped()
  {
    var t := vm.todo[0];
    var o := ReadOpcode(s, t, vm.ctl, w);
    if o.Fault? then Crashed else Next(Settle(vm, o), Executed(t.serial, t.offset))
  }

  function Step(binary: Option<Script>, vm: Vm, input: Input): Result
    requires vm.ctl.Shaped()
  {
    match input
    case Launch(start) =>
      if vm.AtBoundary() then Next(Spawn(vm, start), Launched(vm.nextSerial)) else Next(vm, Idle)
    case Tick(w) =>
      if vm.running && vm.todo != [] && binary.Some? then Turn(binary.value, vm, w)
      else if vm.todo != [] then Visit(binary.Some?, vm)
      else Next(vm.(todo := vm.done, done := [], running := false, frame := vm.frame + 1), PassBegun)
  }

  const EMPTY_CONTROLLER: Controller :=
    Controller(0, false, 0, Slots.Zeroes(64),
               seq(4, _ => Slots.Zeroes(10)), seq(4, _ => Slots.Zeroes(10)))

  const INITIAL: Vm := Vm([], [], false, 0, 0, 0, EMPTY_CONTROLLER)

  /** Following a flow leaves the controller as it was handed over. */
  lemma FollowEffects(flow: Flow, u: Thread, c: Controller)
    ensures var o := Follow(flow, u, c);
            o.Ran? ==>
              && o.ctl == c
              && o.spawn == (if flow.Fork? then Some(flow.target) else None)
              && o.killAll == flow.KillAll?
  {
  }

  lemma OpcodeKeepsShape(s: Script, t: Thread, ctl: Controller, w: World)
    requires ctl.Shaped()
    ensures var o := ReadOpcode(s, t, ctl, w); o.Ran? ==> o.ctl.Shaped()
  {
    hide FlowOf, ControllerEffect;
  }

  lemma StepKeepsShape(binary: Option<Script>, vm: Vm, input: Input)
    requires vm.ctl.Shaped()
    ensures var r := Step(binary, vm, input); r.Next? ==> r.vm.ctl.Shaped()
  {
    hide ReadOpcode, MarkKillable;
    if input.Tick? && vm.running && vm.todo != [] && binary.Some? {
      OpcodeKeepsShape(binary.value, vm.todo[0], vm.ctl, input.world);
    }
  }

  /** The state after a whole run, or Crashed as soon as one step reads outside the script. */
  function Run(binary: Option<Script>, vm: Vm, inputs: seq<Input>): (r: Result)
    requires vm.ctl.Shaped()
    ensures r.Next? ==> r.vm.ctl.Shaped()
    decreases |inputs|
  {
    if inputs == [] then Next(vm, Idle)
    else
      var r := Run(binary, vm, inputs[..|inputs| - 1]);
      if r.Crashed? then Crashed
      else
        StepKeepsShape(binary, r.vm, inputs[|inputs| - 1]);
        Step(binary, r.vm, inputs[|inputs| - 1])
  }
}
