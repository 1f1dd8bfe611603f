/**
  What each opcode does, from the script bytes to the thread and the controller.  The opcodes
  are named by their numbers and the operands by their bytes; every law gives the whole
  outcome of executing one opcode.
 */
module AiScriptOpcodes {
  import opened Common
  import opened AiScriptCode
  import opened AiScriptMachine
  import opened AiScriptRetry
  import opened AiScriptSafety
  import Slots = ControllerSlots

  const GOTO: Byte := 0
  const WAIT: Byte := 2
  const START_TOWN: Byte := 3
  const START_AREATOWN: Byte := 4
  const WAIT_BUILD: Byte := 9
  const WAIT_BUILDSTART: Byte := 10
  const ATTACK_CLEAR: Byte := 11
  const ATTACK_ADD: Byte := 12
  const WAIT_SECURE: Byte := 15
  const DEFENSEBUILD_GG: Byte := 19
  const DEFENSEUSE_GG: Byte := 23
  const DEFENSECLEAR_GG: Byte := 27
  const SEND_SUICIDE: Byte := 31
  const STOP: Byte := 36
  const DEBUG: Byte := 39
  const FATAL_ERROR: Byte := 40
  const RACE_JUMP: Byte := 57
  const WAIT_FORCE: Byte := 62
  const CALL: Byte := 64
  const RETURN: Byte := 65
  const DO_MORPH: Byte := 70
  const WAIT_UPGRADES: Byte := 71
  const MULTIRUN: Byte := 72
  const TRAIN: Byte := 76
  const WAIT_TRAIN: Byte := 78
  const IF_DIF: Byte := 95
  const EASY_ATTACK: Byte := 96
  const KILL_THREAD: Byte := 97
  const KILLABLE: Byte := 98

  // ---- operands and outcomes ----

  /** The thread stands on this opcode, and all its operand bytes are in the script. */
  ghost predicate Stands(s: Script, t: Thread, op: Byte, width: nat) {
    && s.table == OPCODE_LIST
    && t.offset + 1 + width <= |s.code| && s.code[t.offset] == op
    && t.bytesRead == 0
  }

  /** Two bytes, the low one first. */
  function At16(code: Code, at: nat): int
    requires at + 2 <= |code|
  {
    code[at] as int + 256 * code[at + 1] as int
  }

  /** The debug entry is written on the first try only. */
  function Logged(t: Thread, op: Byte): seq<Byte> {
    if t.retryBlock then t.log else PushLog(t.log, op)
  }

  /** The thread has executed the opcode and stands at an offset. */
  function Moved(t: Thread, op: Byte, to: nat): Thread {
    t.(offset := to, bytesRead := 0, retryBlock := false, log := Logged(t, op))
  }

  /** The opcode succeeds and has no effect but on its own thread and the controller. */
  function Goes(t: Thread, op: Byte, to: nat, ctl: Controller): Outcome {
    Ran(Moved(t, op, to), ctl, true, None, false)
  }

  /** The thread stays on the opcode and sleeps 30 ticks longer. */
  function Stays(t: Thread, op: Byte, ctl: Controller): Outcome {
    Ran(t.(sleep := t.sleep + 30, bytesRead := 0, retryBlock := true, log := Logged(t, op)), ctl, false, None, false)
  }

  /** A debug log keeps the last 33 entries. */
  lemma LogKeepsTheLast(log: seq<Byte>, op: Byte)
    requires |log| <= 33
    ensures var all := log + [op];
            PushLog(log, op) == if |all| <= 33 then all else all[|all| - 33..]
  {
    assert |log| == 33 ==> (log + [op])[1..] == log[1..] + [op];
  }

  lemma HandlerRuns(s: Script, t: Thread, op: Byte, h: Handler, ctl: Controller, w: World)
    requires ctl.Shaped() && Stands(s, t, op, h.width) && HasHandler(op) && HandlerOf(op) == h
    ensures ReadOpcode(s, t, ctl, w)
         == Follow(FlowOf(s.code, h, t.offset + 1, ctl, w), SaveDebug(Advance(t, 1 + h.width), op),
                   ControllerEffect(s.code, h, t.offset + 1, ctl, w))
  {
    hide HandlerOf, HasHandler, FlowOf, ControllerEffect, Follow, SaveDebug, Advance;
    assert op in OPCODE_LIST && OPCODE_LIST[op] == h;
  }

  // ---- waiting for units, upgrades and buildings ----

  /** The controller remembers the unit type that is waited for. */
  function Wanting(ctl: Controller, unitType: int): Controller
    requires unitType >= 0
  {
    ctl.(waitForType := (unitType + 1) % 65536)
  }

  lemma UnitHandlers(op: Byte)
    requires op in {TRAIN, WAIT_FORCE, WAIT_TRAIN}
    ensures HandlerOf(op) == if op == WAIT_TRAIN then Handler(3, WaitTrain) else Handler(3, Train)
  {
  }

  /** TRAIN and WAIT_FORCE go on exactly when there are at least count units. */
  lemma TrainWaits(s: Script, t: Thread, op: Byte, ctl: Controller, w: World)
    requires ctl.Shaped() && Stands(s, t, op, 3) && op in {TRAIN, WAIT_FORCE}
    ensures var count, unitType := s.code[t.offset + 1], At16(s.code, t.offset + 2);
            ReadOpcode(s, t, ctl, w)
            == if w.unitCount >= count then Goes(t, op, t.offset + 4, ctl) else Stays(t, op, Wanting(ctl, unitType))
  {
    hide HandlerOf;
    UnitHandlers(op);
    HandlerRuns(s, t, op, Handler(3, Train), ctl, w);
  }

  /** WAIT_TRAIN goes on in the same case and wants nothing. */
  lemma WaitTrainWaits(s: Script, t: Thread, ctl: Controller, w: World)
    requires ctl.Shaped() && Stands(s, t, WAIT_TRAIN, 3)
    ensures ReadOpcode(s, t, ctl, w)
         == if w.unitCount >= s.code[t.offset + 1] then Goes(t, WAIT_TRAIN, t.offset + 4, ctl)
            else Stays(t, WAIT_TRAIN, ctl)
  {
    hide HandlerOf;
    UnitHandlers(WAIT_TRAIN);
    HandlerRuns(s, t, WAIT_TRAIN, Handler(3, WaitTrain), ctl, w);
  }

  /** DO_MORPH asks for the type like TRAIN, but always goes on. */
  lemma DoMorphGoesOn(s: Script, t: Thread, ctl: Controller, w: World)
    requires ctl.Shaped() && Stands(s, t, DO_MORPH, 3)
    ensures var count, unitType := s.code[t.offset + 1], At16(s.code, t.offset + 2);
            ReadOpcode(s, t, ctl, w)
            == Goes(t, DO_MORPH, t.offset + 4, if w.unitCount >= count then ctl else Wanting(ctl, unitType))
  {
    HandlerRuns(s, t, DO_MORPH, Handler(3, DoMorph), ctl, w);
  }

  /** WAIT_UPGRADES goes on exactly when the upgrades are finished. */
  lemma UpgradeWaits(s: Script, t: Thread, ctl: Controller, w: World)
    requires ctl.Shaped() && Stands(s, t, WAIT_UPGRADES, 0)
    ensures ReadOpcode(s, t, ctl, w)
         == if ctl.upgradesFinished then Goes(t, WAIT_UPGRADES, t.offset + 1, ctl) else Stays(t, WAIT_UPGRADES, ctl)
  {
    HandlerRuns(s, t, WAIT_UPGRADES, Handler(0, WaitUpgrades), ctl, w);
  }

  /** WAIT_BUILD and WAIT_BUILDSTART never go on. */
  lemma BuildWaits(s: Script, t: Thread, op: Byte, ctl: Controller, w: World)
    requires ctl.Shaped() && Stands(s, t, op, 3) && op in {WAIT_BUILD, WAIT_BUILDSTART}
    ensures ReadOpcode(s, t, ctl, w) == Stays(t, op, ctl)
  {
    HandlerRuns(s, t, op, Handler(3, WaitBuild), ctl, w);
  }

  /** WAIT moves past its operand and yields without a sleep. */
  lemma WaitYields(s: Script, t: Thread, ctl: Controller, w: World)
    requires ctl.Shaped() && Stands(s, t, WAIT, 2)
    ensures ReadOpcode(s, t, ctl, w) == Ran(Moved(t, WAIT, t.offset + 3), ctl, false, None, false)
  {
    HandlerRuns(s, t, WAIT, Handler(2, Wait), ctl, w);
  }

  /** When a waiting thread passes its opcode, by opcode numbers and bytes. */
  lemma EnoughMeans(s: Script, b: nat, ctl: Controller, w: World)
    requires s.table == OPCODE_LIST && b + 4 <= |s.code|
    ensures BlockingAt(s, b) <==>
              s.code[b] in {TRAIN, WAIT_FORCE, WAIT_TRAIN, WAIT_UPGRADES, WAIT_BUILD, WAIT_BUILDSTART}
    ensures Enough(s, b, ctl, w) <==>
              || (s.code[b] in {TRAIN, WAIT_FORCE, WAIT_TRAIN} && w.unitCount >= s.code[b + 1])
              || (s.code[b] == WAIT_UPGRADES && ctl.upgradesFinished)
  {
    hide HandlerOf, HasHandler, IsBlocking;
    var op := s.code[b];
    assert op in OPCODE_LIST ==> HasHandler(op) && OPCODE_LIST[op] == HandlerOf(op);
    BlockingHandlers(op);
  }

  lemma BlockingHandlers(op: Byte)
    ensures op in {TRAIN, WAIT_FORCE, WAIT_TRAIN, WAIT_UPGRADES, WAIT_BUILD, WAIT_BUILDSTART} ==> HasHandler(op)
    ensures HasHandler(op) ==>
              var action := HandlerOf(op).action;
              && (action.Train? <==> op in {TRAIN, WAIT_FORCE})
              && (action.WaitTrain? <==> op == WAIT_TRAIN)
              && (action.WaitUpgrades? <==> op == WAIT_UPGRADES)
              && (IsBlocking(action) <==>
                    op in {TRAIN, WAIT_FORCE, WAIT_TRAIN, WAIT_UPGRADES, WAIT_BUILD, WAIT_BUILDSTART})
  {
  }

  // ---- jumps ----

  lemma GotoJumps(s: Script, t: Thread, ctl: Controller, w: World)
    requires ctl.Shaped() && Stands(s, t, GOTO, 2)
    ensures ReadOpcode(s, t, ctl, w) == Goes(t, GOTO, At16(s.code, t.offset + 1), ctl)
  {
    HandlerRuns(s, t, GOTO, Handler(2, Goto), ctl, w);
  }

  /** Where the target word of a conditional jump stands behind its opcode. */
  function TargetAt(op: Byte): Option<nat> {
    if op == 60 then Some(1)                                      // GROUNDMAP_JUMP
    else if op in {48, 49, 73} then Some(2)                       // RANDOM_JUMP, TIME_JUMP, RUSH
    else if op in {1, 93, 106} then Some(3)                       // NOTOWNS_JUMP, ENEMYOWNS_JUMP, IF_OWNED
    else if op in {84, 94} then Some(5)                           // RESOURCES_JUMP, ENEMYRESOURCES_JUMP
    else None
  }

  /** A conditional jump stands at its target exactly when the game says so; the target comes last. */
  lemma ConditionalJumps(s: Script, t: Thread, op: Byte, ctl: Controller, w: World)
    requires ctl.Shaped() && TargetAt(op).Some? && Stands(s, t, op, TargetAt(op).value + 1)
    ensures var at := t.offset + TargetAt(op).value;
            ReadOpcode(s, t, ctl, w) == Goes(t, op, if w.jump then At16(s.code, at) else at + 2, ctl)
  {
    var i := TargetAt(op).value - 1;
    HandlerRuns(s, t, op, Handler(i + 2, CondJump(i)), ctl, w);
  }

  /** IF_DIF jumps when the difficulty is above the value, or below it for a zero modifier. */
  lemma IfDifJumps(s: Script, t: Thread, ctl: Controller, w: World)
    requires ctl.Shaped() && Stands(s, t, IF_DIF, 4)
    ensures var modifier, value := s.code[t.offset + 1], s.code[t.offset + 2];
            var holds := if modifier != 0 then ctl.ifDif > value else ctl.ifDif < value;
            ReadOpcode(s, t, ctl, w)
            == Goes(t, IF_DIF, if holds then At16(s.code, t.offset + 3) else t.offset + 5, ctl)
  {
    HandlerRuns(s, t, IF_DIF, Handler(4, IfDif), ctl, w);
  }

  /** RACE_JUMP holds the targets for Terran, Zerg and Protoss in this order and always jumps. */
  lemma RaceJumps(s: Script, t: Thread, ctl: Controller, w: World)
    requires ctl.Shaped() && Stands(s, t, RACE_JUMP, 6)
    ensures var at := t.offset + match w.race case Terran => 1 case Zerg => 3 case Protoss => 5;
            ReadOpcode(s, t, ctl, w) == Goes(t, RACE_JUMP, At16(s.code, at), ctl)
  {
    HandlerRuns(s, t, RACE_JUMP, Handler(6, RaceJump), ctl, w);
  }

  /** DEBUG jumps over its string when both strings it prints end inside the script. */
  lemma DebugJumps(s: Script, t: Thread, ctl: Controller, w: World)
    requires ctl.Shaped() && Stands(s, t, DEBUG, 2)
    ensures var target := At16(s.code, t.offset + 1);
            ReadOpcode(s, t, ctl, w)
            == if Terminated(s.code, t.offset + 3) && Terminated(s.code, target)
               then Goes(t, DEBUG, target, ctl) else Fault
  {
    hide Terminated;
    HandlerRuns(s, t, DEBUG, Handler(2, Debug), ctl, w);
  }

  // ---- calls and threads ----

  lemma CallJumps(s: Script, t: Thread, ctl: Controller, w: World)
    requires ctl.Shaped() && Stands(s, t, CALL, 2)
    ensures var there := Moved(t, CALL, At16(s.code, t.offset + 1));
            ReadOpcode(s, t, ctl, w)
            == Ran(there.(calls := t.calls + [t.offset + 3]), ctl, true, None, false)
  {
    HandlerRuns(s, t, CALL, Handler(2, Call), ctl, w);
  }

  /** RETURN goes back to the last address pushed; without one it ends the thread. */
  lemma ReturnPops(s: Script, t: Thread, ctl: Controller, w: World)
    requires ctl.Shaped() && Stands(s, t, RETURN, 0)
    ensures var n := |t.calls|;
            ReadOpcode(s, t, ctl, w)
            == if n == 0 then Ran(Moved(t, RETURN, t.offset + 1).(wantKilled := true), ctl, false, None, false)
               else Ran(Moved(t, RETURN, t.calls[n - 1]).(calls := t.calls[..n - 1]), ctl, true, None, false)
  {
    HandlerRuns(s, t, RETURN, Handler(0, Return), ctl, w);
  }

  /** MULTIRUN starts a thread at its operand and goes on. */
  lemma MultirunForks(s: Script, t: Thread, ctl: Controller, w: World)
    requires ctl.Shaped() && Stands(s, t, MULTIRUN, 2)
    ensures ReadOpcode(s, t, ctl, w)
         == Ran(Moved(t, MULTIRUN, t.offset + 3), ctl, true, Some(At16(s.code, t.offset + 1)), false)
  {
    HandlerRuns(s, t, MULTIRUN, Handler(2, Multirun), ctl, w);
  }

  function MarkAction(op: Byte): Action {
    if op == KILL_THREAD then KillThread else if op == KILLABLE then Killable
    else if op == STOP then Stop else FatalError
  }

  lemma MarkHandlers(op: Byte)
    requires op in {KILL_THREAD, KILLABLE, STOP, FATAL_ERROR}
    ensures HandlerOf(op) == Handler(0, MarkAction(op))
  {
  }

  lemma ThreadMarks(s: Script, t: Thread, op: Byte, ctl: Controller, w: World)
    requires ctl.Shaped() && Stands(s, t, op, 0) && op in {KILL_THREAD, KILLABLE, STOP, FATAL_ERROR}
    ensures var u := Moved(t, op, t.offset + 1);
            ReadOpcode(s, t, ctl, w)
            == if op == KILL_THREAD then Ran(u, ctl, true, None, true)
               else if op == KILLABLE then Ran(u.(killable := true), ctl, true, None, false)
               else Ran(u.(wantKilled := true), ctl, false, None, false)
  {
    hide HandlerOf;
    MarkHandlers(op);
    HandlerRuns(s, t, op, Handler(0, MarkAction(op)), ctl, w);
  }

  // ---- the controller ----

  lemma TownStarts(s: Script, t: Thread, op: Byte, ctl: Controller, w: World)
    requires ctl.Shaped() && Stands(s, t, op, 0) && op in {START_TOWN, START_AREATOWN}
    ensures ReadOpcode(s, t, ctl, w) == Goes(t, op, t.offset + 1, ctl.(ifDif := 1))
  {
    HandlerRuns(s, t, op, Handler(0, StartTown), ctl, w);
  }

  /** What an add makes of a slot array: as many copies of the type as fit, behind its entries. */
  ghost predicate Appended(before: seq<nat>, after: seq<nat>, inRange: bool, count: int, unitType: int)
  {
    && |after| == |before| && Slots.Packed(after)
    && Slots.Entries(after)
       == Slots.Entries(before)
          + if inRange && count >= 0 && 0 <= unitType < 228
            then Slots.Copies(unitType + 1, Slots.Min(count, |before| - |Slots.Entries(before)|)) else []
  }

  lemma AttackAddedMeans(row: seq<nat>, count: int, unitType: nat)
    requires Slots.Packed(row) && |row| == 64
    ensures Appended(row, Slots.AttackAdded(row, count, unitType), 1 <= count <= 63, count, unitType)
  {
    Slots.AttackAddRefines(row, count, unitType);
    hide Slots.AttackAdded, Slots.Packed, Slots.Entries;
  }

  lemma DefenseAddedMeans(row: seq<nat>, count: nat, unitType: nat)
    requires Slots.Packed(row) && |row| == 10
    ensures Appended(row, Slots.DefenseAdded(row, count, unitType), count <= 10, count, unitType)
  {
    Slots.DefenseAddRefines(row, count, unitType);
    hide Slots.DefenseAdded, Slots.Packed, Slots.Entries;
  }

  lemma AddHandlers(op: Byte)
    requires op in {ATTACK_ADD, EASY_ATTACK}
    ensures HandlerOf(op) == if op == ATTACK_ADD then Handler(3, AttackAdd) else Handler(3, EasyAttack)
  {
  }

  /** EASY_ATTACK adds only at difficulty 0, ATTACK_ADD always; out-of-range operands add nothing. */
  lemma AttackAdds(s: Script, t: Thread, op: Byte, ctl: Controller, w: World)
    requires ctl.Shaped() && ctl.AllPacked() && Stands(s, t, op, 3) && op in {ATTACK_ADD, EASY_ATTACK}
    ensures var o := ReadOpcode(s, t, ctl, w);
            var count, unitType := s.code[t.offset + 1], At16(s.code, t.offset + 2);
            && o.Ran? && o == Goes(t, op, t.offset + 4, ctl.(attack := o.ctl.attack))
            && (op == EASY_ATTACK && ctl.ifDif > 0 ==> o.ctl.attack == ctl.attack)
            && (op == ATTACK_ADD || ctl.ifDif == 0 ==>
                  Appended(ctl.attack, o.ctl.attack, 1 <= count <= 63, count, unitType))
  {
    hide HandlerOf, Appended, Slots.AttackAdded, Slots.Packed;
    AddHandlers(op);
    HandlerRuns(s, t, op, if op == ATTACK_ADD then Handler(3, AttackAdd) else Handler(3, EasyAttack), ctl, w);
    AttackAddedMeans(ctl.attack, s.code[t.offset + 1], Word(s.code, t.offset + 2));
  }

  lemma AttackClears(s: Script, t: Thread, op: Byte, ctl: Controller, w: World)
    requires ctl.Shaped() && op in {ATTACK_CLEAR, SEND_SUICIDE}
    requires Stands(s, t, op, if op == ATTACK_CLEAR then 0 else 1)
    ensures var o := ReadOpcode(s, t, ctl, w);
            && o.Ran?
            && o == Goes(t, op, t.offset + (if op == ATTACK_CLEAR then 1 else 2), ctl.(attack := o.ctl.attack))
            && |o.ctl.attack| == |ctl.attack| && forall i :: 0 <= i < |o.ctl.attack| ==> o.ctl.attack[i] == 0
  {
    HandlerRuns(s, t, op, Handler(if op == ATTACK_CLEAR then 0 else 1, AttackClear), ctl, w);
  }

  lemma DefenseHandlers(row: nat)
    requires row < 4
    ensures HandlerOf(DEFENSEBUILD_GG + row) == Handler(3, DefenseBuild(row))
    ensures HandlerOf(DEFENSEUSE_GG + row) == Handler(3, DefenseUse(row))
    ensures HandlerOf(DEFENSECLEAR_GG + row) == Handler(0, DefenseClear(row))
  {
  }

  /** The four DEFENSEBUILD opcodes add to their own row of the build table, and nothing else. */
  lemma DefenseBuilds(s: Script, t: Thread, row: nat, ctl: Controller, w: World)
    requires ctl.Shaped() && ctl.AllPacked() && row < 4 && Stands(s, t, DEFENSEBUILD_GG + row, 3)
    ensures var o := ReadOpcode(s, t, ctl, w);
            var count, unitType := s.code[t.offset + 1], At16(s.code, t.offset + 2);
            && o.Ran? && |o.ctl.defenseBuild| == 4
            && o == Goes(t, DEFENSEBUILD_GG + row, t.offset + 4,
                         ctl.(defenseBuild := ctl.defenseBuild[row := o.ctl.defenseBuild[row]]))
            && Appended(ctl.defenseBuild[row], o.ctl.defenseBuild[row], count <= 10, count, unitType)
  {
    hide HandlerOf, Appended, Slots.DefenseAdded, Slots.Packed;
    DefenseHandlers(row);
    HandlerRuns(s, t, DEFENSEBUILD_GG + row, Handler(3, DefenseBuild(row)), ctl, w);
    DefenseAddedMeans(ctl.defenseBuild[row], s.code[t.offset + 1], Word(s.code, t.offset + 2));
  }

  lemma DefenseUses(s: Script, t: Thread, row: nat, ctl: Controller, w: World)
    requires ctl.Shaped() && ctl.AllPacked() && row < 4 && Stands(s, t, DEFENSEUSE_GG + row, 3)
    ensures var o := ReadOpcode(s, t, ctl, w);
            var count, unitType := s.code[t.offset + 1], At16(s.code, t.offset + 2);
            && o.Ran? && |o.ctl.defenseUse| == 4
            && o == Goes(t, DEFENSEUSE_GG + row, t.offset + 4,
                         ctl.(defenseUse := ctl.defenseUse[row := o.ctl.defenseUse[row]]))
            && Appended(ctl.defenseUse[row], o.ctl.defenseUse[row], count <= 10, count, unitType)
  {
    hide HandlerOf, Appended, Slots.DefenseAdded, Slots.Packed;
    DefenseHandlers(row);
    HandlerRuns(s, t, DEFENSEUSE_GG + row, Handler(3, DefenseUse(row)), ctl, w);
    DefenseAddedMeans(ctl.defenseUse[row], s.code[t.offset + 1], Word(s.code, t.offset + 2));
  }

  ghost predicate AllZero(row: seq<nat>) {
    forall i :: 0 <= i < |row| ==> row[i] == 0
  }

  /** The four DEFENSECLEAR opcodes clear their own row of both tables, and nothing else. */
  lemma DefenseClears(s: Script, t: Thread, row: nat, ctl: Controller, w: World)
    requires ctl.Shaped() && row < 4 && Stands(s, t, DEFENSECLEAR_GG + row, 0)
    ensures var o := ReadOpcode(s, t, ctl, w);
            && o.Ran? && o.ctl.Shaped()
            && o == Goes(t, DEFENSECLEAR_GG + row, t.offset + 1,
                         ctl.(defenseBuild := ctl.defenseBuild[row := o.ctl.defenseBuild[row]],
                              defenseUse := ctl.defenseUse[row := o.ctl.defenseUse[row]]))
            && AllZero(o.ctl.defenseBuild[row]) && AllZero(o.ctl.defenseUse[row])
  {
    hide HandlerOf;
    DefenseHandlers(row);
    HandlerRuns(s, t, DEFENSECLEAR_GG + row, Handler(0, DefenseClear(row)), ctl, w);
  }

  // ---- the rest ----

  /** The operand bytes of the opcodes that only read them. */
  function IgnoredBytes(op: Byte): nat {
    if op in {34, 45, 59, 67, 79, 87, 88} then 1
    else if op in {5, 46, 55, 63, 66, 68, 74} then 2
    else if op in {8, 58, 61, 69, 75, 111, 112} then 3
    else if op in {6, 7, 83, 105, 109} then 4
    else if op == 108 then 6
    else 0
  }

  predicate HasLaw(op: Byte) {
    || op in {GOTO, WAIT, START_TOWN, START_AREATOWN, WAIT_BUILD, WAIT_BUILDSTART, ATTACK_CLEAR, ATTACK_ADD}
    || DEFENSEBUILD_GG <= op <= SEND_SUICIDE
    || op in {STOP, DEBUG, FATAL_ERROR, RACE_JUMP, WAIT_FORCE, CALL, RETURN, DO_MORPH, WAIT_UPGRADES, MULTIRUN}
    || op in {TRAIN, WAIT_TRAIN, IF_DIF, EASY_ATTACK, KILL_THREAD, KILLABLE}
    || TargetAt(op).Some?
  }

  /** Every other opcode moves past its operands and does nothing else. */
  lemma OthersFallThrough(s: Script, t: Thread, op: Byte, ctl: Controller, w: World)
    requires ctl.Shaped() && op < 113 && op != WAIT_SECURE && !HasLaw(op)
    requires Stands(s, t, op, IgnoredBytes(op))
    ensures ReadOpcode(s, t, ctl, w) == Goes(t, op, t.offset + 1 + IgnoredBytes(op), ctl)
  {
    OthersArePlain(op);
    hide HasLaw, IgnoredBytes, HandlerOf;
    HandlerRuns(s, t, op, Handler(IgnoredBytes(op), Plain), ctl, w);
  }

  lemma OthersArePlain(op: Byte)
    requires HasHandler(op) && !HasLaw(op)
    ensures HandlerOf(op) == Handler(IgnoredBytes(op), Plain)
  {
  }

  /** An opcode number without a handler yields and keeps the retry state. */
  lemma UnknownsYield(s: Script, t: Thread, op: Byte, ctl: Controller, w: World)
    requires ctl.Shaped() && (op >= 113 || op == WAIT_SECURE) && Stands(s, t, op, 0)
    ensures ReadOpcode(s, t, ctl, w) == Ran(t.(offset := t.offset + 1, bytesRead := 1), ctl, false, None, false)
  {
  }

  // ---- the read loop ----

  /** A thread just created: awake, unmarked, with an empty call stack and log. */
  predicate Newborn(t: Thread, serial: nat, start: nat) {
    && t.serial == serial && t.offset == start && t.sleep == 0
    && !t.killable && !t.wantKilled && !t.retryBlock && t.bytesRead == 0
    && t.calls == [] && t.log == []
  }

  /** After MULTIRUN the new thread stands in front of the list, and the old one goes on running. */
  lemma MultirunStep(s: Script, vm: Vm, w: World)
    requires vm.ctl.Shaped() && vm.running && vm.todo != [] && Stands(s, vm.todo[0], MULTIRUN, 2)
    ensures var r, t := Step(Some(s), vm, Tick(w)), vm.todo[0];
            && r.Next? && r.event == Executed(t.serial, t.offset)
            && r.vm.todo == [Moved(t, MULTIRUN, t.offset + 3)] + vm.todo[1..] && r.vm.running
            && |r.vm.done| == |vm.done| + 1 && r.vm.done[1..] == vm.done
            && Newborn(r.vm.done[0], vm.nextSerial, At16(s.code, t.offset + 1))
            && r.vm.count == vm.count + 1 && r.vm.nextSerial == vm.nextSerial + 1
  {
    MultirunForks(s, vm.todo[0], vm.ctl, w);
    hide ReadOpcode, Stands, PushLog;
  }

  /** Between two passes a script launched by the player becomes a new thread in front. */
  lemma LaunchStep(binary: Option<Script>, vm: Vm, start: nat)
    requires vm.ctl.Shaped() && vm.AtBoundary()
    ensures var r := Step(binary, vm, Launch(start));
            && r.Next? && |r.vm.done| == |vm.done| + 1 && r.vm.done[1..] == vm.done
            && Newborn(r.vm.done[0], vm.nextSerial, start)
            && r.vm.count == vm.count + 1
  {
  }

  /** A success goes on reading, unless the thread came to offset 0: that kills it. */
  lemma SuccessGoesOn(s: Script, vm: Vm, w: World, u: Thread, ctl: Controller)
    requires vm.ctl.Shaped() && vm.running && vm.todo != []
    requires ReadOpcode(s, vm.todo[0], vm.ctl, w) == Ran(u, ctl, true, None, false)
    ensures var r := Step(Some(s), vm, Tick(w));
            && r.Next? && r.vm.ctl == ctl
            && if u.offset != 0 then r.vm.running && r.vm.todo == [u] + vm.todo[1..] && r.vm.done == vm.done
               else !r.vm.running && r.vm.todo == vm.todo[1..] && r.vm.done == vm.done + [u.(wantKilled := true)]
  {
    hide ReadOpcode;
  }

  /** A break ends the thread's turn for this pass. */
  lemma BreakEndsTurn(s: Script, vm: Vm, w: World, u: Thread, ctl: Controller)
    requires vm.ctl.Shaped() && vm.running && vm.todo != []
    requires ReadOpcode(s, vm.todo[0], vm.ctl, w) == Ran(u, ctl, false, None, false)
    ensures var r := Step(Some(s), vm, Tick(w));
            && r.Next? && r.vm.ctl == ctl
            && !r.vm.running && r.vm.todo == vm.todo[1..] && r.vm.done == vm.done + [u]
  {
    hide ReadOpcode;
  }

  /** KILL_THREAD marks every killable thread of the list, the one that runs it included. */
  lemma KillThreadStep(s: Script, vm: Vm, w: World)
    requires vm.ctl.Shaped() && vm.running && vm.todo != [] && Stands(s, vm.todo[0], KILL_THREAD, 0)
    ensures var r, t := Step(Some(s), vm, Tick(w)), vm.todo[0];
            var before := vm.done + [Moved(t, KILL_THREAD, t.offset + 1)] + vm.todo[1..];
            && r.Next? && |r.vm.done| == |vm.done| && r.vm.running && |r.vm.All()| == |before|
            && forall i :: 0 <= i < |before| ==>
                 r.vm.All()[i] == before[i].(wantKilled := before[i].wantKilled || before[i].killable)
  {
    ThreadMarks(s, vm.todo[0], KILL_THREAD, vm.ctl, w);
    hide ReadOpcode, Stands, PushLog;
  }
}
