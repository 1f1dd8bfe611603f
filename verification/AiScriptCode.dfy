/**
  The AIScript instruction set: one handler per opcode, the number of operand bytes it
  reads, and what it does to the thread that runs it.
 */
module AiScriptCode {
  import opened Common

  type Code = seq<Byte>

  datatype Action =
    | Plain                    // reads its operands and falls through
    | StartTown                // sets the difficulty to 1 and falls through
    | Goto
    | CondJump(at: nat)        // target word at this operand; taken when the game says so
    | IfDif                    // conditional on the controller's difficulty
    | RaceJump                 // one of three targets, no fall-through
    | Debug                    // jumps over an inline string
    | Call
    | Return
    | Multirun
    | KillThread
    | Killable
    | Stop
    | FatalError
    | Wait
    | Train                    // blocks while too few units exist
    | DoMorph                  // like Train, but never blocks
    | WaitTrain
    | WaitUpgrades
    | WaitBuild                // always blocks
    | AttackAdd
    | EasyAttack
    | AttackClear
    | DefenseBuild(row: nat)
    | DefenseUse(row: nat)
    | DefenseClear(row: nat)

  datatype HandlerShape = Handler(width: nat, action: Action)

  /** The operands an action looks at lie within the bytes its handler reads. */
  predicate Fits(h: HandlerShape) {
    match h.action
    case Goto => h.width >= 2
    case CondJump(at) => h.width >= at + 2
    case IfDif => h.width >= 4
    case RaceJump => h.width >= 6
    case Debug => h.width >= 2
    case Call => h.width >= 2
    case Multirun => h.width >= 2
    case Train => h.width >= 3
    case DoMorph => h.width >= 3
    case WaitTrain => h.width >= 3
    case AttackAdd => h.width >= 3
    case EasyAttack => h.width >= 3
    case DefenseBuild(row) => h.width >= 3 && row < 4
    case DefenseUse(row) => h.width >= 3 && row < 4
    case DefenseClear(row) => row < 4
    case _ => true
  }

  type Handler = h: HandlerShape | Fits(h) witness Handler(0, Plain)

  /** A script binary together with the opcode table that decodes it. */
  datatype Script = Script(code: Code, table: map<Byte, Handler>)

  const LAST: nat := 113

  function HandlerFrom0(op: Byte): Handler
    requires 0 <= op < 23
  {
    match op
    case 0 => Handler(2, Goto)
    case 1 => Handler(4, CondJump(2))         // NOTOWNS_JUMP
    case 2 => Handler(2, Wait)
    case 3 => Handler(0, StartTown)
    case 4 => Handler(0, StartTown)           // START_AREATOWN
    case 5 => Handler(2, Plain)               // EXPAND reads two bytes
    case 6 => Handler(4, Plain)               // BUILD
    case 7 => Handler(4, Plain)               // UPGRADE
    case 8 => Handler(3, Plain)               // TECH
    case 9 => Handler(3, WaitBuild)
    case 10 => Handler(3, WaitBuild)          // WAIT_BUILDSTART
    case 11 => Handler(0, AttackClear)
    case 12 => Handler(3, AttackAdd)
    case 19 => Handler(3, DefenseBuild(0))
    case 20 => Handler(3, DefenseBuild(1))
    case 21 => Handler(3, DefenseBuild(2))
    case 22 => Handler(3, DefenseBuild(3))
    case _ => Handler(0, Plain)
  }

  function HandlerFrom23(op: Byte): Handler
    requires 23 <= op < 58
  {
    match op
    case 23 => Handler(3, DefenseUse(0))
    case 24 => Handler(3, DefenseUse(1))
    case 25 => Handler(3, DefenseUse(2))
    case 26 => Handler(3, DefenseUse(3))
    case 27 => Handler(0, DefenseClear(0))
    case 28 => Handler(0, DefenseClear(1))
    case 29 => Handler(0, DefenseClear(2))
    case 30 => Handler(0, DefenseClear(3))
    case 31 => Handler(1, AttackClear)        // SEND_SUICIDE
    case 34 => Handler(1, Plain)              // DEFAULT_MIN
    case 36 => Handler(0, Stop)
    case 39 => Handler(2, Debug)
    case 40 => Handler(0, FatalError)
    case 45 => Handler(1, Plain)              // NUKE_RATE
    case 46 => Handler(2, Plain)              // MAX_FORCE
    case 48 => Handler(3, CondJump(1))        // RANDOM_JUMP
    case 49 => Handler(3, CondJump(1))        // TIME_JUMP
    case 55 => Handler(2, Plain)              // HARASS_FACTOR
    case 57 => Handler(6, RaceJump)
    case _ => Handler(0, Plain)
  }

  function HandlerFrom58(op: Byte): Handler
    requires 58 <= op < 78
  {
    match op
    case 58 => Handler(3, Plain)              // REGION_SIZE
    case 59 => Handler(1, Plain)              // GET_OLDPEONS
    case 60 => Handler(2, CondJump(0))        // GROUNDMAP_JUMP
    case 61 => Handler(3, Plain)              // PLACE_GUARD
    case 62 => Handler(3, Train)              // WAIT_FORCE
    case 63 => Handler(2, Plain)              // GUARD_RESOURCES
    case 64 => Handler(2, Call)
    case 65 => Handler(0, Return)
    case 66 => Handler(2, Plain)              // EVAL_HARASS
    case 67 => Handler(1, Plain)              // CREEP
    case 68 => Handler(2, Plain)              // PANIC
    case 69 => Handler(3, Plain)              // PLAYER_NEED
    case 70 => Handler(3, DoMorph)
    case 71 => Handler(0, WaitUpgrades)
    case 72 => Handler(2, Multirun)
    case 73 => Handler(3, CondJump(1))        // RUSH
    case 74 => Handler(2, Plain)              // SCOUT_WITH
    case 75 => Handler(3, Plain)              // DEFINE_MAX
    case 76 => Handler(3, Train)
    case _ => Handler(0, Plain)
  }

  function HandlerFrom78(op: Byte): Handler
    requires 78 <= op < 113
  {
    match op
    case 78 => Handler(3, WaitTrain)
    case 79 => Handler(1, Plain)              // SET_ATTACKS
    case 83 => Handler(4, Plain)              // PREP_DOWN
    case 84 => Handler(6, CondJump(4))        // RESOURCES_JUMP
    case 87 => Handler(1, Plain)              // SHAREDVISION_ON
    case 88 => Handler(1, Plain)              // SHAREDVISION_OFF
    case 93 => Handler(4, CondJump(2))        // ENEMYOWNS_JUMP
    case 94 => Handler(6, CondJump(4))        // ENEMYRESOURCES_JUMP
    case 95 => Handler(4, IfDif)
    case 96 => Handler(3, EasyAttack)
    case 97 => Handler(0, KillThread)
    case 98 => Handler(0, Killable)
    case 105 => Handler(4, Plain)             // SET_RANDOMSEED
    case 106 => Handler(4, CondJump(2))       // IF_OWNED
    case 108 => Handler(6, Plain)             // CREATE_UNIT
    case 109 => Handler(4, Plain)             // NUKE_POS
    case 111 => Handler(3, Plain)             // ALLIES_WATCH
    case 112 => Handler(3, Plain)             // TRY_TOWNPOINT
    case _ => Handler(0, Plain)
  }

  predicate HasHandler(op: Byte) {
    op < LAST && op != 15                     // WAIT_SECURE has none
  }

  function HandlerOf(op: Byte): Handler
    requires HasHandler(op)
  {
    if op < 23 then HandlerFrom0(op)
    else if op < 58 then HandlerFrom23(op)
    else if op < 78 then HandlerFrom58(op)
    else HandlerFrom78(op)
  }

  const OPCODE_LIST: map<Byte, Handler> := map op: Byte | 0 <= op < 256 && HasHandler(op) :: HandlerOf(op)

  /** The handlers that may ask to be retried. */
  predicate IsBlocking(a: Action) {
    a.Train? || a.WaitTrain? || a.WaitUpgrades? || a.WaitBuild?
  }

  function Word(code: Code, at: nat): (w: nat)
    requires at + 2 <= |code|
    ensures w < 65536
  {
    var low: int, high: int := code[at], code[at + 1];
    low + 256 * high
  }

  /** A C string starts here and ends inside the script. */
  predicate Terminated(code: Code, at: nat) {
    exists k :: at <= k < |code| && code[k] == 0
  }
}
