/**
  Requests and the wire commands they mean: which form each command name has, which
  arguments the form accepts, and what goes into which field.
 */
module CommandForms {
  import opened Common
  import opened CommandWire

  datatype Kind = UnitCommand | GameAction | UnknownKind

  datatype Request = Request(kind: Kind, name: string, target: int, args: seq<int>)

  // Order identifiers used by the encoder.
  const MOVE: int := 6
  const ATTACK1: int := 8
  const ATTACK_MOVE: int := 14
  const REPAIR: int := 34
  const PLACE_ADDON: int := 36
  const RALLY_UNIT: int := 39
  const RALLY_TILE: int := 40
  const FOLLOW: int := 49
  const BUILDING_LAND: int := 71
  const HARVEST1: int := 79
  const MOVE_UNLOAD: int := 112
  const PATROL: int := 152
  const CTF_COP2: int := 155

  const INT32_MAX: int := 0x7fff_ffff

  /** The encoding functions of the source, with the constants each call passes. */
  datatype Form =
    | PositionAttack(order: int)
    | PositionAttackUnqueued(order: int)
    | UnitAttack(order: int)
    | UnitAttackUnqueued(order: int)
    | RightClickPosition
    | RightClickUnit
    | QueuedOpcode(opcode: Byte)
    | FixedQueued(opcode: Byte, queued: int)
    | UnusedByte(opcode: Byte)
    | SingleOpcode(opcode: Byte)
    | TileAndType(order: int)
    | Build
    | Type16(opcode: Byte)
    | Type8(opcode: Byte)
    | TrainCancel
    | LiftOff
    | UseTech
    | UseTechPosition
    | UseTechUnit
    | Load
    | Unload
    | PingMinimap
    | SetAlliance

  /** The constants in the dispatch tables are ones the wire format knows. */
  predicate GoodForm(f: Form) {
    match f
    case PositionAttack(order) => InU8(order)
    case PositionAttackUnqueued(order) => InU8(order)
    case UnitAttack(order) => InU8(order)
    case UnitAttackUnqueued(order) => InU8(order)
    case QueuedOpcode(op) => IsWithQueued(op)
    case FixedQueued(op, queued) => IsWithQueued(op) && queued == 0
    case UnusedByte(op) => IsWithZero(op)
    case SingleOpcode(op) => IsPlain(op)
    case TileAndType(order) => InU8(order)
    case Type16(op) => IsWithWord(op)
    case Type8(op) => IsWithByte(op)
    case _ => true
  }

  function UnitForm(name: string): (f: Option<Form>)
    ensures f.Some? ==> GoodForm(f.value)
  {
    if name == "Move" then Some(PositionAttack(MOVE))
    else if name == "Attack_Move" then Some(PositionAttack(ATTACK_MOVE))
    else if name == "Patrol" then Some(PositionAttack(PATROL))
    else if name == "Set_Rally_Position" then Some(PositionAttackUnqueued(RALLY_TILE))
    else if name == "Unload_All_Position" then Some(PositionAttack(MOVE_UNLOAD))
    else if name == "Attack_Unit" then Some(UnitAttack(ATTACK1))
    else if name == "Follow" then Some(UnitAttack(FOLLOW))
    else if name == "Gather" then Some(UnitAttack(HARVEST1))
    else if name == "Repair" then Some(UnitAttack(REPAIR))
    else if name == "Set_Rally_Unit" then Some(UnitAttackUnqueued(RALLY_UNIT))
    else if name == "Right_Click_Position" then Some(RightClickPosition)
    else UnitFormMore(name)
  }

  function UnitFormMore(name: string): (f: Option<Form>)
    ensures f.Some? ==> GoodForm(f.value)
  {
    if name == "Right_Click_Unit" then Some(RightClickUnit)
    else if name == "Stop" then Some(QueuedOpcode(0x1a))
    else if name == "Halt_Construction" then Some(FixedQueued(0x1a, 0))
    else if name == "Hold_Position" then Some(QueuedOpcode(0x2b))
    else if name == "Return_Cargo" then Some(QueuedOpcode(0x1e))
    else if name == "Burrow" then Some(UnusedByte(0x2c))
    else if name == "Unburrow" then Some(UnusedByte(0x2d))
    else if name == "Cloak" then Some(UnusedByte(0x21))
    else if name == "Decloak" then Some(UnusedByte(0x22))
    else if name == "Siege" then Some(UnusedByte(0x26))
    else if name == "Unsiege" then Some(UnusedByte(0x25))
    else UnitFormRest(name)
  }

  function UnitFormRest(name: string): (f: Option<Form>)
    ensures f.Some? ==> GoodForm(f.value)
  {
    if name == "Lift" then Some(LiftOff)
    else if name == "Cancel_Construction" then Some(SingleOpcode(0x18))
    else if name == "Cancel_Addon" then Some(SingleOpcode(0x34))
    else if name == "Cancel_Research" then Some(SingleOpcode(0x31))
    else if name == "Cancel_Upgrade" then Some(SingleOpcode(0x33))
    else if name == "Cancel_Train" || name == "Cancel_Train_Slot" then Some(TrainCancel)
    else if name == "Train" then Some(Type16(0x1f))
    else if name == "Morph" then Some(Type16(0x23))
    else if name == "Research" then Some(Type8(0x30))
    else if name == "Upgrade" then Some(Type8(0x32))
    else if name == "Build" then Some(Build)
    else UnitFormLast(name)
  }

  function UnitFormLast(name: string): (f: Option<Form>)
    ensures f.Some? ==> GoodForm(f.value)
  {
    if name == "Build_Addon" then Some(TileAndType(PLACE_ADDON))
    else if name == "Land" then Some(TileAndType(BUILDING_LAND))
    else if name == "Place_COP" then Some(TileAndType(CTF_COP2))
    else if name == "Load" then Some(Load)
    else if name == "Unload_All" then Some(UnusedByte(0x28))
    else if name == "Cancel_Morph" then Some(SingleOpcode(0x19))
    else if name == "Use_Tech" then Some(UseTech)
    else if name == "Use_Tech_Position" then Some(UseTechPosition)
    else if name == "Use_Tech_Unit" then Some(UseTechUnit)
    else if name == "Unload" then Some(Unload)
    else None
  }

  function ActionForm(name: string): (f: Option<Form>)
    ensures f.Some? ==> GoodForm(f.value)
  {
    if name == "pauseGame" then Some(SingleOpcode(0x10))
    else if name == "resumeGame" then Some(SingleOpcode(0x11))
    else if name == "restartGame" then Some(SingleOpcode(0x08))
    else if name == "pingMinimap" then Some(PingMinimap)
    else if name == "setAlliance" then Some(SetAlliance)
    else if name == "setVision" then Some(Type16(0x0d))
    else None
  }

  /** An optional trailing queued flag at this index. */
  predicate QueuedOk(args: seq<int>, index: nat) {
    |args| <= index || (|args| == index + 1 && Flag(args[index]))
  }

  function QueuedAt(args: seq<int>, index: nat): int {
    if index < |args| then args[index] else 0
  }

  /** The wire command a request means under a form, or None when it must be rejected. */
  function FormWire(f: Form, r: Request): Option<Wire> {
    var a, n := r.args, |r.args|;
    match f
    case PositionAttack(order) =>
      if n >= 2 && InS16(a[0]) && InS16(a[1]) && QueuedOk(a, 2)
      then Some(Targeted(a[0], a[1], 0, order, QueuedAt(a, 2))) else None
    case PositionAttackUnqueued(order) =>
      if n == 2 && InS16(a[0]) && InS16(a[1]) then Some(Targeted(a[0], a[1], 0, order, 0)) else None
    case UnitAttack(order) =>
      if UnitId(r.target) && QueuedOk(a, 0)
      then Some(Targeted(0, 0, r.target, order, QueuedAt(a, 0))) else None
    case UnitAttackUnqueued(order) =>
      if UnitId(r.target) && n == 0 then Some(Targeted(0, 0, r.target, order, 0)) else None
    case RightClickPosition =>
      if n >= 2 && InS16(a[0]) && InS16(a[1]) && QueuedOk(a, 2)
      then Some(RightClick(a[0], a[1], 0, QueuedAt(a, 2))) else None
    case RightClickUnit =>
      if UnitId(r.target) && QueuedOk(a, 0)
      then Some(RightClick(0, 0, r.target, QueuedAt(a, 0))) else None
    case QueuedOpcode(op) => if QueuedOk(a, 0) then Some(WithQueued(op, QueuedAt(a, 0))) else None
    case FixedQueued(op, queued) => if n == 0 then Some(WithQueued(op, queued)) else None
    case UnusedByte(op) => if n == 0 then Some(WithZero(op)) else None
    case SingleOpcode(op) => if n == 0 then Some(Plain(op)) else None
    case TileAndType(order) =>
      if n == 3 && InS16(a[0]) && InS16(a[1]) && InU16(a[2])
      then Some(Place(order, a[0], a[1], a[2])) else None
    case Build =>
      if n == 4 && InS16(a[0]) && InS16(a[1]) && InU16(a[2]) && InU8(a[3])
      then Some(Place(a[3], a[0], a[1], a[2])) else None
    case Type16(op) => if n == 1 && InU16(a[0]) then Some(WithWord(op, a[0])) else None
    case Type8(op) => if n == 1 && InU8(a[0]) then Some(WithByte(op, a[0])) else None
    case TrainCancel =>
      if n == 0 then Some(CancelTrain(-2))
      else if n == 1 && InS8(a[0]) then Some(CancelTrain(a[0])) else None
    case LiftOff => if n == 0 then Some(Lift) else None
    case UseTech => if n == 1 && a[0] == 0 then Some(Plain(0x36)) else None      // Stim_Packs only
    case UseTechPosition =>
      if n == 3 && InS16(a[0]) && InS16(a[1]) && InU8(a[2])
      then Some(Targeted(a[0], a[1], 0, a[2], 0)) else None
    case UseTechUnit =>
      if n == 1 && UnitId(r.target) && InU8(a[0])
      then Some(Targeted(0, 0, r.target, a[0], 0)) else None
    case Load =>
      if n >= 1 && UnitId(r.target) && InU8(a[0]) && QueuedOk(a, 1)
      then Some(Targeted(0, 0, r.target, a[0], QueuedAt(a, 1))) else None
    case Unload => if n == 0 && UnitId(r.target) then Some(WithWord(0x29, r.target)) else None
    case PingMinimap =>
      if n == 2 && InS16(a[0]) && InS16(a[1]) then Some(Ping(a[0], a[1])) else None
    case SetAlliance => if n == 1 && 0 <= a[0] <= INT32_MAX then Some(Alliance(a[0])) else None
  }

  function FormOf(r: Request): Option<Form> {
    if r.name == "" then None
    else match r.kind
      case UnitCommand => UnitForm(r.name)
      case GameAction => ActionForm(r.name)
      case UnknownKind => None
  }

  function RequestWire(r: Request): Option<Wire> {
    match FormOf(r)
    case None => None
    case Some(f) => FormWire(f, r)
  }

  /** The bytes of the wire command, or a rejection. */
  function Image(w: Option<Wire>): Option<Bytes> {
    if w.Some? then Some(Print(w.value)) else None
  }

  lemma FormWireIsWellFormed(f: Form, r: Request)
    requires GoodForm(f)
    ensures FormWire(f, r).Some? ==> WellFormed(FormWire(f, r).value)
  {
  }
}
