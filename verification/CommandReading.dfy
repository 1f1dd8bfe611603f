/**
  Reading commands off the wire.  For a command name, the reader says which target and which
  argument lists a wire command stands for; the encoder accepts a request exactly when some
  wire command reads back as it, and writes the bytes of that one.
 */
module CommandReading {
  import opened Common
  import opened CommandWire
  import opened CommandForms

  /**
    What a wire command says: the unit it is for, when it names one, and the argument lists
    that ask for it.  More than one list stands for a command with a default.
   */
  datatype Meaning = Meaning(target: Option<int>, spellings: seq<seq<int>>)

  /** The queued flag is the last argument; without it the flag is 0. */
  function WithFlag(target: Option<int>, args: seq<int>, queued: int): Meaning {
    Meaning(target, if queued == 0 then [args + [0], args] else [args + [queued]])
  }

  function Exactly(target: Option<int>, args: seq<int>): Option<Meaning> {
    Some(Meaning(target, [args]))
  }

  /** The form that takes no flag: only the spelling without one, and only when the flag is 0. */
  function Unqueued(m: Option<Meaning>): Option<Meaning> {
    if m.Some? && |m.value.spellings| == 2 then Some(Meaning(m.value.target, m.value.spellings[1..])) else None
  }

  // ---- one reader per shape ----

  function ReadPoint(order: int, w: Wire): Option<Meaning> {
    match w
    case Targeted(x, y, 0, o, queued) => if o == order then Some(WithFlag(None, [x, y], queued)) else None
    case _ => None
  }

  function ReadUnitTarget(order: int, w: Wire): Option<Meaning> {
    match w
    case Targeted(0, 0, unit, o, queued) =>
      if o == order && unit != 0 then Some(WithFlag(Some(unit), [], queued)) else None
    case _ => None
  }

  function ReadRightClickPoint(w: Wire): Option<Meaning> {
    match w
    case RightClick(x, y, 0, queued) => Some(WithFlag(None, [x, y], queued))
    case _ => None
  }

  function ReadRightClickUnit(w: Wire): Option<Meaning> {
    match w
    case RightClick(0, 0, unit, queued) => if unit != 0 then Some(WithFlag(Some(unit), [], queued)) else None
    case _ => None
  }

  function ReadFlag(opcode: Byte, w: Wire): Option<Meaning> {
    match w
    case WithQueued(op, queued) => if op == opcode then Some(WithFlag(None, [], queued)) else None
    case _ => None
  }

  function ReadZero(opcode: Byte, w: Wire): Option<Meaning> {
    if w == WithZero(opcode) then Exactly(None, []) else None
  }

  function ReadBare(opcode: Byte, w: Wire): Option<Meaning> {
    if w == Plain(opcode) then Exactly(None, []) else None
  }

  function ReadLift(w: Wire): Option<Meaning> {
    if w == Lift then Exactly(None, []) else None
  }

  /** Stim Packs is technology 0. */
  function ReadStimPacks(w: Wire): Option<Meaning> {
    if w == Plain(0x36) then Exactly(None, [0]) else None
  }

  /** Slot -2 is the default. */
  function ReadSlot(w: Wire): Option<Meaning> {
    match w
    case CancelTrain(slot) => Some(Meaning(None, if slot == -2 then [[-2], []] else [[slot]]))
    case _ => None
  }

  function ReadWordArg(opcode: Byte, w: Wire): Option<Meaning> {
    match w
    case WithWord(op, v) => if op == opcode then Exactly(None, [v]) else None
    case _ => None
  }

  function ReadByteArg(opcode: Byte, w: Wire): Option<Meaning> {
    match w
    case WithByte(op, v) => if op == opcode then Exactly(None, [v]) else None
    case _ => None
  }

  function ReadPlace(order: int, w: Wire): Option<Meaning> {
    match w
    case Place(o, tileX, tileY, unitType) => if o == order then Exactly(None, [tileX, tileY, unitType]) else None
    case _ => None
  }

  /** Build names its order last. */
  function ReadBuilding(w: Wire): Option<Meaning> {
    match w
    case Place(order, tileX, tileY, unitType) => Exactly(None, [tileX, tileY, unitType, order])
    case _ => None
  }

  function ReadLoad(w: Wire): Option<Meaning> {
    match w
    case Targeted(0, 0, unit, order, queued) =>
      if unit != 0 then Some(WithFlag(Some(unit), [order], queued)) else None
    case _ => None
  }

  function ReadTechPoint(w: Wire): Option<Meaning> {
    match w
    case Targeted(x, y, 0, order, 0) => Exactly(None, [x, y, order])
    case _ => None
  }

  function ReadTechUnit(w: Wire): Option<Meaning> {
    match w
    case Targeted(0, 0, unit, order, 0) => if unit != 0 then Exactly(Some(unit), [order]) else None
    case _ => None
  }

  function ReadUnload(w: Wire): Option<Meaning> {
    match w
    case WithWord(0x29, unit) => if unit != 0 then Exactly(Some(unit), []) else None
    case _ => None
  }

  function ReadPing(w: Wire): Option<Meaning> {
    match w
    case Ping(x, y) => Exactly(None, [x, y])
    case _ => None
  }

  /** A mask is a signed 32-bit argument. */
  function ReadMask(w: Wire): Option<Meaning> {
    match w
    case Alliance(mask) => if mask < 0x8000_0000 then Exactly(None, [mask]) else None
    case _ => None
  }

  // ---- the reader ----

  function ReadUnitCommand(name: string, w: Wire): Option<Meaning> {
    if name == "Move" then ReadPoint(6, w)
    else if name == "Attack_Move" then ReadPoint(14, w)
    else if name == "Patrol" then ReadPoint(152, w)
    else if name == "Set_Rally_Position" then Unqueued(ReadPoint(40, w))
    else if name == "Unload_All_Position" then ReadPoint(112, w)
    else if name == "Attack_Unit" then ReadUnitTarget(8, w)
    else if name == "Follow" then ReadUnitTarget(49, w)
    else if name == "Gather" then ReadUnitTarget(79, w)
    else if name == "Repair" then ReadUnitTarget(34, w)
    else if name == "Set_Rally_Unit" then Unqueued(ReadUnitTarget(39, w))
    else if name == "Right_Click_Position" then ReadRightClickPoint(w)
    else ReadUnitCommandMore(name, w)
  }

  function ReadUnitCommandMore(name: string, w: Wire): Option<Meaning> {
    if name == "Right_Click_Unit" then ReadRightClickUnit(w)
    else if name == "Stop" then ReadFlag(0x1a, w)
    else if name == "Halt_Construction" then Unqueued(ReadFlag(0x1a, w))
    else if name == "Hold_Position" then ReadFlag(0x2b, w)
    else if name == "Return_Cargo" then ReadFlag(0x1e, w)
    else if name == "Burrow" then ReadZero(0x2c, w)
    else if name == "Unburrow" then ReadZero(0x2d, w)
    else if name == "Cloak" then ReadZero(0x21, w)
    else if name == "Decloak" then ReadZero(0x22, w)
    else if name == "Siege" then ReadZero(0x26, w)
    else if name == "Unsiege" then ReadZero(0x25, w)
    else ReadUnitCommandRest(name, w)
  }

  function ReadUnitCommandRest(name: string, w: Wire): Option<Meaning> {
    if name == "Lift" then ReadLift(w)
    else if name == "Cancel_Construction" then ReadBare(0x18, w)
    else if name == "Cancel_Addon" then ReadBare(0x34, w)
    else if name == "Cancel_Research" then ReadBare(0x31, w)
    else if name == "Cancel_Upgrade" then ReadBare(0x33, w)
    else if name == "Cancel_Train" || name == "Cancel_Train_Slot" then ReadSlot(w)
    else if name == "Train" then ReadWordArg(0x1f, w)
    else if name == "Morph" then ReadWordArg(0x23, w)
    else if name == "Research" then ReadByteArg(0x30, w)
    else if name == "Upgrade" then ReadByteArg(0x32, w)
    else if name == "Build" then ReadBuilding(w)
    else ReadUnitCommandLast(name, w)
  }

  function ReadUnitCommandLast(name: string, w: Wire): Option<Meaning> {
    if name == "Build_Addon" then ReadPlace(36, w)
    else if name == "Land" then ReadPlace(71, w)
    else if name == "Place_COP" then ReadPlace(155, w)
    else if name == "Load" then ReadLoad(w)
    else if name == "Unload_All" then ReadZero(0x28, w)
    else if name == "Cancel_Morph" then ReadBare(0x19, w)
    else if name == "Use_Tech" then ReadStimPacks(w)
    else if name == "Use_Tech_Position" then ReadTechPoint(w)
    else if name == "Use_Tech_Unit" then ReadTechUnit(w)
    else if name == "Unload" then ReadUnload(w)
    else None
  }

  function ReadGameAction(name: string, w: Wire): Option<Meaning> {
    if name == "pauseGame" then ReadBare(0x10, w)
    else if name == "resumeGame" then ReadBare(0x11, w)
    else if name == "restartGame" then ReadBare(0x08, w)
    else if name == "pingMinimap" then ReadPing(w)
    else if name == "setAlliance" then ReadMask(w)
    else if name == "setVision" then ReadWordArg(0x0d, w)
    else None
  }

  function ReadBack(kind: Kind, name: string, w: Wire): Option<Meaning> {
    match kind
    case UnitCommand => ReadUnitCommand(name, w)
    case GameAction => ReadGameAction(name, w)
    case UnknownKind => None
  }

  predicate Says(m: Option<Meaning>, r: Request) {
    m.Some? && r.args in m.value.spellings && (m.value.target.Some? ==> r.target == m.value.target.value)
  }

  /** The wire command asks for exactly what the request asks for. */
  predicate Means(r: Request, w: Wire) {
    WellFormed(w) && Says(ReadBack(r.kind, r.name, w), r)
  }

  /** The bytes are one whole record that asks for what the request asks for. */
  predicate IsRecord(r: Request, b: Bytes) {
    var d := Decode(b);
    d.Some? && d.value.1 == [] && Means(r, d.value.0)
  }

  // ---- forms read back ----

  function ReadForm(f: Form, w: Wire): Option<Meaning> {
    match f
    case PositionAttack(order) => ReadPoint(order, w)
    case PositionAttackUnqueued(order) => Unqueued(ReadPoint(order, w))
    case UnitAttack(order) => ReadUnitTarget(order, w)
    case UnitAttackUnqueued(order) => Unqueued(ReadUnitTarget(order, w))
    case RightClickPosition => ReadRightClickPoint(w)
    case RightClickUnit => ReadRightClickUnit(w)
    case QueuedOpcode(op) => ReadFlag(op, w)
    case FixedQueued(op, queued) => if queued == 0 then Unqueued(ReadFlag(op, w)) else None
    case UnusedByte(op) => ReadZero(op, w)
    case SingleOpcode(op) => ReadBare(op, w)
    case TileAndType(order) => ReadPlace(order, w)
    case Build => ReadBuilding(w)
    case Type16(op) => ReadWordArg(op, w)
    case Type8(op) => ReadByteArg(op, w)
    case TrainCancel => ReadSlot(w)
    case LiftOff => ReadLift(w)
    case UseTech => ReadStimPacks(w)
    case UseTechPosition => ReadTechPoint(w)
    case UseTechUnit => ReadTechUnit(w)
    case Load => ReadLoad(w)
    case Unload => ReadUnload(w)
    case PingMinimap => ReadPing(w)
    case SetAlliance => ReadMask(w)
  }

  lemma LastReadsItsForm(name: string, w: Wire)
    ensures ReadUnitCommandLast(name, w)
         == if UnitFormLast(name).Some? then ReadForm(UnitFormLast(name).value, w) else None
  {
    hide ReadPoint, ReadUnitTarget, ReadRightClickPoint, ReadRightClickUnit, ReadFlag, ReadZero, ReadBare, ReadLift;
    hide ReadStimPacks, ReadSlot, ReadWordArg, ReadByteArg, ReadPlace, ReadBuilding, ReadLoad, ReadTechPoint;
    hide ReadTechUnit, ReadUnload, ReadPing, ReadMask, Unqueued, GoodForm;
  }

  lemma RestReadsItsForm(name: string, w: Wire)
    ensures ReadUnitCommandRest(name, w)
         == if UnitFormRest(name).Some? then ReadForm(UnitFormRest(name).value, w) else None
  {
    LastReadsItsForm(name, w);
    hide ReadPoint, ReadUnitTarget, ReadRightClickPoint, ReadRightClickUnit, ReadFlag, ReadZero, ReadBare, ReadLift;
    hide ReadStimPacks, ReadSlot, ReadWordArg, ReadByteArg, ReadPlace, ReadBuilding, ReadLoad, ReadTechPoint;
    hide ReadTechUnit, ReadUnload, ReadPing, ReadMask, Unqueued, GoodForm;
    hide UnitFormLast, ReadUnitCommandLast;
  }

  lemma MoreReadsItsForm(name: string, w: Wire)
    ensures ReadUnitCommandMore(name, w)
         == if UnitFormMore(name).Some? then ReadForm(UnitFormMore(name).value, w) else None
  {
    RestReadsItsForm(name, w);
    hide ReadPoint, ReadUnitTarget, ReadRightClickPoint, ReadRightClickUnit, ReadFlag, ReadZero, ReadBare, ReadLift;
    hide ReadStimPacks, ReadSlot, ReadWordArg, ReadByteArg, ReadPlace, ReadBuilding, ReadLoad, ReadTechPoint;
    hide ReadTechUnit, ReadUnload, ReadPing, ReadMask, Unqueued, GoodForm;
    hide UnitFormRest, ReadUnitCommandRest;
  }

  lemma NameReadsItsForm(name: string, w: Wire)
    ensures ReadUnitCommand(name, w)
         == if UnitForm(name).Some? then ReadForm(UnitForm(name).value, w) else None
  {
    MoreReadsItsForm(name, w);
    hide ReadPoint, ReadUnitTarget, ReadRightClickPoint, ReadRightClickUnit, ReadFlag, ReadZero, ReadBare, ReadLift;
    hide ReadStimPacks, ReadSlot, ReadWordArg, ReadByteArg, ReadPlace, ReadBuilding, ReadLoad, ReadTechPoint;
    hide ReadTechUnit, ReadUnload, ReadPing, ReadMask, Unqueued, GoodForm;
    hide UnitFormMore, ReadUnitCommandMore;
  }

  lemma ActionReadsItsForm(name: string, w: Wire)
    ensures ReadGameAction(name, w) == if ActionForm(name).Some? then ReadForm(ActionForm(name).value, w) else None
  {
    hide ReadPoint, ReadUnitTarget, ReadRightClickPoint, ReadRightClickUnit, ReadFlag, ReadZero, ReadBare, ReadLift;
    hide ReadStimPacks, ReadSlot, ReadWordArg, ReadByteArg, ReadPlace, ReadBuilding, ReadLoad, ReadTechPoint;
    hide ReadTechUnit, ReadUnload, ReadPing, ReadMask, Unqueued, GoodForm;
  }

  // ---- arguments ----

  lemma FlagSpellings(target: Option<int>, args: seq<int>, queued: int, a: seq<int>)
    requires Flag(queued)
    ensures a in WithFlag(target, args, queued).spellings
       <==> |a| >= |args| && a[..|args|] == args && QueuedOk(a, |args|) && QueuedAt(a, |args|) == queued
  {
    var n := |args|;
    if |a| == n + 1 {
      assert a == a[..n] + [a[n]];
    } else if |a| == n {
      assert a[..n] == a;
    }
  }

  lemma OneSpelling(target: Option<int>, args: seq<int>, a: seq<int>)
    ensures a in Exactly(target, args).value.spellings <==> a == args
  {
  }

  lemma PointForms(f: Form, r: Request, w: Wire)
    requires GoodForm(f) && (f.PositionAttack? || f.RightClickPosition?)
    ensures FormWire(f, r) == Some(w) <==> WellFormed(w) && Says(ReadForm(f, w), r)
  {
    var a := r.args;
    match w
    case Targeted(x, y, 0, o, queued) =>
      if Flag(queued) {
        FlagSpellings(None, [x, y], queued, a);
        assert |a| >= 2 ==> (a[..2] == [x, y] <==> a[0] == x && a[1] == y);
      }
    case RightClick(x, y, 0, queued) =>
      if Flag(queued) {
        FlagSpellings(None, [x, y], queued, a);
        assert |a| >= 2 ==> (a[..2] == [x, y] <==> a[0] == x && a[1] == y);
      }
    case _ =>
  }

  lemma UnqueuedPointForms(f: Form, r: Request, w: Wire)
    requires GoodForm(f) && f.PositionAttackUnqueued?
    ensures FormWire(f, r) == Some(w) <==> WellFormed(w) && Says(ReadForm(f, w), r)
  {
    var a := r.args;
    match w
    case Targeted(x, y, 0, o, queued) => assert |a| == 2 ==> (a == [x, y] <==> a[0] == x && a[1] == y);
    case _ =>
  }

  lemma UnitForms(f: Form, r: Request, w: Wire)
    requires GoodForm(f) && (f.UnitAttack? || f.RightClickUnit? || f.UnitAttackUnqueued?)
    ensures FormWire(f, r) == Some(w) <==> WellFormed(w) && Says(ReadForm(f, w), r)
  {
    match w
    case Targeted(0, 0, unit, o, queued) =>
      if Flag(queued) {
        FlagSpellings(Some(unit), [], queued, r.args);
      }
    case RightClick(0, 0, unit, queued) =>
      if Flag(queued) {
        FlagSpellings(Some(unit), [], queued, r.args);
      }
    case _ =>
  }

  lemma FlagForms(f: Form, r: Request, w: Wire)
    requires GoodForm(f) && (f.QueuedOpcode? || f.FixedQueued?)
    ensures FormWire(f, r) == Some(w) <==> WellFormed(w) && Says(ReadForm(f, w), r)
  {
    match w
    case WithQueued(op, queued) =>
      if Flag(queued) {
        FlagSpellings(None, [], queued, r.args);
      }
    case _ =>
  }

  lemma BareForms(f: Form, r: Request, w: Wire)
    requires GoodForm(f) && (f.UnusedByte? || f.SingleOpcode? || f.LiftOff? || f.TrainCancel? || f.UseTech?)
    ensures FormWire(f, r) == Some(w) <==> WellFormed(w) && Says(ReadForm(f, w), r)
  {
    var a := r.args;
    assert |a| == 1 ==> a == [a[0]];
  }

  lemma PlaceForms(f: Form, r: Request, w: Wire)
    requires GoodForm(f) && (f.TileAndType? || f.Build?)
    ensures FormWire(f, r) == Some(w) <==> WellFormed(w) && Says(ReadForm(f, w), r)
  {
    var a := r.args;
    assert |a| == 3 ==> a == [a[0], a[1], a[2]];
    assert |a| == 4 ==> a == [a[0], a[1], a[2], a[3]];
  }

  lemma TypeForms(f: Form, r: Request, w: Wire)
    requires GoodForm(f) && (f.Type16? || f.Type8? || f.SetAlliance?)
    ensures FormWire(f, r) == Some(w) <==> WellFormed(w) && Says(ReadForm(f, w), r)
  {
    var a := r.args;
    assert |a| == 1 ==> a == [a[0]];
  }

  lemma TechForms(f: Form, r: Request, w: Wire)
    requires GoodForm(f) && (f.UseTechPosition? || f.UseTechUnit? || f.Unload? || f.PingMinimap?)
    ensures FormWire(f, r) == Some(w) <==> WellFormed(w) && Says(ReadForm(f, w), r)
  {
    var a := r.args;
    assert |a| == 1 ==> a == [a[0]];
    assert |a| == 2 ==> a == [a[0], a[1]];
    assert |a| == 3 ==> a == [a[0], a[1], a[2]];
  }

  lemma LoadForms(f: Form, r: Request, w: Wire)
    requires GoodForm(f) && f.Load?
    ensures FormWire(f, r) == Some(w) <==> WellFormed(w) && Says(ReadForm(f, w), r)
  {
    match w
    case Targeted(0, 0, unit, order, queued) =>
      if Flag(queued) {
        FlagSpellings(Some(unit), [order], queued, r.args);
        assert |r.args| >= 1 ==> (r.args[..1] == [order] <==> r.args[0] == order);
      }
    case _ =>
  }

  lemma FormIsExact(f: Form, r: Request, w: Wire)
    requires GoodForm(f)
    ensures FormWire(f, r) == Some(w) <==> WellFormed(w) && Says(ReadForm(f, w), r)
  {
    hide FormWire, ReadForm, WellFormed, Says, GoodForm;
    match f
    case PositionAttack(_) => PointForms(f, r, w);
    case RightClickPosition => PointForms(f, r, w);
    case PositionAttackUnqueued(_) => UnqueuedPointForms(f, r, w);
    case UnitAttack(_) => UnitForms(f, r, w);
    case UnitAttackUnqueued(_) => UnitForms(f, r, w);
    case RightClickUnit => UnitForms(f, r, w);
    case QueuedOpcode(_) => FlagForms(f, r, w);
    case FixedQueued(_, _) => FlagForms(f, r, w);
    case UnusedByte(_) => BareForms(f, r, w);
    case SingleOpcode(_) => BareForms(f, r, w);
    case LiftOff => BareForms(f, r, w);
    case TrainCancel => BareForms(f, r, w);
    case UseTech => BareForms(f, r, w);
    case TileAndType(_) => PlaceForms(f, r, w);
    case Build => PlaceForms(f, r, w);
    case Type16(_) => TypeForms(f, r, w);
    case Type8(_) => TypeForms(f, r, w);
    case SetAlliance => TypeForms(f, r, w);
    case UseTechPosition => TechForms(f, r, w);
    case UseTechUnit => TechForms(f, r, w);
    case Unload => TechForms(f, r, w);
    case PingMinimap => TechForms(f, r, w);
    case Load => LoadForms(f, r, w);
  }

  // ---- requests ----

  lemma KindReadsItsForm(r: Request, w: Wire)
    ensures r.name != "" ==>
              ReadBack(r.kind, r.name, w) == if FormOf(r).Some? then ReadForm(FormOf(r).value, w) else None
  {
    hide ReadForm, ReadUnitCommand, ReadGameAction, UnitForm, ActionForm;
    NameReadsItsForm(r.name, w);
    ActionReadsItsForm(r.name, w);
  }

  lemma NoNameNoMeaning(kind: Kind, w: Wire)
    ensures ReadBack(kind, "", w).None?
  {
    NamelessHasNoForm();
    NameReadsItsForm("", w);
    ActionReadsItsForm("", w);
    hide ReadUnitCommand, ReadGameAction, UnitForm, ActionForm;
  }

  lemma NamelessHasNoForm()
    ensures UnitForm("").None? && ActionForm("").None?
  {
  }

  /** A request means a wire command exactly when that command reads back as the request. */
  lemma EncodingIsExact(r: Request, w: Wire)
    ensures RequestWire(r) == Some(w) <==> Means(r, w)
  {
    hide ReadForm, FormWire, ReadBack, WellFormed, UnitForm, ActionForm;
    KindReadsItsForm(r, w);
    if r.name == "" {
      NoNameNoMeaning(r.kind, w);
    } else if FormOf(r).Some? {
      FormIsExact(FormOf(r).value, r, w);
    }
  }
}
