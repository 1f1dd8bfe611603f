/**
  The command encoder: argument checks followed by byte appends.  Every encoding method is
  proved to append exactly the bytes of the command its request means, or to reject; the
  bytes of a whole request are one record that reads back as the request.
 */
module CommandEncoder {
  import opened Common
  import opened CommandWire
  import opened CommandForms
  import opened CommandReading

  /** Every accepted request is a command the decoder reads back, no matter what follows. */
  lemma AcceptedDecodes(r: Request, rest: Bytes)
    requires RequestWire(r).Some?
    ensures WellFormed(RequestWire(r).value)
    ensures Decode(Print(RequestWire(r).value) + rest) == Some((RequestWire(r).value, rest))
  {
    FormWireIsWellFormed(FormOf(r).value, r);
    RoundTrip(RequestWire(r).value, rest);
  }

  /** The growing byte vector that the append helpers fill. */
  class ByteVector {
    var bytes: Bytes

    constructor ()
      ensures bytes == []
    {
      bytes := [];
    }

    method AppendU8(value: int)
      modifies this
      ensures bytes == old(bytes) + U8(value)
    {
      bytes := bytes + [value % 256];
    }

    method AppendU16LE(value: int)
      modifies this
      ensures bytes == old(bytes) + U16(value)
    {
      var encoded := value % 65536;
      bytes := bytes + [encoded % 256];
      bytes := bytes + [encoded / 256 % 256];
      assert encoded % 256 == value % 256 && encoded / 256 == value / 256 % 256;
    }

    method AppendU32LE(value: int)
      requires InU32(value)
      modifies this
      ensures bytes == old(bytes) + U32(value)
    {
      bytes := bytes + [value % 256];
      bytes := bytes + [value / 256 % 256];
      bytes := bytes + [value / 65536 % 256];
      bytes := bytes + [value / 65536 / 256 % 256];
    }

    method AppendPositionUnitTarget(x: int, y: int, unitTarget: int)
      modifies this
      ensures bytes == old(bytes) + U16(x) + U16(y) + U16(unitTarget)
    {
      AppendU16LE(x);
      AppendU16LE(y);
      AppendU16LE(unitTarget);
    }
  }

  /** An argument that must be present and in range. */
  method ReadArg(args: seq<int>, index: nat, min: int, max: int) returns (ok: bool, value: int)
    ensures ok <==> index < |args| && min <= args[index] <= max
    ensures ok ==> value == args[index]
  {
    ok, value := false, 0;
    if index < |args| {
      value := args[index];
      ok := min <= value <= max;
    }
  }

  method ReadQueued(args: seq<int>, index: nat) returns (ok: bool, queued: int)
    ensures ok <==> QueuedOk(args, index)
    ensures ok ==> queued == QueuedAt(args, index)
  {
    if |args| <= index {
      return true, 0;
    }
    if |args| != index + 1 || !Flag(args[index]) {
      return false, 0;
    }
    return true, args[index];
  }

  method EncodeAttackTarget(x: int, y: int, unitTarget: int, order: int, queued: int) returns (b: Bytes)
    ensures b == Print(Targeted(x, y, unitTarget, order, queued))
  {
    var v := new ByteVector();
    v.AppendU8(0x15);
    v.AppendPositionUnitTarget(x, y, unitTarget);
    v.AppendU16LE(UNIT_TYPE_NONE);
    v.AppendU8(order);
    v.AppendU8(queued);
    b := v.bytes;
  }

  method EncodeRightClickTarget(x: int, y: int, unitTarget: int, queued: int) returns (b: Bytes)
    ensures b == Print(RightClick(x, y, unitTarget, queued))
  {
    var v := new ByteVector();
    v.AppendU8(0x14);
    v.AppendPositionUnitTarget(x, y, unitTarget);
    v.AppendU8(queued);
    b := v.bytes;
  }

  /** The position arguments shared by the attack, right-click and ping forms. */
  method ReadPosition(args: seq<int>) returns (ok: bool, x: int, y: int)
    ensures ok <==> |args| >= 2 && InS16(args[0]) && InS16(args[1])
    ensures ok ==> x == args[0] && y == args[1]
  {
    ok, x := ReadArg(args, 0, -32768, 32767);
    y := 0;
    if ok {
      ok, y := ReadArg(args, 1, -32768, 32767);
    }
  }

  method EncodePosition(f: Form, r: Request) returns (e: Option<Bytes>)
    requires f.PositionAttack? || f.PositionAttackUnqueued? || f.RightClickPosition?
    ensures e == Image(FormWire(f, r))
  {
    var most := if f.PositionAttackUnqueued? then 2 else 3;
    if |r.args| < 2 || |r.args| > most {
      return None;
    }
    var ok, x, y := ReadPosition(r.args);
    if !ok {
      return None;
    }
    var queued := 0;
    if !f.PositionAttackUnqueued? {
      ok, queued := ReadQueued(r.args, 2);
      if !ok {
        return None;
      }
    }
    var b;
    if f.RightClickPosition? {
      b := EncodeRightClickTarget(x, y, 0, queued);
    } else {
      b := EncodeAttackTarget(x, y, 0, f.order, queued);
    }
    return Some(b);
  }

  method EncodeUnit(f: Form, r: Request) returns (e: Option<Bytes>)
    requires f.UnitAttack? || f.UnitAttackUnqueued? || f.RightClickUnit?
    ensures e == Image(FormWire(f, r))
  {
    if |r.args| > (if f.UnitAttackUnqueued? then 0 else 1) || !UnitId(r.target) {
      return None;
    }
    var ok, queued := ReadQueued(r.args, 0);
    if !ok {
      return None;
    }
    var b;
    if f.RightClickUnit? {
      b := EncodeRightClickTarget(0, 0, r.target, queued);
    } else {
      b := EncodeAttackTarget(0, 0, r.target, f.order, queued);
    }
    return Some(b);
  }

  method EncodeOpcodeOnly(f: Form, r: Request) returns (e: Option<Bytes>)
    requires f.QueuedOpcode? || f.FixedQueued? || f.UnusedByte? || f.SingleOpcode?
    ensures e == Image(FormWire(f, r))
  {
    if |r.args| > (if f.QueuedOpcode? then 1 else 0) {
      return None;
    }
    var ok, queued := ReadQueued(r.args, 0);
    if !ok {
      return None;
    }
    var v := new ByteVector();
    v.AppendU8(f.opcode);
    if f.QueuedOpcode? {
      v.AppendU8(queued);
    } else if f.FixedQueued? {
      v.AppendU8(f.queued);
    } else if f.UnusedByte? {
      v.AppendU8(0);
    }
    assert v.bytes == Print(FormWire(f, r).value);
    return Some(v.bytes);
  }

  method EncodeTileAndUnitType(args: seq<int>, order: int) returns (e: Option<Bytes>)
    ensures e == Image(FormWire(TileAndType(order), Request(UnitCommand, "", 0, args)))
  {
    if |args| != 3 {
      return None;
    }
    var ok, tileX, tileY := ReadPosition(args);
    if !ok {
      return None;
    }
    var unitType;
    ok, unitType := ReadArg(args, 2, 0, 65535);
    if !ok {
      return None;
    }
    var v := new ByteVector();
    v.AppendU8(0x0c);
    v.AppendU8(order);
    v.AppendU16LE(tileX);
    v.AppendU16LE(tileY);
    v.AppendU16LE(unitType);
    assert v.bytes == Print(Place(order, tileX, tileY, unitType));
    return Some(v.bytes);
  }

  method EncodeBuild(r: Request) returns (e: Option<Bytes>)
    ensures e == Image(FormWire(Build, r))
  {
    if |r.args| != 4 {
      return None;
    }
    var ok, order := ReadArg(r.args, 3, 0, 255);
    if !ok {
      return None;
    }
    e := EncodeTileAndUnitType(r.args[..3], order);
  }

  method EncodeType(f: Form, r: Request) returns (e: Option<Bytes>)
    requires f.Type16? || f.Type8?
    ensures e == Image(FormWire(f, r))
  {
    if |r.args| != 1 {
      return None;
    }
    var ok, value := ReadArg(r.args, 0, 0, if f.Type16? then 65535 else 255);
    if !ok {
      return None;
    }
    var v := new ByteVector();
    v.AppendU8(f.opcode);
    if f.Type16? {
      v.AppendU16LE(value);
    } else {
      v.AppendU8(value);
    }
    assert v.bytes == Print(FormWire(f, r).value);
    return Some(v.bytes);
  }

  method EncodeCancelTrain(r: Request) returns (e: Option<Bytes>)
    ensures e == Image(FormWire(TrainCancel, r))
  {
    if |r.args| > 1 {
      return None;
    }
    var slot := -2;
    if |r.args| != 0 {
      var ok;
      ok, slot := ReadArg(r.args, 0, -128, 127);
      if !ok {
        return None;
      }
    }
    var v := new ByteVector();
    v.AppendU8(0x20);
    v.AppendU8(slot);
    v.AppendU8(0);
    assert v.bytes == Print(CancelTrain(slot));
    return Some(v.bytes);
  }

  method EncodeTech(f: Form, r: Request) returns (e: Option<Bytes>)
    requires f.UseTech? || f.UseTechPosition? || f.UseTechUnit?
    ensures e == Image(FormWire(f, r))
  {
    if |r.args| != (if f.UseTechPosition? then 3 else 1) {
      return None;
    }
    if f.UseTechUnit? && !UnitId(r.target) {
      return None;
    }
    var ok, order, x, y := true, 0, 0, 0;
    if f.UseTechPosition? {
      ok, x, y := ReadPosition(r.args);
      if !ok {
        return None;
      }
    }
    ok, order := ReadArg(r.args, if f.UseTechPosition? then 2 else 0, 0, 255);
    if !ok {
      return None;
    }
    if f.UseTech? {
      return if order == 0 then Some([0x36]) else None;
    }
    var b := EncodeAttackTarget(x, y, if f.UseTechUnit? then r.target else 0, order, 0);
    return Some(b);
  }

  method EncodeLoad(r: Request) returns (e: Option<Bytes>)
    ensures e == Image(FormWire(Load, r))
  {
    if |r.args| < 1 || |r.args| > 2 || !UnitId(r.target) {
      return None;
    }
    var ok, order := ReadArg(r.args, 0, 0, 255);
    if !ok {
      return None;
    }
    var queued;
    ok, queued := ReadQueued(r.args, 1);
    if !ok {
      return None;
    }
    var b := EncodeAttackTarget(0, 0, r.target, order, queued);
    return Some(b);
  }

  method EncodeOther(f: Form, r: Request) returns (e: Option<Bytes>)
    requires f.LiftOff? || f.Unload? || f.PingMinimap? || f.SetAlliance?
    ensures e == Image(FormWire(f, r))
  {
    match f {
      case LiftOff => e := EncodeLiftOff(r);
      case Unload => e := EncodeUnload(r);
      case PingMinimap => e := EncodePing(r);
      case SetAlliance => e := EncodeAlliance(r);
    }
  }

  method EncodeLiftOff(r: Request) returns (e: Option<Bytes>)
    ensures e == Image(FormWire(LiftOff, r))
  {
    if |r.args| != 0 {
      return None;
    }
    var v := new ByteVector();
    v.AppendU8(0x2f);
    v.AppendU32LE(0);
    assert v.bytes == Print(Lift);
    return Some(v.bytes);
  }

  method EncodeUnload(r: Request) returns (e: Option<Bytes>)
    ensures e == Image(FormWire(Unload, r))
  {
    if |r.args| != 0 || !UnitId(r.target) {
      return None;
    }
    var v := new ByteVector();
    v.AppendU8(0x29);
    v.AppendU16LE(r.target);
    assert v.bytes == Print(WithWord(0x29, r.target));
    return Some(v.bytes);
  }

  method EncodePing(r: Request) returns (e: Option<Bytes>)
    ensures e == Image(FormWire(PingMinimap, r))
  {
    var ok, x, y := ReadPosition(r.args);
    if |r.args| != 2 || !ok {
      return None;
    }
    var v := new ByteVector();
    v.AppendU8(0x58);
    v.AppendU16LE(x);
    v.AppendU16LE(y);
    assert v.bytes == Print(Ping(x, y));
    return Some(v.bytes);
  }

  method EncodeAlliance(r: Request) returns (e: Option<Bytes>)
    ensures e == Image(FormWire(SetAlliance, r))
  {
    var ok, alliance := ReadArg(r.args, 0, 0, INT32_MAX);
    if |r.args| != 1 || !ok {
      return None;
    }
    var v := new ByteVector();
    v.AppendU8(0x0e);
    v.AppendU32LE(alliance);
    assert v.bytes == Print(Alliance(alliance));
    return Some(v.bytes);
  }

  /** The encoder's answer to a request, read from the wire side. */
  lemma ImageIsRecord(r: Request)
    ensures var e := Image(RequestWire(r));
            if e.Some? then IsRecord(r, e.value) else forall b :: !IsRecord(r, b)
  {
    hide FormWire, FormOf, Print, Decode, WellFormed, Means;
    if RequestWire(r).Some? {
      var w := RequestWire(r).value;
      EncodingIsExact(r, w);
      AcceptedDecodes(r, []);
      assert Print(w) + [] == Print(w);
    } else {
      forall b ensures !IsRecord(r, b) {
        if IsRecord(r, b) {
          EncodingIsExact(r, Decode(b).value.0);
        }
      }
    }
  }

  /** Two records that ask for the same request are the same bytes. */
  lemma RecordIsUnique(r: Request, b: Bytes, b': Bytes)
    requires IsRecord(r, b) && IsRecord(r, b')
    ensures b == b'
  {
    EncodingIsExact(r, Decode(b).value.0);
    EncodingIsExact(r, Decode(b').value.0);
    DecodeIsCanonical(b);
    DecodeIsCanonical(b');
    hide Means, Decode, Print, RequestWire;
  }

  /**
    encodeRuntimeCommandRequest: exactly the bytes of the command the request means.  Read
    from the wire side, they are one record that asks for this target, these arguments and
    this queued flag, and a request is rejected exactly when no record asks for it.
   */
  method EncodeRequest(r: Request) returns (e: Option<Bytes>)
    ensures e == Image(RequestWire(r))
    ensures if e.Some? then IsRecord(r, e.value) else forall b :: !IsRecord(r, b)
  {
    ImageIsRecord(r);
    hide IsRecord;
    var form := FormOf(r);
    if form.None? {
      return None;
    }
    e := EncodeForm(form.value, r);
  }

  method EncodeForm(f: Form, r: Request) returns (e: Option<Bytes>)
    ensures e == Image(FormWire(f, r))
  {
    if f.PositionAttack? || f.PositionAttackUnqueued? || f.RightClickPosition? {
      e := EncodePosition(f, r);
    } else if f.UnitAttack? || f.UnitAttackUnqueued? || f.RightClickUnit? {
      e := EncodeUnit(f, r);
    } else if f.QueuedOpcode? || f.FixedQueued? || f.UnusedByte? || f.SingleOpcode? {
      e := EncodeOpcodeOnly(f, r);
    } else if f.TileAndType? {
      e := EncodeTileAndUnitType(r.args, f.order);
    } else if f.Build? {
      e := EncodeBuild(r);
    } else if f.Type16? || f.Type8? {
      e := EncodeType(f, r);
    } else if f.TrainCancel? {
      e := EncodeCancelTrain(r);
    } else if f.UseTech? || f.UseTechPosition? || f.UseTechUnit? {
      e := EncodeTech(f, r);
    } else if f.Load? {
      e := EncodeLoad(r);
    } else {
      e := EncodeOther(f, r);
    }
  }

  lemma {:induction false} WordsAppend(units: seq<int>, u: int)
    ensures Words(units + [u]) == Words(units) + U16(u)
  {
    if units == [] {
      assert Words([u]) == U16(u) + Words([]);
    } else {
      WordsAppend(units[1..], u);
      assert (units + [u])[1..] == units[1..] + [u];
    }
  }

  lemma SelectImage(add: bool, units: seq<int>)
    ensures Print(Select(add, units)) == [if add then 0x0a else 0x09] + U8(|units|) + Words(units)
  {
    hide Words, U8, U16;
  }

  lemma SelectIsWellFormed(add: bool, units: seq<int>)
    ensures WellFormed(Select(add, units)) <==>
              1 <= |units| <= 12 && forall i :: 0 <= i < |units| ==> UnitId(units[i])
  {
  }

  method EncodeSelect(unitTargetIds: seq<int>, addToSelection: bool) returns (e: Option<Bytes>)
    ensures var w := Select(addToSelection, unitTargetIds);
            e == Image(if WellFormed(w) then Some(w) else None)
  {
    SelectImage(addToSelection, unitTargetIds);
    SelectIsWellFormed(addToSelection, unitTargetIds);
    hide Print, WellFormed, U16;
    if |unitTargetIds| == 0 || |unitTargetIds| > 12 {
      return None;
    }
    var v := new ByteVector();
    v.AppendU8(if addToSelection then 0x0a else 0x09);
    v.AppendU8(|unitTargetIds|);
    ghost var head := v.bytes;
    assert head == [if addToSelection then 0x0a else 0x09] + U8(|unitTargetIds|);
    for i := 0 to |unitTargetIds|
      invariant forall k :: 0 <= k < i ==> UnitId(unitTargetIds[k])
      invariant v.bytes == head + Words(unitTargetIds[..i])
    {
      if !UnitId(unitTargetIds[i]) {
        return None;
      }
      v.AppendU16LE(unitTargetIds[i]);
      WordsAppend(unitTargetIds[..i], unitTargetIds[i]);
      assert unitTargetIds[..i + 1] == unitTargetIds[..i] + [unitTargetIds[i]];
    }
    assert unitTargetIds[..|unitTargetIds|] == unitTargetIds;
    assert v.bytes == Print(Select(addToSelection, unitTargetIds));
    return Some(v.bytes);
  }
}
