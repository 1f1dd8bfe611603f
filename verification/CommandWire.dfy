/**
  The turn-buffer command format: every command is one self-delimiting record that starts
  with its opcode.  Print writes a wire command, Decode reads one back.
 */
module CommandWire {
  import opened Common

  type Bytes = seq<Byte>

  datatype Wire =
    | Targeted(x: int, y: int, target: int, order: int, queued: int)   // 0x15
    | RightClick(x: int, y: int, target: int, queued: int)             // 0x14
    | Place(order: int, x: int, y: int, unitType: int)                 // 0x0c
    | Ping(x: int, y: int)                                             // 0x58
    | Alliance(mask: int)                                              // 0x0e
    | CancelTrain(slot: int)                                           // 0x20
    | Lift                                                             // 0x2f
    | Plain(opcode: Byte)                                              // opcode only
    | WithZero(opcode: Byte)                                           // opcode and a zero
    | WithQueued(opcode: Byte, queued: int)
    | WithByte(opcode: Byte, value: int)
    | WithWord(opcode: Byte, value: int)
    | Select(add: bool, units: seq<int>)                               // 0x09, 0x0a

  const UNIT_TYPE_NONE: int := 228

  predicate IsPlain(op: Byte) { op in {0x08, 0x10, 0x11, 0x18, 0x19, 0x31, 0x33, 0x34, 0x36} }

  predicate IsWithZero(op: Byte) { op in {0x21, 0x22, 0x25, 0x26, 0x28, 0x2c, 0x2d} }

  predicate IsWithQueued(op: Byte) { op in {0x1a, 0x1e, 0x2b} }

  predicate IsWithByte(op: Byte) { op in {0x30, 0x32} }

  predicate IsWithWord(op: Byte) { op in {0x0d, 0x1f, 0x23, 0x29} }

  predicate InS8(v: int) { -128 <= v <= 127 }

  predicate InS16(v: int) { -32768 <= v <= 32767 }

  predicate InU8(v: int) { 0 <= v <= 255 }

  predicate InU16(v: int) { 0 <= v <= 65535 }

  predicate InU32(v: int) { 0 <= v <= 0xffff_ffff }

  predicate Flag(v: int) { v == 0 || v == 1 }

  predicate UnitId(v: int) { 1 <= v <= 65535 }

  /** The wire commands the encoder can produce. */
  predicate WellFormed(w: Wire) {
    match w
    case Targeted(x, y, target, order, queued) =>
      InS16(x) && InS16(y) && InU16(target) && InU8(order) && Flag(queued)
    case RightClick(x, y, target, queued) => InS16(x) && InS16(y) && InU16(target) && Flag(queued)
    case Place(order, x, y, unitType) => InU8(order) && InS16(x) && InS16(y) && InU16(unitType)
    case Ping(x, y) => InS16(x) && InS16(y)
    case Alliance(mask) => InU32(mask)
    case CancelTrain(slot) => InS8(slot)
    case Lift => true
    case Plain(op) => IsPlain(op)
    case WithZero(op) => IsWithZero(op)
    case WithQueued(op, queued) => IsWithQueued(op) && Flag(queued)
    case WithByte(op, v) => IsWithByte(op) && InU8(v)
    case WithWord(op, v) => IsWithWord(op) && InU16(v)
    case Select(_, units) => 1 <= |units| <= 12 && forall i :: 0 <= i < |units| ==> UnitId(units[i])
  }

  // The byte images of the integer fields, with the casts of the encoder written out.

  function U8(v: int): Bytes { [v % 256] }

  function U16(v: int): Bytes { [v % 256, v / 256 % 256] }

  function U32(v: int): Bytes { U16(v) + U16(v / 65536) }

  function Words(units: seq<int>): Bytes {
    if units == [] then [] else U16(units[0]) + Words(units[1..])
  }

  function Print(w: Wire): Bytes {
    match w
    case Targeted(x, y, target, order, queued) =>
      [0x15] + U16(x) + U16(y) + U16(target) + U16(UNIT_TYPE_NONE) + U8(order) + U8(queued)
    case RightClick(x, y, target, queued) => [0x14] + U16(x) + U16(y) + U16(target) + U8(queued)
    case Place(order, x, y, unitType) => [0x0c] + U8(order) + U16(x) + U16(y) + U16(unitType)
    case Ping(x, y) => [0x58] + U16(x) + U16(y)
    case Alliance(mask) => [0x0e] + U32(mask)
    case CancelTrain(slot) => [0x20] + U8(slot) + [0]
    case Lift => [0x2f, 0, 0, 0, 0]
    case Plain(op) => [op]
    case WithZero(op) => [op, 0]
    case WithQueued(op, queued) => [op] + U8(queued)
    case WithByte(op, v) => [op] + U8(v)
    case WithWord(op, v) => [op] + U16(v)
    case Select(add, units) => [if add then 0x0a else 0x09] + U8(|units|) + Words(units)
  }

  // Reading fields back.

  function FromU16(lo: Byte, hi: Byte): (v: int)
    ensures InU16(v)
  {
    var l: int, h: int := lo, hi;
    l + 256 * h
  }

  function FromS16(lo: Byte, hi: Byte): (v: int)
    ensures InS16(v)
  {
    var u := FromU16(lo, hi);
    if u >= 32768 then u - 65536 else u
  }

  function FromS8(b: Byte): (v: int)
    ensures InS8(v)
  {
    if b >= 128 then b as int - 256 else b as int
  }

  function FromU32(b0: Byte, b1: Byte, b2: Byte, b3: Byte): (v: int)
    ensures InU32(v)
  {
    FromU16(b0, b1) + 65536 * FromU16(b2, b3)
  }

  function ReadU16(b: Bytes, at: nat): int
    requires at + 2 <= |b|
  {
    FromU16(b[at], b[at + 1])
  }

  function ReadS16(b: Bytes, at: nat): int
    requires at + 2 <= |b|
  {
    FromS16(b[at], b[at + 1])
  }

  lemma FieldsOfBytes(lo: Byte, hi: Byte)
    ensures U16(FromU16(lo, hi)) == [lo, hi] && U16(FromS16(lo, hi)) == [lo, hi]
    ensures U8(FromS8(lo)) == [lo] && U8(lo) == [lo]
  {
  }

  lemma WordSplit(low: int, high: int)
    requires InU16(low) && 0 <= high
    ensures (low + 65536 * high) / 65536 == high
    ensures U16(low + 65536 * high) == U16(low)
  {
    var v := low + 65536 * high;
    assert v % 256 == low % 256 && v / 256 % 256 == low / 256 % 256;
  }

  lemma WideFieldOfBytes(b0: Byte, b1: Byte, b2: Byte, b3: Byte)
    ensures U32(FromU32(b0, b1, b2, b3)) == [b0, b1, b2, b3]
  {
    WordSplit(FromU16(b0, b1), FromU16(b2, b3));
    FieldsOfBytes(b0, b1);
    FieldsOfBytes(b2, b3);
  }

  lemma BytesOfUnsigned(v: int)
    requires InU16(v)
    ensures FromU16(U16(v)[0], U16(v)[1]) == v
  {
    assert v / 256 < 256;
    assert v == v / 256 * 256 + v % 256;
  }

  lemma BytesOfNegative(v: int)
    requires -32768 <= v < 0
    ensures FromS16(U16(v)[0], U16(v)[1]) == v
  {
    var u := v + 65536;
    assert u % 256 == v % 256 && u / 256 == v / 256 + 256;
    assert U16(u) == U16(v);
    BytesOfUnsigned(u);
  }

  lemma BytesOfField(v: int)
    ensures InU16(v) ==> FromU16(U16(v)[0], U16(v)[1]) == v
    ensures InS16(v) ==> FromS16(U16(v)[0], U16(v)[1]) == v
    ensures InS8(v) ==> FromS8(U8(v)[0]) == v
    ensures InU8(v) ==> U8(v)[0] == v
  {
    if InU16(v) {
      BytesOfUnsigned(v);
    } else if InS16(v) {
      BytesOfNegative(v);
    }
    hide U16, FromU16;
  }

  lemma BytesOfWideField(v: int)
    requires InU32(v)
    ensures U32(v) == U16(v % 65536) + U16(v / 65536)
    ensures FromU32(U32(v)[0], U32(v)[1], U32(v)[2], U32(v)[3]) == v
  {
    WordSplit(v % 65536, v / 65536);
    BytesOfField(v % 65536);
    BytesOfField(v / 65536);
  }

  function ReadWords(b: Bytes, at: nat, n: nat): (units: seq<int>)
    requires at + 2 * n <= |b|
    ensures |units| == n
    decreases n
  {
    if n == 0 then [] else [ReadU16(b, at)] + ReadWords(b, at + 2, n - 1)
  }

  function Accept(w: Wire, b: Bytes, n: nat): Option<(Wire, Bytes)>
    requires n <= |b|
  {
    if WellFormed(w) then Some((w, b[n..])) else None
  }

  /** A selection tells how many ids follow. */
  function DecodeSelect(b: Bytes): Option<(Wire, Bytes)>
    requires b != []
  {
    if |b| >= 2 && |b| >= 2 + 2 * b[1] as int
    then Accept(Select(b[0] == 0x0a, ReadWords(b, 2, b[1])), b, 2 + 2 * b[1] as int)
    else None
  }

  /** One record and the bytes after it; the opcode alone says how long the record is. */
  function Decode(b: Bytes): (r: Option<(Wire, Bytes)>)
    ensures r.Some? ==> WellFormed(r.value.0) && |r.value.1| < |b|
  {
    if b == [] then None
    else
      var op, n := b[0], |b|;
      if op == 0x15 then
        if n >= 11 && ReadU16(b, 7) == UNIT_TYPE_NONE
        then Accept(Targeted(ReadS16(b, 1), ReadS16(b, 3), ReadU16(b, 5), b[9], b[10]), b, 11)
        else None
      else if op == 0x14 then
        if n >= 8 then Accept(RightClick(ReadS16(b, 1), ReadS16(b, 3), ReadU16(b, 5), b[7]), b, 8) else None
      else if op == 0x0c then
        if n >= 8 then Accept(Place(b[1], ReadS16(b, 2), ReadS16(b, 4), ReadU16(b, 6)), b, 8) else None
      else if op == 0x58 then
        if n >= 5 then Accept(Ping(ReadS16(b, 1), ReadS16(b, 3)), b, 5) else None
      else if op == 0x0e then
        if n >= 5 then Accept(Alliance(FromU32(b[1], b[2], b[3], b[4])), b, 5) else None
      else if op == 0x20 then
        if n >= 3 && b[2] == 0 then Accept(CancelTrain(FromS8(b[1])), b, 3) else None
      else if op == 0x2f then
        if n >= 5 && b[1..5] == [0, 0, 0, 0] then Accept(Lift, b, 5) else None
      else if op == 0x09 || op == 0x0a then DecodeSelect(b)
      else if IsPlain(op) then Accept(Plain(op), b, 1)
      else if IsWithZero(op) then
        if n >= 2 && b[1] == 0 then Accept(WithZero(op), b, 2) else None
      else if IsWithQueued(op) then
        if n >= 2 then Accept(WithQueued(op, b[1]), b, 2) else None
      else if IsWithByte(op) then
        if n >= 2 then Accept(WithByte(op, b[1]), b, 2) else None
      else if IsWithWord(op) then
        if n >= 3 then Accept(WithWord(op, ReadU16(b, 1)), b, 3) else None
      else None
  }

  lemma {:induction false} WordsLength(units: seq<int>)
    ensures |Words(units)| == 2 * |units|
  {
    if units == [] {
    } else {
      WordsLength(units[1..]);
    }
  }

  lemma {:induction false} WordsReadBack(b: Bytes, at: nat, units: seq<int>)
    requires forall i :: 0 <= i < |units| ==> UnitId(units[i])
    requires at + 2 * |units| <= |b| && b[at..at + 2 * |units|] == Words(units)
    ensures ReadWords(b, at, |units|) == units
    decreases |units|
  {
    if units == [] {
    } else {
      var words, word := Words(units), U16(units[0]);
      WordsLength(units[1..]);
      BytesOfField(units[0]);
      hide U16, FromU16;
      assert words[0] == word[0] && words[1] == word[1] && words[2..] == Words(units[1..]);
      assert b[at] == words[0] && b[at + 1] == words[1];
      assert b[at + 2..at + 2 * |units|] == words[2..];
      WordsReadBack(b, at + 2, units[1..]);
    }
  }

  lemma WordsRoundTrip(units: seq<int>, head: Bytes, rest: Bytes)
    requires forall i :: 0 <= i < |units| ==> UnitId(units[i])
    ensures |Words(units)| == 2 * |units|
    ensures ReadWords(head + Words(units) + rest, |head|, |units|) == units
  {
    WordsLength(units);
    WordsReadBack(head + Words(units) + rest, |head|, units);
  }

  lemma {:induction false} WordsOfRead(b: Bytes, at: nat, n: nat)
    requires at + 2 * n <= |b|
    ensures Words(ReadWords(b, at, n)) == b[at..at + 2 * n]
    decreases n
  {
    if n == 0 {
    } else {
      WordsOfRead(b, at + 2, n - 1);
      FieldsOfBytes(b[at], b[at + 1]);
      hide U16, FromU16;
      assert b[at..at + 2 * n] == [b[at], b[at + 1]] + b[at + 2..at + 2 * n];
      assert ReadWords(b, at, n)[1..] == ReadWords(b, at + 2, n - 1);
    }
  }

  lemma RoundTripTargeted(x: int, y: int, target: int, order: int, queued: int, rest: Bytes)
    requires WellFormed(Targeted(x, y, target, order, queued))
    ensures var w := Targeted(x, y, target, order, queued); Decode(Print(w) + rest) == Some((w, rest))
  {
    BytesOfField(x);
    BytesOfField(y);
    BytesOfField(target);
    var px, py, pt := U16(x), U16(y), U16(target);
    var b := Print(Targeted(x, y, target, order, queued)) + rest;
    assert b == [0x15, px[0], px[1], py[0], py[1], pt[0], pt[1], 228, 0, order, queued] + rest;
    assert b[11..] == rest;
  }

  lemma RoundTripRightClick(x: int, y: int, target: int, queued: int, rest: Bytes)
    requires WellFormed(RightClick(x, y, target, queued))
    ensures var w := RightClick(x, y, target, queued); Decode(Print(w) + rest) == Some((w, rest))
  {
    BytesOfField(x);
    BytesOfField(y);
    BytesOfField(target);
    var px, py, pt := U16(x), U16(y), U16(target);
    var b := Print(RightClick(x, y, target, queued)) + rest;
    assert b == [0x14, px[0], px[1], py[0], py[1], pt[0], pt[1], queued] + rest;
    assert b[8..] == rest;
  }

  lemma RoundTripPlace(order: int, x: int, y: int, unitType: int, rest: Bytes)
    requires WellFormed(Place(order, x, y, unitType))
    ensures var w := Place(order, x, y, unitType); Decode(Print(w) + rest) == Some((w, rest))
  {
    BytesOfField(x);
    BytesOfField(y);
    BytesOfField(unitType);
    var px, py, pt := U16(x), U16(y), U16(unitType);
    var b := Print(Place(order, x, y, unitType)) + rest;
    assert b == [0x0c, order, px[0], px[1], py[0], py[1], pt[0], pt[1]] + rest;
    assert b[8..] == rest;
  }

  lemma RoundTripPing(x: int, y: int, rest: Bytes)
    requires WellFormed(Ping(x, y))
    ensures Decode(Print(Ping(x, y)) + rest) == Some((Ping(x, y), rest))
  {
    BytesOfField(x);
    BytesOfField(y);
    var b := Print(Ping(x, y)) + rest;
    assert b[5..] == rest;
    assert b == [0x58, U16(x)[0], U16(x)[1], U16(y)[0], U16(y)[1]] + rest;
    hide FromU16, U16, ReadWords;
  }

  lemma RoundTripAlliance(mask: int, rest: Bytes)
    requires WellFormed(Alliance(mask))
    ensures Decode(Print(Alliance(mask)) + rest) == Some((Alliance(mask), rest))
  {
    BytesOfWideField(mask);
    var b := Print(Alliance(mask)) + rest;
    assert b[5..] == rest;
    assert b == [0x0e, U32(mask)[0], U32(mask)[1], U32(mask)[2], U32(mask)[3]] + rest;
    hide FromU32, U32, ReadWords;
  }

  lemma RoundTripShort(w: Wire, rest: Bytes)
    requires WellFormed(w) && (w.CancelTrain? || w.Lift? || w.WithWord?)
    ensures Decode(Print(w) + rest) == Some((w, rest))
  {
    var b := Print(w) + rest;
    assert b[|Print(w)|..] == rest;
    match w
    case CancelTrain(slot) =>
      BytesOfField(slot);
      assert b == [0x20, U8(slot)[0], 0] + rest;
    case Lift => assert b[1..5] == [0, 0, 0, 0];
    case WithWord(op, v) =>
      BytesOfField(v);
      assert b == [op, U16(v)[0], U16(v)[1]] + rest;
  }

  lemma RoundTripOpcodeOnly(w: Wire, rest: Bytes)
    requires WellFormed(w)
    requires w.Plain? || w.WithZero? || w.WithQueued? || w.WithByte?
    ensures Decode(Print(w) + rest) == Some((w, rest))
  {
    hide FromU16, FromU32, FromS8, ReadWords, U16;
    var b := Print(w) + rest;
    assert b[|Print(w)|..] == rest;
    match w
    case WithByte(op, v) => assert b == [op, v] + rest;
    case WithQueued(op, v) => assert b == [op, v] + rest;
    case Plain(op) =>
    case WithZero(op) =>
  }

  lemma RoundTripSelect(add: bool, units: seq<int>, rest: Bytes)
    requires WellFormed(Select(add, units))
    ensures var w := Select(add, units); Decode(Print(w) + rest) == Some((w, rest))
  {
    var b := Print(Select(add, units)) + rest;
    var head: Bytes := [if add then 0x0a else 0x09, |units|];
    WordsRoundTrip(units, head, rest);
    assert b == head + Words(units) + rest;
    assert b[2 + 2 * |units|..] == rest;
  }

  /** Decoding what was printed gives the command back, whatever follows it. */
  lemma RoundTrip(w: Wire, rest: Bytes)
    requires WellFormed(w)
    ensures Decode(Print(w) + rest) == Some((w, rest))
  {
    match w
    case Targeted(x, y, target, order, queued) => RoundTripTargeted(x, y, target, order, queued, rest);
    case RightClick(x, y, target, queued) => RoundTripRightClick(x, y, target, queued, rest);
    case Place(order, x, y, unitType) => RoundTripPlace(order, x, y, unitType, rest);
    case Ping(x, y) => RoundTripPing(x, y, rest);
    case Alliance(mask) => RoundTripAlliance(mask, rest);
    case CancelTrain(_) => RoundTripShort(w, rest);
    case Lift => RoundTripShort(w, rest);
    case WithWord(_, _) => RoundTripShort(w, rest);
    case Select(add, units) => RoundTripSelect(add, units, rest);
    case _ => RoundTripOpcodeOnly(w, rest);
  }

  lemma CanonicalTargeted(b: Bytes)
    requires Decode(b).Some? && b[0] == 0x15
    ensures var (w, rest) := Decode(b).value; b == Print(w) + rest
  {
    FieldsOfBytes(b[1], b[2]);
    FieldsOfBytes(b[3], b[4]);
    FieldsOfBytes(b[5], b[6]);
    FieldsOfBytes(b[7], b[8]);
    assert b == b[..11] + b[11..];
  }

  lemma CanonicalPositions(b: Bytes)
    requires Decode(b).Some? && b[0] in {0x14, 0x0c, 0x58}
    ensures var (w, rest) := Decode(b).value; b == Print(w) + rest
  {
    if b[0] == 0x14 {
      FieldsOfBytes(b[1], b[2]);
      FieldsOfBytes(b[3], b[4]);
      FieldsOfBytes(b[5], b[6]);
      assert b == b[..8] + b[8..];
    } else if b[0] == 0x0c {
      FieldsOfBytes(b[2], b[3]);
      FieldsOfBytes(b[4], b[5]);
      FieldsOfBytes(b[6], b[7]);
      assert b == b[..8] + b[8..];
    } else {
      FieldsOfBytes(b[1], b[2]);
      FieldsOfBytes(b[3], b[4]);
      assert b == b[..5] + b[5..];
    }
  }

  lemma CanonicalShort(b: Bytes)
    requires Decode(b).Some? && b[0] in {0x0e, 0x20, 0x2f}
    ensures var (w, rest) := Decode(b).value; b == Print(w) + rest
  {
    if b[0] == 0x0e {
      WideFieldOfBytes(b[1], b[2], b[3], b[4]);
      assert b == b[..5] + b[5..];
    } else if b[0] == 0x20 {
      FieldsOfBytes(b[1], b[2]);
      assert b == b[..3] + b[3..];
    } else {
      assert b == [b[0]] + b[1..5] + b[5..];
    }
  }

  lemma CanonicalOpcodeOnly(b: Bytes)
    requires Decode(b).Some? && b[0] !in {0x15, 0x14, 0x0c, 0x58, 0x0e, 0x20, 0x2f, 0x09, 0x0a}
    ensures var (w, rest) := Decode(b).value; b == Print(w) + rest
  {
    if IsWithWord(b[0]) {
      FieldsOfBytes(b[1], b[2]);
      assert b == b[..3] + b[3..];
    } else if IsPlain(b[0]) {
      assert b == b[..1] + b[1..];
    } else {
      assert b == b[..2] + b[2..];
    }
  }

  lemma DecodedSelect(b: Bytes)
    requires Decode(b).Some? && b[0] in {0x09, 0x0a}
    ensures |b| >= 2 && |b| >= 2 + 2 * b[1] as int
    ensures Decode(b).value == (Select(b[0] == 0x0a, ReadWords(b, 2, b[1])), b[2 + 2 * b[1] as int..])
  {
    SelectDecodes(b);
    hide Decode, ReadWords, WellFormed;
  }

  lemma SelectDecodes(b: Bytes)
    requires b != [] && b[0] in {0x09, 0x0a}
    ensures Decode(b) == DecodeSelect(b)
  {
    hide DecodeSelect, Accept, ReadU16, ReadS16, FromU32, FromS8;
    hide IsPlain, IsWithZero, IsWithQueued, IsWithByte, IsWithWord;
  }

  lemma CanonicalSelect(b: Bytes)
    requires Decode(b).Some? && b[0] in {0x09, 0x0a}
    ensures var (w, rest) := Decode(b).value; b == Print(w) + rest
  {
    var n := 2 + 2 * b[1] as int;
    WordsOfRead(b, 2, b[1]);
    DecodedSelect(b);
    hide Decode, Words, ReadWords;
    FieldsOfBytes(b[1], b[1]);
    assert b == [b[0]] + [b[1]] + b[2..n] + b[n..];
  }

  /** Only printed commands decode: the format has no second spelling of a command. */
  lemma DecodeIsCanonical(b: Bytes)
    requires Decode(b).Some?
    ensures var (w, rest) := Decode(b).value; b == Print(w) + rest
  {
    if b[0] == 0x15 {
      CanonicalTargeted(b);
    } else if b[0] in {0x14, 0x0c, 0x58} {
      CanonicalPositions(b);
    } else if b[0] in {0x0e, 0x20, 0x2f} {
      CanonicalShort(b);
    } else if b[0] in {0x09, 0x0a} {
      CanonicalSelect(b);
    } else {
      CanonicalOpcodeOnly(b);
    }
  }

  /** Records are prefix-free, so a stream splits into commands in one way only. */
  lemma PrefixFree(w1: Wire, w2: Wire, r1: Bytes, r2: Bytes)
    requires WellFormed(w1) && WellFormed(w2)
    requires Print(w1) + r1 == Print(w2) + r2
    ensures w1 == w2 && r1 == r2
  {
    hide Print, Decode, WellFormed;
    RoundTrip(w1, r1);
    RoundTrip(w2, r2);
  }

  // Streams of commands, as they stand in the turn buffer.

  // ---- where the fields stand ----

  /** Two bytes at this index hold the value, the low one first; negative values wrap around. */
  predicate Holds16(b: Bytes, at: nat, v: int) {
    at + 2 <= |b| && b[at] as int + 256 * b[at + 1] as int == v % 65536
  }

  lemma BytesHold(b: Bytes, at: nat, v: int)
    requires at + 2 <= |b| && b[at] == v % 256 && b[at + 1] == v / 256 % 256
    ensures Holds16(b, at, v)
  {
    assert v % 65536 == v % 256 + 256 * (v / 256 % 256);
  }

  /** The records byte by byte: opcode first, fields at fixed places, 16-bit fields low byte first. */
  lemma RecordBytes(w: Wire)
    requires !w.Select?
    ensures var b := Print(w);
            match w
            case Targeted(x, y, target, order, queued) =>
              && |b| == 11 && b[0] == 0x15 && Holds16(b, 1, x) && Holds16(b, 3, y) && Holds16(b, 5, target)
              && Holds16(b, 7, 228) && b[9] == order % 256 && b[10] == queued % 256
            case RightClick(x, y, target, queued) =>
              && |b| == 8 && b[0] == 0x14 && Holds16(b, 1, x) && Holds16(b, 3, y) && Holds16(b, 5, target)
              && b[7] == queued % 256
            case Place(order, x, y, unitType) =>
              && |b| == 8 && b[0] == 0x0c && b[1] == order % 256
              && Holds16(b, 2, x) && Holds16(b, 4, y) && Holds16(b, 6, unitType)
            case Ping(x, y) => |b| == 5 && b[0] == 0x58 && Holds16(b, 1, x) && Holds16(b, 3, y)
            case Alliance(mask) => |b| == 5 && b[0] == 0x0e && Holds16(b, 1, mask) && Holds16(b, 3, mask / 65536)
            case CancelTrain(slot) => b == [0x20, slot % 256, 0]
            case Lift => b == [0x2f, 0, 0, 0, 0]
            case Plain(op) => b == [op]
            case WithZero(op) => b == [op, 0]
            case WithQueued(op, queued) => b == [op, queued % 256]
            case WithByte(op, v) => b == [op, v % 256]
            case WithWord(op, v) => |b| == 3 && b[0] == op && Holds16(b, 1, v)
  {
    hide Holds16;
    var b := Print(w);
    match w
    case Targeted(x, y, target, _, _) =>
      BytesHold(b, 1, x);
      BytesHold(b, 3, y);
      BytesHold(b, 5, target);
      BytesHold(b, 7, UNIT_TYPE_NONE);
    case RightClick(x, y, target, _) =>
      BytesHold(b, 1, x);
      BytesHold(b, 3, y);
      BytesHold(b, 5, target);
    case Place(_, x, y, unitType) =>
      BytesHold(b, 2, x);
      BytesHold(b, 4, y);
      BytesHold(b, 6, unitType);
    case Ping(x, y) =>
      BytesHold(b, 1, x);
      BytesHold(b, 3, y);
    case Alliance(mask) =>
      BytesHold(b, 1, mask);
      BytesHold(b, 3, mask / 65536);
    case WithWord(_, v) => BytesHold(b, 1, v);
    case _ =>
  }

  lemma {:induction false} WordBytes(units: seq<int>, i: nat)
    requires i < |units|
    ensures Holds16(Words(units), 2 * i, units[i])
    decreases |units|
  {
    if i == 0 {
      BytesHold(Words(units), 0, units[0]);
    } else {
      WordBytes(units[1..], i - 1);
      var b, rest := Words(units), Words(units[1..]);
      assert b[2 * i] == rest[2 * (i - 1)] && b[2 * i + 1] == rest[2 * (i - 1) + 1];
    }
  }

  /** A selection: opcode, count, then the unit ids in order. */
  lemma SelectBytes(add: bool, units: seq<int>)
    requires |units| < 256
    ensures var b := Print(Select(add, units));
            && |b| == 2 + 2 * |units| && b[0] == (if add then 0x0a else 0x09) && b[1] == |units|
            && forall i :: 0 <= i < |units| ==> Holds16(b, 2 + 2 * i, units[i])
  {
    var b, words := Print(Select(add, units)), Words(units);
    WordsLength(units);
    hide Words, U16;
    assert b == [if add then 0x0a else 0x09] + U8(|units|) + words;
    forall i | 0 <= i < |units| ensures Holds16(b, 2 + 2 * i, units[i]) {
      WordBytes(units, i);
      assert b[2 + 2 * i] == words[2 * i] && b[3 + 2 * i] == words[2 * i + 1];
    }
  }

  function PrintAll(ws: seq<Wire>): Bytes {
    if ws == [] then [] else Print(ws[0]) + PrintAll(ws[1..])
  }

  function DecodeAll(b: Bytes): Option<seq<Wire>>
    decreases |b|
  {
    if b == [] then Some([])
    else
      match Decode(b)
      case None => None
      case Some((w, rest)) =>
        match DecodeAll(rest)
        case None => None
        case Some(ws) => Some([w] + ws)
  }

  ghost predicate AllWellFormed(ws: seq<Wire>) {
    forall i :: 0 <= i < |ws| ==> WellFormed(ws[i])
  }

  lemma StreamStep(b: Bytes, w: Wire, rest: Bytes, ws: seq<Wire>)
    requires Decode(b) == Some((w, rest)) && DecodeAll(rest) == Some(ws)
    ensures DecodeAll(b) == Some([w] + ws)
  {
    hide Decode;
  }

  lemma {:induction false} StreamRoundTrip(ws: seq<Wire>)
    requires AllWellFormed(ws)
    ensures DecodeAll(PrintAll(ws)) == Some(ws)
  {
    hide Print, Decode, WellFormed;
    if ws == [] {
    } else {
      StreamRoundTrip(ws[1..]);
      RoundTrip(ws[0], PrintAll(ws[1..]));
      StreamStep(PrintAll(ws), ws[0], PrintAll(ws[1..]), ws[1..]);
      assert ws == [ws[0]] + ws[1..];
    }
  }

  lemma {:induction false} StreamIsCanonical(b: Bytes)
    requires DecodeAll(b).Some?
    ensures AllWellFormed(DecodeAll(b).value) && b == PrintAll(DecodeAll(b).value)
    decreases |b|
  {
    hide Print, Decode, WellFormed;
    if b == [] {
    } else {
      var (w, rest) := Decode(b).value;
      DecodeIsCanonical(b);
      StreamIsCanonical(rest);
    }
  }

  lemma PrintAllUnfold(a: seq<Wire>, b: seq<Wire>)
    requires a != []
    ensures PrintAll(a + b) == Print(a[0]) + PrintAll(a[1..] + b)
  {
    hide Print;
    assert (a + b)[1..] == a[1..] + b;
  }

  lemma {:induction false} PrintAllConcat(a: seq<Wire>, b: seq<Wire>)
    ensures PrintAll(a + b) == PrintAll(a) + PrintAll(b)
  {
    hide Print;
    if a == [] {
      assert a + b == b;
    } else {
      PrintAllConcat(a[1..], b);
      PrintAllUnfold(a, b);
    }
  }
}
