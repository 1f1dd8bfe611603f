/**
  Two scans of the same machine code.  The code sweep decodes references one after the
  other and skips over each instruction it recognises; the xref scan tries every offset.
  Addresses are 64-bit words and wrap around.
 */
module CodeSweep {
  import opened Common
  import CommandWire

  type Bytes = seq<Byte>

  const WORD: int := 0x1_0000_0000_0000_0000

  datatype Kind =
    | CallRel32 | JmpRel32 | JccRel32 | LeaRip | MovLoadRip | MovStoreRip
    | CmpRip | MovImmStoreRip | OpImmRip | MovxRip | RipRel32

  datatype Reference = Reference(target: int, length: nat, kind: Kind)

  /** readS32: four bytes, little end first, two's complement. */
  function ReadS32(bytes: Bytes, at: nat): (v: int)
    requires at + 4 <= |bytes|
    ensures -0x8000_0000 <= v < 0x8000_0000
  {
    var u := CommandWire.FromU32(bytes[at], bytes[at + 1], bytes[at + 2], bytes[at + 3]);
    if u < 0x8000_0000 then u else u - 0x1_0000_0000
  }

  /** The displacement bytes an assembler would write. */
  function DisplacementBytes(v: int): Bytes
    requires -0x8000_0000 <= v < 0x8000_0000
  {
    CommandWire.U32(if v >= 0 then v else v + 0x1_0000_0000)
  }

  function ByteAt(bytes: Bytes, i: nat): Byte {
    if i < |bytes| then bytes[i] else 0
  }

  /** mod == 0 and rm == 5: a displacement from the next instruction. */
  predicate RipRelative(modRm: Byte) {
    modRm < 0x40 && modRm % 8 == 5
  }

  predicate IsRex(b: Byte) { 0x40 <= b <= 0x4f }

  predicate IsJcc(first: Byte, second: Byte) { first == 0x0f && 0x80 <= second <= 0x8f }

  predicate IsMove(op: Byte) { op == 0x8b || op == 0x89 || op == 0x8d }

  predicate IsCompare(op: Byte) { op == 0x39 || op == 0x3b }

  predicate IsImmediate(op: Byte) { op == 0xc6 || op == 0xc7 || op == 0x80 || op == 0x81 || op == 0x83 }

  predicate IsZeroExtend(op: Byte) { op == 0xb6 || op == 0xb7 }

  predicate IsSignExtend(op: Byte) { op == 0xbe || op == 0xbf }

  function ImmediateSize(op: Byte): nat {
    if op == 0xc6 || op == 0x80 || op == 0x83 then 1
    else if op == 0xc7 || op == 0x81 then 4
    else 0
  }

  function PlainKind(op: Byte): Kind {
    if op == 0x8d then LeaRip
    else if op == 0x8b then MovLoadRip
    else if op == 0x89 then MovStoreRip
    else if op == 0x39 || op == 0x3b then CmpRip
    else if op == 0xc6 || op == 0xc7 then MovImmStoreRip
    else if op == 0x80 || op == 0x81 || op == 0x83 then OpImmRip
    else RipRel32
  }

  /** classifyRipRef. */
  function Classify(bytes: Bytes, i: nat): Kind {
    var first, second, third := ByteAt(bytes, i), ByteAt(bytes, i + 1), ByteAt(bytes, i + 2);
    if first == 0xe8 then CallRel32
    else if first == 0xe9 then JmpRel32
    else if IsJcc(first, second) then JccRel32
    else if IsRex(first) && PlainKind(second) != RipRel32 then PlainKind(second)
    else if IsRex(first) && second == 0x0f && (IsZeroExtend(third) || IsSignExtend(third)) then MovxRip
    else PlainKind(first)
  }

  function Resolve(bytes: Bytes, i: nat, address: int, displacementAt: nat, length: nat): Option<Reference> {
    if i + displacementAt + 4 > |bytes| then None
    else Some(Reference((address + length + ReadS32(bytes, i + displacementAt)) % WORD, length, Classify(bytes, i)))
  }

  function DecodeCodeReference(bytes: Bytes, i: nat, address: int): Option<Reference> {
    if i + 5 > |bytes| then None
    else
      var first, second, third := ByteAt(bytes, i), ByteAt(bytes, i + 1), ByteAt(bytes, i + 2);
      if first == 0xe8 || first == 0xe9 then Resolve(bytes, i, address, 1, 5)
      else if IsJcc(first, second) then Resolve(bytes, i, address, 2, 6)
      else if (IsMove(first) || IsCompare(first)) && i + 6 <= |bytes| && RipRelative(second)
      then Resolve(bytes, i, address, 2, 6)
      else if IsImmediate(first) && i + 6 + ImmediateSize(first) <= |bytes| && RipRelative(second)
      then Resolve(bytes, i, address, 2, 6 + ImmediateSize(first))
      else if IsRex(first) && i + 7 <= |bytes| then
        if (IsMove(second) || IsCompare(second)) && RipRelative(third)
        then Resolve(bytes, i, address, 3, 7)
        else if IsImmediate(second) && i + 7 + ImmediateSize(second) <= |bytes| && RipRelative(third)
        then Resolve(bytes, i, address, 3, 7 + ImmediateSize(second))
        else if second == 0x0f && (IsZeroExtend(third) || IsSignExtend(third))
                && i + 8 <= |bytes| && RipRelative(bytes[i + 3])
        then Resolve(bytes, i, address, 4, 8)
        else None
      else None
  }

  lemma DecodedFits(bytes: Bytes, i: nat, address: int)
    requires DecodeCodeReference(bytes, i, address).Some?
    ensures var r := DecodeCodeReference(bytes, i, address).value;
            5 <= r.length <= 11 && i + r.length <= |bytes| && 0 <= r.target < WORD
  {
    hide Classify, ReadS32;
  }

  // ---- the sweep ----

  datatype Event = Event(offset: nat, address: int, reference: Reference)

  function AddressOf(start: int, offset: nat): int {
    (start + offset) % WORD
  }

  /** What the sweep reports from an offset on. */
  function SweepFrom(bytes: Bytes, start: int, offset: nat): seq<Event>
    decreases |bytes| - offset
  {
    if offset + 5 > |bytes| then []
    else
      match DecodeCodeReference(bytes, offset, AddressOf(start, offset))
      case None => SweepFrom(bytes, start, offset + 1)
      case Some(r) =>
        [Event(offset, AddressOf(start, offset), r)]
        + if r.length > 1 then SweepFrom(bytes, start, offset + r.length) else SweepFrom(bytes, start, offset + 1)
  }

  method Sweep(bytes: Bytes, start: int) returns (events: seq<Event>)
    ensures events == SweepFrom(bytes, start, 0)
  {
    hide DecodeCodeReference, AddressOf, SweepFrom;
    events := [];
    var offset := 0;
    while offset + 5 <= |bytes|
      invariant events + SweepFrom(bytes, start, offset) == SweepFrom(bytes, start, 0)
      decreases |bytes| - offset
    {
      var address := AddressOf(start, offset);
      var decoded := DecodeCodeReference(bytes, offset, address);
      SweepUnfolds(bytes, start, offset, events);
      if decoded.Some? {
        events := events + [Event(offset, address, decoded.value)];
        if decoded.value.length > 1 {
          offset := offset + (decoded.value.length - 1);
        }
      }
      offset := offset + 1;
    }
    SweepEnds(bytes, start, offset);
  }

  lemma SweepUnfolds(bytes: Bytes, start: int, offset: nat, before: seq<Event>)
    requires offset + 5 <= |bytes|
    ensures var address := AddressOf(start, offset);
            before + SweepFrom(bytes, start, offset)
            == match DecodeCodeReference(bytes, offset, address)
               case None => before + SweepFrom(bytes, start, offset + 1)
               case Some(r) =>
                 before + [Event(offset, address, r)]
                 + if r.length > 1 then SweepFrom(bytes, start, offset + r.length)
                   else SweepFrom(bytes, start, offset + 1)
  {
    hide DecodeCodeReference, AddressOf;
  }

  lemma SweepEnds(bytes: Bytes, start: int, offset: nat)
    requires offset + 5 > |bytes|
    ensures SweepFrom(bytes, start, offset) == []
  {
  }

  /** Every event lies in the buffer, and each one ends before the next begins. */
  ghost predicate InOrder(bytes: Bytes, start: int, events: seq<Event>, from: nat) {
    && (forall k :: 0 <= k < |events| ==>
          && from <= events[k].offset
          && events[k].address == AddressOf(start, events[k].offset)
          && DecodeCodeReference(bytes, events[k].offset, events[k].address) == Some(events[k].reference)
          && events[k].reference.length >= 5
          && events[k].offset + events[k].reference.length <= |bytes|)
    && (forall j, k :: 0 <= j < k < |events| ==>
          events[j].offset + events[j].reference.length <= events[k].offset)
  }

  lemma {:induction false} SweepInOrder(bytes: Bytes, start: int, offset: nat)
    ensures InOrder(bytes, start, SweepFrom(bytes, start, offset), offset)
    decreases |bytes| - offset
  {
    hide DecodeCodeReference, AddressOf;
    if offset + 5 > |bytes| {
    } else {
      var decoded := DecodeCodeReference(bytes, offset, AddressOf(start, offset));
      if decoded.None? {
        SweepInOrder(bytes, start, offset + 1);
      } else {
        DecodedFits(bytes, offset, AddressOf(start, offset));
        SweepInOrder(bytes, start, offset + decoded.value.length);
      }
    }
  }

  /** The event is at the offset, or the offset lies inside its instruction. */
  predicate Covers(e: Event, i: nat) {
    e.offset <= i < e.offset + e.reference.length
  }

  /** Some event of the list covers the offset. */
  ghost predicate Covered(events: seq<Event>, i: nat) {
    exists e :: e in events && Covers(e, i)
  }

  /** Where the sweep goes on after an offset. */
  function NextOffset(bytes: Bytes, start: int, offset: nat): (next: nat)
    ensures next > offset
  {
    match DecodeCodeReference(bytes, offset, AddressOf(start, offset))
    case None => offset + 1
    case Some(r) => if r.length > 1 then offset + r.length else offset + 1
  }

  /** One step of the sweep covers the bytes it moves past, as far as they decode. */
  lemma SweepStep(bytes: Bytes, start: int, offset: nat, i: nat)
    requires offset + 5 <= |bytes|
    ensures Covered(SweepFrom(bytes, start, NextOffset(bytes, start, offset)), i) ==>
              Covered(SweepFrom(bytes, start, offset), i)
    ensures offset <= i < NextOffset(bytes, start, offset)
            && DecodeCodeReference(bytes, i, AddressOf(start, i)).Some? ==>
              Covered(SweepFrom(bytes, start, offset), i)
  {
    hide DecodeCodeReference, AddressOf, Covers;
    var events := SweepFrom(bytes, start, offset);
    var rest := SweepFrom(bytes, start, NextOffset(bytes, start, offset));
    var decoded := DecodeCodeReference(bytes, offset, AddressOf(start, offset));
    if decoded.Some? {
      var e := Event(offset, AddressOf(start, offset), decoded.value);
      assert events == [e] + rest;
      FirstCovers(bytes, start, e, i);
      assert e in events;
    } else {
      assert events == rest;
    }
  }

  lemma FirstCovers(bytes: Bytes, start: int, e: Event, i: nat)
    requires DecodeCodeReference(bytes, e.offset, e.address) == Some(e.reference)
    requires e.offset >= 0 && e.address == AddressOf(start, e.offset)
    ensures e.offset <= i < NextOffset(bytes, start, e.offset) ==> Covers(e, i)
  {
    DecodedFits(bytes, e.offset, e.address);
    hide DecodeCodeReference, AddressOf;
  }

  /** The sweep misses nothing: a decodable offset is an event or inside one. */
  lemma {:induction false} SweepMissesNothing(bytes: Bytes, start: int, offset: nat, i: nat)
    requires offset <= i && DecodeCodeReference(bytes, i, AddressOf(start, i)).Some?
    ensures exists e :: e in SweepFrom(bytes, start, offset) && Covers(e, i)
    decreases |bytes| - offset
  {
    DecodedFits(bytes, i, AddressOf(start, i));
    hide DecodeCodeReference, AddressOf, SweepFrom, NextOffset, Covers;
    var next := NextOffset(bytes, start, offset);
    if i >= next {
      SweepMissesNothing(bytes, start, next, i);
      assert Covered(SweepFrom(bytes, start, next), i);
    } else {
    }
    SweepStep(bytes, start, offset, i);
    assert Covered(SweepFrom(bytes, start, offset), i);
  }

  // ---- the xref scan ----

  /** testReference: the target computed from a displacement, when its bytes are there. */
  function Displaced(bytes: Bytes, i: nat, address: int, displacementAt: nat, length: nat): Option<int> {
    if i + displacementAt + 4 > |bytes| then None
    else Some((address + length + ReadS32(bytes, i + displacementAt)) % WORD)
  }

  /** The target the xref scan tests against its needles at one offset. */
  function XrefTarget(bytes: Bytes, i: nat, address: int): Option<int> {
    if i + 5 > |bytes| then None
    else
      var first, second, third := ByteAt(bytes, i), ByteAt(bytes, i + 1), ByteAt(bytes, i + 2);
      if first == 0xe8 || first == 0xe9 then Displaced(bytes, i, address, 1, 5)
      else if IsJcc(first, second) then Displaced(bytes, i, address, 2, 6)
      else if IsMove(first) && i + 6 <= |bytes| && RipRelative(second) then Displaced(bytes, i, address, 2, 6)
      else if IsRex(first) && i + 7 <= |bytes| then
        if IsMove(second) && RipRelative(third) then Displaced(bytes, i, address, 3, 7)
        else if second == 0x0f && IsZeroExtend(third) && i + 8 <= |bytes| && RipRelative(bytes[i + 3])
        then Displaced(bytes, i, address, 4, 8)
        else None
      else None
  }

  datatype XrefMatch = XrefMatch(instruction: int, needle: nat)

  /** recordMatch over all needles, for one tested target. */
  function MatchesOf(target: Option<int>, address: int, needles: seq<int>, n: nat): seq<XrefMatch>
    requires n <= |needles|
  {
    if n == 0 || target.None? then []
    else
      MatchesOf(target, address, needles, n - 1)
      + if needles[n - 1] == target.value then [XrefMatch(address, n - 1)] else []
  }

  function XrefsBelow(bytes: Bytes, start: int, needles: seq<int>, i: nat): seq<XrefMatch> {
    if i == 0 then []
    else
      XrefsBelow(bytes, start, needles, i - 1)
      + MatchesOf(XrefTarget(bytes, i - 1, AddressOf(start, i - 1)), AddressOf(start, i - 1), needles, |needles|)
  }

  function Xrefs(bytes: Bytes, start: int, needles: seq<int>): seq<XrefMatch> {
    XrefsBelow(bytes, start, needles, |bytes|)
  }

  lemma {:induction false} NothingAtTheEnd(bytes: Bytes, start: int, needles: seq<int>, i: nat)
    requires |bytes| < i + 5 && i <= |bytes|
    ensures XrefsBelow(bytes, start, needles, i) == Xrefs(bytes, start, needles)
    decreases |bytes| - i
  {
    if i >= |bytes| {
    } else {
      NothingAtTheEnd(bytes, start, needles, i + 1);
    }
  }

  method ScanXrefs(bytes: Bytes, start: int, needles: seq<int>) returns (matches: seq<XrefMatch>)
    ensures matches == Xrefs(bytes, start, needles)
  {
    hide XrefTarget, AddressOf;
    matches := [];
    var i := 0;
    while i + 5 <= |bytes|
      invariant i <= |bytes| && matches == XrefsBelow(bytes, start, needles, i)
    {
      var address := AddressOf(start, i);
      var target := XrefTarget(bytes, i, address);
      if target.Some? {
        var found: seq<XrefMatch> := [];
        for n := 0 to |needles|
          invariant found == MatchesOf(target, address, needles, n)
        {
          if needles[n] == target.value {
            found := found + [XrefMatch(address, n)];
          }
        }
        matches := matches + found;
      }
      i := i + 1;
    }
    NothingAtTheEnd(bytes, start, needles, i);
  }

  // ---- the two scans together ----

  /** The forms both decoders know. */
  predicate SharedForm(bytes: Bytes, i: nat) {
    var first, second, third := ByteAt(bytes, i), ByteAt(bytes, i + 1), ByteAt(bytes, i + 2);
    || first == 0xe8 || first == 0xe9 || IsJcc(first, second) || IsMove(first)
    || (IsRex(first) && (IsMove(second) || (second == 0x0f && IsZeroExtend(third))))
  }

  /** At every offset the xref scan sees exactly the shared forms the sweep's decoder sees. */
  lemma DecodersAgree(bytes: Bytes, i: nat, address: int)
    ensures XrefTarget(bytes, i, address)
         == var decoded := DecodeCodeReference(bytes, i, address);
            if decoded.Some? && SharedForm(bytes, i) then Some(decoded.value.target) else None
  {
    hide Classify, ReadS32;
  }

  lemma {:induction false} MatchesAreHits(target: Option<int>, address: int, needles: seq<int>, n: nat, m: XrefMatch)
    requires n <= |needles|
    ensures m in MatchesOf(target, address, needles, n)
        <==> m.instruction == address && m.needle < n && target == Some(needles[m.needle])
  {
    if n == 0 || target.None? {
    } else {
      MatchesAreHits(target, address, needles, n - 1, m);
    }
  }

  /** The matches of the xref scan are all offsets whose target is a needle. */
  lemma {:induction false} XrefsAreHits(bytes: Bytes, start: int, needles: seq<int>, i: nat, m: XrefMatch)
    ensures m in XrefsBelow(bytes, start, needles, i)
        <==> m.needle < |needles|
             && exists k: nat :: k < i && m.instruction == AddressOf(start, k)
                                 && XrefTarget(bytes, k, AddressOf(start, k)) == Some(needles[m.needle])
  {
    hide XrefTarget, AddressOf, MatchesOf;
    if i == 0 {
    } else {
      XrefsAreHits(bytes, start, needles, i - 1, m);
      var address := AddressOf(start, i - 1);
      MatchesAreHits(XrefTarget(bytes, i - 1, address), address, needles, |needles|, m);
    }
  }

  /** Every shared-form event of the sweep is reported by the xref scan for its target. */
  lemma SweepEventIsReported(bytes: Bytes, start: int, needles: seq<int>, e: Event, n: nat)
    requires e in SweepFrom(bytes, start, 0) && SharedForm(bytes, e.offset)
    requires n < |needles| && needles[n] == e.reference.target
    ensures XrefMatch(e.address, n) in Xrefs(bytes, start, needles)
  {
    SweepInOrder(bytes, start, 0);
    DecodersAgree(bytes, e.offset, e.address);
    XrefsAreHits(bytes, start, needles, |bytes|, XrefMatch(e.address, n));
    hide DecodeCodeReference, XrefTarget, AddressOf, SharedForm, SweepFrom, XrefsBelow;
    assert e.offset < |bytes| && XrefTarget(bytes, e.offset, e.address) == Some(needles[n]);
  }

  /** Every match of the xref scan is an event of the sweep or stands inside one. */
  lemma MatchIsSwept(bytes: Bytes, start: int, needles: seq<int>, m: XrefMatch)
    requires m in Xrefs(bytes, start, needles)
    ensures m.needle < |needles|
    ensures exists i: nat, e :: m.instruction == AddressOf(start, i) && e in SweepFrom(bytes, start, 0) && Covers(e, i)
                                && (e.offset == i ==> e.reference.target == needles[m.needle])
  {
    XrefsAreHits(bytes, start, needles, |bytes|, m);
    var i: nat :| i < |bytes| && m.instruction == AddressOf(start, i)
                  && XrefTarget(bytes, i, AddressOf(start, i)) == Some(needles[m.needle]);
    DecodersAgree(bytes, i, AddressOf(start, i));
    SweepMissesNothing(bytes, start, 0, i);
    SweepInOrder(bytes, start, 0);
    hide DecodeCodeReference, XrefTarget, AddressOf, SharedForm, SweepFrom, XrefsBelow;
    var e :| e in SweepFrom(bytes, start, 0) && Covers(e, i);
  }

  // ---- assembling and decoding ----

  /** The displacement bytes of a near branch or a RIP-relative operand read back. */
  lemma DisplacementReadsBack(bytes: Bytes, at: nat, v: int)
    requires -0x8000_0000 <= v < 0x8000_0000
    requires at + 4 <= |bytes| && bytes[at..at + 4] == DisplacementBytes(v)
    ensures ReadS32(bytes, at) == v
  {
    var u := if v >= 0 then v else v + 0x1_0000_0000;
    CommandWire.BytesOfWideField(u);
    var w := bytes[at..at + 4];
    assert w[0] == bytes[at] && w[1] == bytes[at + 1] && w[2] == bytes[at + 2] && w[3] == bytes[at + 3];
    hide CommandWire.FromU32, CommandWire.U32;
  }

  predicate NearTarget(address: int, length: nat, target: int) {
    0 <= target < WORD && -0x8000_0000 <= target - (address + length) < 0x8000_0000
  }

  /** The opcodes with a memory operand: how many immediate bytes follow, and what they are called. */
  predicate IsMemoryForm(op: Byte, immediate: nat, kind: Kind) {
    || (op == 0x8b && immediate == 0 && kind == MovLoadRip)
    || (op == 0x89 && immediate == 0 && kind == MovStoreRip)
    || (op == 0x8d && immediate == 0 && kind == LeaRip)
    || ((op == 0x39 || op == 0x3b) && immediate == 0 && kind == CmpRip)
    || (op == 0xc6 && immediate == 1 && kind == MovImmStoreRip)
    || (op == 0xc7 && immediate == 4 && kind == MovImmStoreRip)
    || ((op == 0x80 || op == 0x83) && immediate == 1 && kind == OpImmRip)
    || (op == 0x81 && immediate == 4 && kind == OpImmRip)
  }

  /** A ModRM byte of a RIP-relative operand, any register. */
  predicate IsRipModRm(b: Byte) {
    b in {0x05, 0x0d, 0x15, 0x1d, 0x25, 0x2d, 0x35, 0x3d}
  }

  /** The bytes before the displacement, the immediate bytes behind it, and the kind. */
  predicate IsForm(prefix: Bytes, immediate: nat, kind: Kind) {
    || (prefix == [0xe8] && immediate == 0 && kind == CallRel32)
    || (prefix == [0xe9] && immediate == 0 && kind == JmpRel32)
    || (|prefix| == 2 && prefix[0] == 0x0f && 0x80 <= prefix[1] <= 0x8f && immediate == 0 && kind == JccRel32)
    || (|prefix| == 2 && IsMemoryForm(prefix[0], immediate, kind) && IsRipModRm(prefix[1]))
    || (|prefix| == 3 && 0x40 <= prefix[0] <= 0x4f && IsMemoryForm(prefix[1], immediate, kind) && IsRipModRm(prefix[2]))
    || (|prefix| == 4 && 0x40 <= prefix[0] <= 0x4f && prefix[1] == 0x0f && prefix[2] in {0xb6, 0xb7, 0xbe, 0xbf}
        && IsRipModRm(prefix[3]) && immediate == 0 && kind == MovxRip)
  }

  /** These n bytes are the front of an instruction that fits into the buffer. */
  predicate FormAt(bytes: Bytes, i: nat, n: nat, immediate: nat, kind: Kind) {
    i + n + 4 + immediate <= |bytes| && IsForm(bytes[i..i + n], immediate, kind)
  }

  lemma RipModRmIs(b: Byte)
    ensures IsRipModRm(b) <==> RipRelative(b)
  {
  }

  /** What an instruction with this front refers to. */
  function FormReference(bytes: Bytes, i: nat, address: int, n: nat, immediate: nat, kind: Kind): Option<Reference>
    requires i + n + 4 <= |bytes|
  {
    var length := n + 4 + immediate;
    Some(Reference((address + length + ReadS32(bytes, i + n)) % WORD, length, kind))
  }

  lemma BranchDecodes(bytes: Bytes, i: nat, address: int, immediate: nat, kind: Kind)
    requires FormAt(bytes, i, 1, immediate, kind)
    ensures DecodeCodeReference(bytes, i, address) == FormReference(bytes, i, address, 1, immediate, kind)
  {
    hide ReadS32;
    assert bytes[i] == bytes[i..i + 1][0];
  }

  lemma TwoByteFrontDecodes(bytes: Bytes, i: nat, address: int, immediate: nat, kind: Kind)
    requires FormAt(bytes, i, 2, immediate, kind)
    ensures DecodeCodeReference(bytes, i, address) == FormReference(bytes, i, address, 2, immediate, kind)
  {
    hide ReadS32;
    assert bytes[i] == bytes[i..i + 2][0] && bytes[i + 1] == bytes[i..i + 2][1];
    RipModRmIs(bytes[i + 1]);
    hide IsRipModRm, RipRelative;
  }

  lemma RexFrontDecodes(bytes: Bytes, i: nat, address: int, immediate: nat, kind: Kind)
    requires FormAt(bytes, i, 3, immediate, kind)
    ensures DecodeCodeReference(bytes, i, address) == FormReference(bytes, i, address, 3, immediate, kind)
  {
    hide ReadS32;
    assert bytes[i] == bytes[i..i + 3][0] && bytes[i + 1] == bytes[i..i + 3][1] && bytes[i + 2] == bytes[i..i + 3][2];
    RipModRmIs(bytes[i + 2]);
    hide IsRipModRm, RipRelative;
  }

  lemma ExtendDecodes(bytes: Bytes, i: nat, address: int, immediate: nat, kind: Kind)
    requires FormAt(bytes, i, 4, immediate, kind)
    ensures DecodeCodeReference(bytes, i, address) == FormReference(bytes, i, address, 4, immediate, kind)
  {
    hide ReadS32;
    assert bytes[i] == bytes[i..i + 4][0] && bytes[i + 1] == bytes[i..i + 4][1];
    assert bytes[i + 2] == bytes[i..i + 4][2] && bytes[i + 3] == bytes[i..i + 4][3];
    RipModRmIs(bytes[i + 3]);
    hide IsRipModRm, RipRelative;
  }

  /** An instruction of a known form decodes to its displacement's target, its length and its kind. */
  lemma FormDecodes(bytes: Bytes, i: nat, address: int, n: nat, immediate: nat, kind: Kind)
    requires FormAt(bytes, i, n, immediate, kind)
    ensures DecodeCodeReference(bytes, i, address) == FormReference(bytes, i, address, n, immediate, kind)
  {
    FormLengths(bytes, i, n, immediate, kind);
    hide DecodeCodeReference, FormReference, IsForm;
    if n == 1 {
      BranchDecodes(bytes, i, address, immediate, kind);
    } else if n == 2 {
      TwoByteFrontDecodes(bytes, i, address, immediate, kind);
    } else if n == 3 {
      RexFrontDecodes(bytes, i, address, immediate, kind);
    } else {
      ExtendDecodes(bytes, i, address, immediate, kind);
    }
  }

  lemma FormLengths(bytes: Bytes, i: nat, n: nat, immediate: nat, kind: Kind)
    requires FormAt(bytes, i, n, immediate, kind)
    ensures 1 <= n <= 4
  {
    assert |bytes[i..i + n]| == n;
  }

  /** Nothing else decodes. */
  lemma DecodedHasForm(bytes: Bytes, i: nat, address: int)
    requires DecodeCodeReference(bytes, i, address).Some?
    ensures exists n: nat, immediate: nat, kind :: FormAt(bytes, i, n, immediate, kind)
  {
    hide ReadS32, IsRipModRm, RipRelative;
    var first, second, third := ByteAt(bytes, i), ByteAt(bytes, i + 1), ByteAt(bytes, i + 2);
    RipModRmIs(second);
    RipModRmIs(third);
    var kind := DecodeCodeReference(bytes, i, address).value.kind;
    if first == 0xe8 || first == 0xe9 {
      assert bytes[i..i + 1] == [first];
      assert FormAt(bytes, i, 1, 0, kind);
    } else if !IsRex(first) {
      assert bytes[i..i + 2] == [first, second];
      assert FormAt(bytes, i, 2, ImmediateSize(first), kind);
    } else if second == 0x0f {
      RipModRmIs(bytes[i + 3]);
      assert bytes[i..i + 4] == [first, second, third, bytes[i + 3]];
      assert FormAt(bytes, i, 4, 0, kind);
    } else {
      assert bytes[i..i + 3] == [first, second, third];
      assert FormAt(bytes, i, 3, ImmediateSize(second), kind);
    }
  }

  /**
    An instruction of a known form, assembled for a target, decodes to that target, to its
    whole length, immediate bytes included, and to its kind.
   */
  lemma AssembledDecodes(bytes: Bytes, i: nat, address: int, n: nat, immediate: nat, kind: Kind, target: int)
    requires FormAt(bytes, i, n, immediate, kind) && NearTarget(address, n + 4 + immediate, target)
    requires bytes[i + n..i + n + 4] == DisplacementBytes(target - (address + n + 4 + immediate))
    ensures DecodeCodeReference(bytes, i, address) == Some(Reference(target, n + 4 + immediate, kind))
  {
    hide ReadS32, DisplacementBytes, FormAt;
    FormDecodes(bytes, i, address, n, immediate, kind);
    FormFits(bytes, i, n, immediate, kind);
    DisplacementReadsBack(bytes, i + n, target - (address + n + 4 + immediate));
  }

  lemma FormFits(bytes: Bytes, i: nat, n: nat, immediate: nat, kind: Kind)
    requires FormAt(bytes, i, n, immediate, kind)
    ensures i + n + 4 + immediate <= |bytes|
  {
  }

  lemma EventDecodes(bytes: Bytes, start: int, e: Event)
    requires e in SweepFrom(bytes, start, 0)
    ensures e.offset >= 0 && e.address == AddressOf(start, e.offset)
    ensures DecodeCodeReference(bytes, e.offset, e.address) == Some(e.reference)
  {
    SweepInOrder(bytes, start, 0);
    hide DecodeCodeReference, SweepFrom, AddressOf;
  }

  /** No wrap below the last address. */
  lemma AddressIs(start: nat, offset: nat)
    requires start + offset < 0x1_0000_0000_0000_0000
    ensures AddressOf(start, offset) == start + offset
  {
  }

  /**
    An assembled instruction anywhere in a buffer that starts at an address below the wrap is
    reported at its own address with its target, or lies inside an earlier event.
   */
  lemma AssembledIsSwept(bytes: Bytes, start: nat, i: nat, n: nat, immediate: nat, kind: Kind, target: int)
    requires FormAt(bytes, i, n, immediate, kind) && start + i < 0x1_0000_0000_0000_0000
    requires NearTarget(start + i, n + 4 + immediate, target)
    requires bytes[i + n..i + n + 4] == DisplacementBytes(target - (start + i + n + 4 + immediate))
    ensures exists e :: && e in SweepFrom(bytes, start, 0) && Covers(e, i)
                        && (e.offset == i ==> e == Event(i, start + i, Reference(target, n + 4 + immediate, kind)))
  {
    AssembledDecodes(bytes, i, start + i, n, immediate, kind, target);
    AddressIs(start, i);
    hide FormAt, NearTarget, DisplacementBytes, DecodeCodeReference, SweepFrom, AddressOf, Covers;
    SweepMissesNothing(bytes, start, 0, i);
    var e :| e in SweepFrom(bytes, start, 0) && Covers(e, i);
    EventDecodes(bytes, start, e);
  }
}
