/**
  Direct submission: encoded commands are written behind the bytes already queued in the
  game's turn buffer, read back, and committed by advancing the byte count.  Reads and
  writes of the other process may fail, stop short, or report a success that did not
  happen; the fates passed in say what each of them does.
 */
module TurnBuffer {
  import opened Common
  import opened CommandWire
  import opened CommandEncoder
  import opened CommandForms
  import opened CommandReading

  const CAPACITY: nat := 512

  datatype Sink = Sink(countAddress: nat, bufferAddress: nat)

  /** count bytes are delivered. */
  datatype ReadFate = ReadFate(success: bool, count: nat)

  /** The first stored bytes reach memory; success and written are what is reported. */
  datatype WriteFate = WriteFate(stored: nat, success: bool, written: nat)

  datatype Fates = Fates(countRead: ReadFate, bufferWrite: WriteFate, readback: ReadFate, countWrite: WriteFate)

  /** A write that reports n bytes written has written them. */
  predicate Honest(fate: WriteFate, n: nat) {
    fate.success && fate.written == n ==> fate.stored >= n
  }

  datatype ReadResult = ReadResult(success: bool, bytes: Bytes)

  class ProcessMemory {
    const cells: array<Byte>

    constructor (contents: Bytes)
      ensures cells[..] == contents && fresh(cells)
    {
      cells := new Byte[|contents|](i requires 0 <= i < |contents| => contents[i]);
    }

    method Read(address: nat, size: nat, fate: ReadFate) returns (r: ReadResult)
      ensures r.success ==>
                && address + |r.bytes| <= cells.Length && |r.bytes| <= size
                && r.bytes == cells[address..address + |r.bytes|]
                && |r.bytes| == if fate.count <= size then fate.count else size
      ensures r.success <==> fate.success && size > 0 && address + size <= cells.Length
    {
      if !fate.success || size == 0 || address + size > cells.Length {
        return ReadResult(false, []);
      }
      var n := if fate.count <= size then fate.count else size;
      return ReadResult(true, cells[address..address + n]);
    }

    method Write(address: nat, data: Bytes, fate: WriteFate) returns (success: bool, written: nat)
      modifies cells
      ensures success <==> fate.success && data != [] && address + |data| <= cells.Length
      ensures success ==> written == fate.written
      ensures forall i :: 0 <= i < cells.Length ==>
                cells[i] == if success && address <= i < address + |data| && i < address + fate.stored
                            then data[i - address] else old(cells[i])
    {
      written := 0;
      if !fate.success || |data| == 0 || address + |data| > cells.Length {
        return false, 0;
      }
      var n := if fate.stored <= |data| then fate.stored else |data|;
      for i := 0 to n
        invariant forall k :: 0 <= k < cells.Length ==>
                    cells[k] == if address <= k < address + i then data[k - address] else old(cells[k])
      {
        cells[address + i] := data[i];
      }
      return true, fate.written;
    }
  }

  datatype Stage =
    | NotEncodable | CountUnreadable | CountTooLarge | NoRoom
    | BufferWriteFailed | ReadbackFailed | ReadbackMismatch | CountWriteFailed

  datatype SubmitResult = Rejected(stage: Stage) | Submitted(commands: nat)

  datatype AuditRow = AuditRow(sequence: nat, command: Request, bytes: Bytes, address: nat)

  // ---- the abstract queue ----

  /** The count word and the buffer lie in memory and do not overlap. */
  predicate Layout(length: nat, sink: Sink) {
    && sink.countAddress + 4 <= length
    && sink.bufferAddress + CAPACITY <= length
    && (sink.countAddress + 4 <= sink.bufferAddress || sink.bufferAddress + CAPACITY <= sink.countAddress)
  }

  function CountIn(m: Bytes, sink: Sink): nat
    requires Layout(|m|, sink)
  {
    var c := sink.countAddress;
    FromU32(m[c], m[c + 1], m[c + 2], m[c + 3])
  }

  /** The queued bytes the game sees: as many as the count word says. */
  function Visible(m: Bytes, sink: Sink): Option<Bytes>
    requires Layout(|m|, sink)
  {
    if CountIn(m, sink) > CAPACITY then None
    else Some(m[sink.bufferAddress..sink.bufferAddress + CountIn(m, sink)])
  }

  /** Only bytes behind the visible queue differ. */
  ghost predicate VisibleUntouched(m: Bytes, m': Bytes, sink: Sink)
    requires Layout(|m|, sink)
  {
    && |m'| == |m|
    && CountIn(m, sink) <= CAPACITY
    && var tail := sink.bufferAddress + CountIn(m, sink);
       forall i :: 0 <= i < |m| && !(tail <= i < sink.bufferAddress + CAPACITY) ==> m'[i] == m[i]
  }

  predicate AllAccepted(commands: seq<Request>) {
    forall i :: 0 <= i < |commands| ==> RequestWire(commands[i]).Some?
  }

  /** The wire commands a list of accepted requests means. */
  function Wires(commands: seq<Request>): (ws: seq<Wire>)
    requires AllAccepted(commands)
    ensures |ws| == |commands|
  {
    seq(|commands|, i requires 0 <= i < |commands| => RequestWire(commands[i]).value)
  }

  function Images(ws: seq<Wire>): (r: seq<Bytes>)
    ensures |r| == |ws|
  {
    seq(|ws|, i requires 0 <= i < |ws| => Print(ws[i]))
  }

  function TotalLength(images: seq<Bytes>): nat {
    if images == [] then 0 else TotalLength(images[..|images| - 1]) + |images[|images| - 1]|
  }

  /** The audit rows of the first n commands: base plus the lengths of the earlier ones. */
  function AuditRows(commands: seq<Request>, images: seq<Bytes>, base: nat, auditOpens: nat -> bool, n: nat)
    : (rows: seq<AuditRow>)
    requires |images| == |commands| && n <= |commands|
  {
    if n == 0 then []
    else
      AuditRows(commands, images, base, auditOpens, n - 1)
      + if auditOpens(n - 1)
        then [AuditRow(n, commands[n - 1], images[n - 1], base + TotalLength(images[..n - 1]))]
        else []
  }

  // ---- what an audit row points at ----

  /** The records stand one behind the other from the base address on. */
  ghost predicate Chained(records: seq<Bytes>, addresses: seq<nat>, base: nat) {
    && |records| == |addresses|
    && (addresses != [] ==> addresses[0] == base)
    && forall i :: 0 < i < |addresses| ==> addresses[i] == addresses[i - 1] + |records[i - 1]|
  }

  /** The record stands in memory at the address. */
  predicate StandsAt(m: Bytes, address: nat, record: Bytes) {
    address + |record| <= |m| && m[address..address + |record|] == record
  }

  /** The row names command number sequence - 1, its record and its address. */
  predicate RowTells(row: AuditRow, commands: seq<Request>, records: seq<Bytes>, addresses: seq<nat>,
                     auditOpens: nat -> bool)
    requires |commands| == |records| == |addresses|
  {
    && 1 <= row.sequence <= |commands|
    && var i := row.sequence - 1;
       auditOpens(i) && row.command == commands[i] && row.bytes == records[i] && row.address == addresses[i]
  }

  /** One row for each of the first n commands whose audit file opens, in order and no others. */
  ghost predicate RowsFor(rows: seq<AuditRow>, commands: seq<Request>, records: seq<Bytes>, addresses: seq<nat>,
                          auditOpens: nat -> bool, n: nat)
    requires |commands| == |records| == |addresses| && n <= |commands|
  {
    && (forall k :: 0 <= k < |rows| ==>
          rows[k].sequence <= n && RowTells(rows[k], commands, records, addresses, auditOpens))
    && (forall j, k :: 0 <= j < k < |rows| ==> rows[j].sequence < rows[k].sequence)
    && (forall i :: 0 <= i < n && auditOpens(i) ==> HasRow(rows, i))
  }

  /** Some row is about command number i. */
  predicate HasRow(rows: seq<AuditRow>, i: nat) {
    exists k :: 0 <= k < |rows| && rows[k].sequence == i + 1
  }

  lemma OneMoreRow(rows: seq<AuditRow>, row: AuditRow, commands: seq<Request>, records: seq<Bytes>, addresses: seq<nat>,
                   auditOpens: nat -> bool, n: nat)
    requires |commands| == |records| == |addresses| && 0 < n <= |commands|
    requires RowsFor(rows, commands, records, addresses, auditOpens, n - 1)
    requires auditOpens(n - 1) && row == AuditRow(n, commands[n - 1], records[n - 1], addresses[n - 1])
    ensures RowsFor(rows + [row], commands, records, addresses, auditOpens, n)
  {
    assert RowTells(row, commands, records, addresses, auditOpens);
    hide HasRow, RowTells;
    var all, m := rows + [row], |rows|;
    forall k | 0 <= k < |all|
      ensures all[k].sequence <= n && RowTells(all[k], commands, records, addresses, auditOpens)
    {
      assert all[k] == if k < m then rows[k] else row;
    }
    forall i | 0 <= i < n && auditOpens(i) ensures HasRow(all, i) {
      if i < n - 1 {
        StillHasRow(rows, row, i);
      } else {
        LastIsRow(rows, row, i);
      }
    }
  }

  lemma NoMoreRow(rows: seq<AuditRow>, commands: seq<Request>, records: seq<Bytes>, addresses: seq<nat>,
                  auditOpens: nat -> bool, n: nat)
    requires |commands| == |records| == |addresses| && 0 < n <= |commands|
    requires RowsFor(rows, commands, records, addresses, auditOpens, n - 1) && !auditOpens(n - 1)
    ensures RowsFor(rows, commands, records, addresses, auditOpens, n)
  {
    hide HasRow, RowTells;
  }

  lemma StillHasRow(rows: seq<AuditRow>, row: AuditRow, i: nat)
    requires HasRow(rows, i)
    ensures HasRow(rows + [row], i)
  {
    var k :| 0 <= k < |rows| && rows[k].sequence == i + 1;
    assert (rows + [row])[k].sequence == i + 1;
  }

  lemma LastIsRow(rows: seq<AuditRow>, row: AuditRow, i: nat)
    requires row.sequence == i + 1
    ensures HasRow(rows + [row], i)
  {
    assert (rows + [row])[|rows|] == row;
  }

  /**
    The audit tells where the commands are: every command's record, as read from the wire
    side, stands in memory, the first at the base address and each next one right behind the
    previous one, and the rows name these records and addresses.
   */
  ghost predicate AuditHolds(m: Bytes, commands: seq<Request>, base: nat, auditOpens: nat -> bool,
                             audit: seq<AuditRow>)
  {
    exists records: seq<Bytes>, addresses: seq<nat> ::
      && Chained(records, addresses, base) && |records| == |commands|
      && (forall i :: 0 <= i < |commands| ==>
            IsRecord(commands[i], records[i]) && StandsAt(m, addresses[i], records[i]))
      && RowsFor(audit, commands, records, addresses, auditOpens, |commands|)
  }

  function Addresses(images: seq<Bytes>, base: nat): (r: seq<nat>)
    ensures |r| == |images|
  {
    seq(|images|, i requires 0 <= i < |images| => base + TotalLength(images[..i]))
  }

  lemma AddressesAreChained(images: seq<Bytes>, base: nat)
    ensures Chained(images, Addresses(images, base), base)
  {
    forall i | 0 < i < |images| ensures Addresses(images, base)[i] == Addresses(images, base)[i - 1] + |images[i - 1]| {
      assert images[..i][..i - 1] == images[..i - 1];
    }
  }

  lemma {:induction false} AuditRowsMean(
    commands: seq<Request>, images: seq<Bytes>, base: nat, auditOpens: nat -> bool, n: nat)
    requires |images| == |commands| && n <= |commands|
    ensures RowsFor(AuditRows(commands, images, base, auditOpens, n), commands, images, Addresses(images, base),
                    auditOpens, n)
    decreases n
  {
    hide TotalLength, RowsFor;
    if n == 0 {
      NoRows(commands, images, Addresses(images, base), auditOpens);
    } else {
      AuditRowsMean(commands, images, base, auditOpens, n - 1);
      var before := AuditRows(commands, images, base, auditOpens, n - 1);
      if auditOpens(n - 1) {
        var address := base + TotalLength(images[..n - 1]);
        OneMoreRow(before, AuditRow(n, commands[n - 1], images[n - 1], address),
                   commands, images, Addresses(images, base), auditOpens, n);
      } else {
        NoMoreRow(before, commands, images, Addresses(images, base), auditOpens, n);
        assert before + [] == before;
      }
    }
  }

  lemma NoRows(commands: seq<Request>, records: seq<Bytes>, addresses: seq<nat>, auditOpens: nat -> bool)
    requires |commands| == |records| == |addresses|
    ensures RowsFor([], commands, records, addresses, auditOpens, 0)
  {
  }

  lemma ImageAt(ws: seq<Wire>, i: nat)
    requires i < |ws|
    ensures Images(ws)[i] == Print(ws[i])
  {
    hide Print;
  }

  lemma {:induction false} PrefixLength(ws: seq<Wire>, i: nat)
    requires i <= |ws|
    ensures |PrintAll(ws[..i])| == TotalLength(Images(ws)[..i])
    decreases i
  {
    if i == 0 {
    } else {
      hide PrintAll, Print, Images, TotalLength;
      PrefixLength(ws, i - 1);
      PrintedLength(ws, i);
      ImageAt(ws, i - 1);
      LengthAppend(Images(ws), i);
    }
  }

  lemma PrintedLength(ws: seq<Wire>, i: nat)
    requires 0 < i <= |ws|
    ensures |PrintAll(ws[..i])| == |PrintAll(ws[..i - 1])| + |Print(ws[i - 1])|
  {
    hide PrintAll, Print;
    assert ws[..i] == ws[..i - 1] + [ws[i - 1]];
    PrintAllAppend(ws[..i - 1], ws[i - 1]);
  }

  lemma LengthAppend(images: seq<Bytes>, i: nat)
    requires 0 < i <= |images|
    ensures TotalLength(images[..i]) == TotalLength(images[..i - 1]) + |images[i - 1]|
  {
    assert images[..i][..i - 1] == images[..i - 1];
  }

  /** In the concatenation every record stands behind the lengths of the earlier ones. */
  lemma RecordInStream(ws: seq<Wire>, i: nat)
    requires i < |ws|
    ensures var at := TotalLength(Images(ws)[..i]); StandsAt(PrintAll(ws), at, Print(ws[i]))
  {
    hide Print, TotalLength, PrintAll, StandsAt, Images;
    PrefixLength(ws, i);
    PrintAllSplits(ws, i);
    StandsBetween(PrintAll(ws[..i]), Print(ws[i]), PrintAll(ws[i + 1..]));
  }

  lemma PrintAllSplits(ws: seq<Wire>, i: nat)
    requires i < |ws|
    ensures PrintAll(ws) == PrintAll(ws[..i]) + (Print(ws[i]) + PrintAll(ws[i + 1..]))
  {
    hide Print, PrintAll;
    PrintAllAround(ws[..i], ws[i], ws[i + 1..]);
    assert ws == ws[..i] + ([ws[i]] + ws[i + 1..]);
  }

  lemma PrintAllAround(before: seq<Wire>, w: Wire, behind: seq<Wire>)
    ensures PrintAll(before + ([w] + behind)) == PrintAll(before) + (Print(w) + PrintAll(behind))
  {
    hide Print, PrintAll;
    PrintAllConcat(before, [w] + behind);
    PrintAllConcat([w], behind);
    OnePrinted(w);
  }

  lemma OnePrinted(w: Wire)
    ensures PrintAll([w]) == Print(w)
  {
    hide Print;
    assert PrintAll([w]) == Print(w) + PrintAll([]);
  }

  lemma StandsBetween(a: Bytes, b: Bytes, c: Bytes)
    ensures StandsAt(a + (b + c), |a|, b)
  {
    assert (a + (b + c))[|a|..|a| + |b|] == b;
  }

  lemma StandsInside(m: Bytes, base: nat, stream: Bytes, at: nat, record: Bytes)
    requires StandsAt(m, base, stream) && StandsAt(stream, at, record)
    ensures StandsAt(m, base + at, record)
  {
    SliceOfSlice(m, base, base + |stream|, at, at + |record|);
  }

  lemma AcceptedAreRecords(commands: seq<Request>, i: nat)
    requires AllAccepted(commands) && i < |commands|
    ensures IsRecord(commands[i], Images(Wires(commands))[i])
  {
    hide RequestWire, IsRecord, Print;
    ImageIsRecord(commands[i]);
  }

  /** Rows written for records that stand in memory tell where they stand. */
  lemma WrittenAuditHolds(m: Bytes, commands: seq<Request>, base: nat, auditOpens: nat -> bool)
    requires AllAccepted(commands) && StandsAt(m, base, PrintAll(Wires(commands)))
    ensures AuditHolds(m, commands, base, auditOpens,
                       AuditRows(commands, Images(Wires(commands)), base, auditOpens, |commands|))
  {
    hide IsRecord, RequestWire, AuditRows, TotalLength, PrintAll, StandsAt, Print, RowsFor, Chained;
    var ws := Wires(commands);
    var images := Images(ws);
    var addresses := Addresses(images, base);
    AddressesAreChained(images, base);
    AuditRowsMean(commands, images, base, auditOpens, |commands|);
    forall i | 0 <= i < |commands|
      ensures IsRecord(commands[i], images[i]) && StandsAt(m, addresses[i], images[i])
    {
      AcceptedAreRecords(commands, i);
      RecordInStream(ws, i);
      StandsInside(m, base, PrintAll(ws), TotalLength(images[..i]), images[i]);
    }
  }

  lemma WiresWellFormed(commands: seq<Request>)
    requires AllAccepted(commands)
    ensures AllWellFormed(Wires(commands))
  {
    forall i | 0 <= i < |commands| ensures WellFormed(Wires(commands)[i]) {
      AcceptedDecodes(commands[i], []);
    }
  }

  lemma PrintAllAppend(ws: seq<Wire>, w: Wire)
    ensures PrintAll(ws + [w]) == PrintAll(ws) + Print(w)
  {
    PrintAllConcat(ws, [w]);
    assert PrintAll([w]) == Print(w) + PrintAll([]);
  }

  lemma AcceptOneMore(commands: seq<Request>, i: nat)
    requires i < |commands| && AllAccepted(commands[..i]) && RequestWire(commands[i]).Some?
    ensures AllAccepted(commands[..i + 1])
    ensures Wires(commands[..i + 1]) == Wires(commands[..i]) + [RequestWire(commands[i]).value]
  {
    hide RequestWire;
  }

  lemma ImagesAppend(ws: seq<Wire>, w: Wire)
    ensures Images(ws + [w]) == Images(ws) + [Print(w)]
  {
  }

  /** The encoding loop: all commands or none. */
  method EncodeAll(commands: seq<Request>) returns (bytes: Bytes, images: seq<Bytes>, ok: bool)
    ensures ok <==> AllAccepted(commands)
    ensures ok ==> bytes == PrintAll(Wires(commands)) && images == Images(Wires(commands))
  {
    hide RequestWire, Print;
    bytes, images := [], [];
    assert Wires(commands[..0]) == [] && Images([]) == [];
    for i := 0 to |commands|
      invariant AllAccepted(commands[..i])
      invariant bytes == PrintAll(Wires(commands[..i])) && images == Images(Wires(commands[..i]))
    {
      hide PrintAll, Wires, Images;
      var encoded := EncodeRequest(commands[i]);
      if encoded.None? {
        return [], [], false;
      }
      ghost var w := RequestWire(commands[i]).value;
      AcceptOneMore(commands, i);
      PrintAllAppend(Wires(commands[..i]), w);
      ImagesAppend(Wires(commands[..i]), w);
      bytes := bytes + encoded.value;
      images := images + [encoded.value];
    }
    assert commands[..|commands|] == commands;
    return bytes, images, true;
  }

  /** The four bytes of a count, as the process memory holds them. */
  lemma CountBytes(m: Bytes, sink: Sink, count: nat)
    requires Layout(|m|, sink) && count <= 2 * CAPACITY
    requires m[sink.countAddress..sink.countAddress + 4] == U32(count)
    ensures CountIn(m, sink) == count
  {
    BytesOfWideField(count);
    var c := sink.countAddress;
    var w := m[c..c + 4];
    assert w[0] == m[c] && w[1] == m[c + 1] && w[2] == m[c + 2] && w[3] == m[c + 3];
  }

  lemma UntouchedKeepsVisible(m: Bytes, m': Bytes, sink: Sink)
    requires Layout(|m|, sink) && VisibleUntouched(m, m', sink)
    ensures CountIn(m', sink) == CountIn(m, sink) && Visible(m', sink) == Visible(m, sink)
  {
    var c := sink.countAddress;
    assert forall i :: c <= i < c + 4 ==> m'[i] == m[i];
    var v := m[sink.bufferAddress..sink.bufferAddress + CountIn(m, sink)];
    assert m'[sink.bufferAddress..sink.bufferAddress + CountIn(m, sink)] == v;
  }

  lemma BehindTheQueue(m: Bytes, m': Bytes, sink: Sink, n: nat)
    requires Layout(|m|, sink) && CountIn(m, sink) + n <= CAPACITY && |m'| == |m|
    requires var at := sink.bufferAddress + CountIn(m, sink);
             forall i :: 0 <= i < |m| && !(at <= i < at + n) ==> m'[i] == m[i]
    ensures VisibleUntouched(m, m', sink)
  {
    hide CountIn;
  }

  lemma OldPartStays(m: Bytes, m': Bytes, sink: Sink)
    requires Layout(|m|, sink) && VisibleUntouched(m, m', sink)
    ensures var b := sink.bufferAddress; m'[b..b + CountIn(m, sink)] == m[b..b + CountIn(m, sink)]
  {
    hide CountIn;
  }

  /** Writing the count leaves the bytes in the buffer as they are. */
  lemma StandsBehind(m: Bytes, m': Bytes, sink: Sink, used: nat, data: Bytes)
    requires Layout(|m|, sink) && used + |data| <= CAPACITY && |m'| == |m|
    requires var at := sink.bufferAddress + used; m[at..at + |data|] == data
    requires forall i :: 0 <= i < |m| && !(sink.countAddress <= i < sink.countAddress + 4) ==> m'[i] == m[i]
    ensures StandsAt(m', sink.bufferAddress + used, data)
  {
    var at := sink.bufferAddress + used;
    assert m'[at..at + |data|] == m[at..at + |data|];
  }

  /** Writing the new count makes the bytes written behind the queue visible, and no others. */
  lemma CommitAppends(m: Bytes, m1: Bytes, m2: Bytes, sink: Sink, data: Bytes)
    requires Layout(|m|, sink) && VisibleUntouched(m, m1, sink)
    requires CountIn(m, sink) + |data| <= CAPACITY
    requires var at := sink.bufferAddress + CountIn(m, sink); m1[at..at + |data|] == data
    requires |m2| == |m1|
    requires forall i :: 0 <= i < |m1| && !(sink.countAddress <= i < sink.countAddress + 4) ==> m2[i] == m1[i]
    requires m2[sink.countAddress..sink.countAddress + 4] == U32(CountIn(m, sink) + |data|)
    ensures Visible(m2, sink) == Some(Visible(m, sink).value + data)
  {
    hide Visible, StandsAt;
    var n, k, b := CountIn(m, sink), |data|, sink.bufferAddress;
    CountBytes(m2, sink, n + k);
    OldPartStays(m, m1, sink);
    StandsBehind(m1, m2, sink, 0, m1[b..b + n + k]);
    hide CountIn, U32, FromU32, VisibleUntouched;
    SliceJoins(m1, b, n, k);
    SliceStands(m, b, n);
    VisibleIs(m, sink, m[b..b + n]);
    VisibleIs(m2, sink, m[b..b + n] + data);
  }

  lemma SliceJoins(m: Bytes, b: nat, n: nat, k: nat)
    requires b + n + k <= |m|
    ensures m[b..b + n + k] == m[b..b + n] + m[b + n..b + n + k]
  {
  }

  lemma SliceStands(m: Bytes, b: nat, n: nat)
    requires b + n <= |m|
    ensures StandsAt(m, b, m[b..b + n])
  {
  }

  lemma VisibleIs(m: Bytes, sink: Sink, queue: Bytes)
    requires Layout(|m|, sink) && CountIn(m, sink) == |queue| <= CAPACITY && StandsAt(m, sink.bufferAddress, queue)
    ensures Visible(m, sink) == Some(queue)
  {
    hide CountIn;
  }

  /** Where in the call a rejection can still have been harmless. */
  predicate BeforeCommit(r: SubmitResult) {
    r.Rejected? && r.stage != CountWriteFailed
  }

  predicate CommitStage(s: Stage) {
    s.BufferWriteFailed? || s.ReadbackFailed? || s.ReadbackMismatch? || s.CountWriteFailed?
  }

  lemma PrintedIsNotEmpty(ws: seq<Wire>)
    requires ws != []
    ensures PrintAll(ws) != []
  {
    assert |Print(ws[0])| > 0;
    hide Print;
  }

  // ---- which stage fails ----

  /** A read delivers n bytes. */
  predicate Delivers(fate: ReadFate, n: nat) {
    fate.success && fate.count >= n
  }

  /** A write reports n bytes written. */
  predicate Reports(fate: WriteFate, n: nat) {
    fate.success && fate.written == n
  }

  /** After a write that stored so many bytes, memory holds all of the data. */
  predicate Arrives(m: Bytes, at: nat, data: Bytes, stored: nat)
    requires at + |data| <= |m|
  {
    stored >= |data| || m[at + stored..at + |data|] == data[stored..]
  }

  /** How writing the data and reading it back fails. */
  function PlaceFailure(m: Bytes, at: nat, data: Bytes, fates: Fates): Option<Stage>
    requires at + |data| <= |m|
  {
    if !Reports(fates.bufferWrite, |data|) then Some(BufferWriteFailed)
    else if !Delivers(fates.readback, |data|) then Some(ReadbackFailed)
    else if !Arrives(m, at, data, fates.bufferWrite.stored) then Some(ReadbackMismatch)
    else None
  }

  /** The first step after the checks that goes wrong. */
  function CommitFailure(m: Bytes, at: nat, data: Bytes, fates: Fates): Option<Stage>
    requires at + |data| <= |m|
  {
    if PlaceFailure(m, at, data, fates).Some? then PlaceFailure(m, at, data, fates)
    else if !Reports(fates.countWrite, 4) then Some(CountWriteFailed)
    else None
  }

  /** Why a submission of these bytes fails, if it does, by what memory holds and each step's fate. */
  function FailureOf(m: Bytes, sink: Sink, data: Bytes, fates: Fates): Option<Stage>
    requires Layout(|m|, sink)
  {
    var used := CountIn(m, sink);
    if !Delivers(fates.countRead, 4) then Some(CountUnreadable)
    else if used > CAPACITY then Some(CountTooLarge)
    else if used + |data| > CAPACITY then Some(NoRoom)
    else CommitFailure(m, sink.bufferAddress + used, data, fates)
  }

  function Verdict(commands: nat, failure: Option<Stage>): SubmitResult {
    match failure
    case None => Submitted(commands)
    case Some(stage) => Rejected(stage)
  }

  /** A write that stored at least that much, or found the rest there, reads back as the data. */
  lemma ReadsBackData(m: Bytes, m1: Bytes, at: nat, data: Bytes, stored: nat)
    requires at + |data| <= |m| == |m1|
    requires forall i :: 0 <= i < |m| ==>
               m1[i] == if at <= i < at + |data| && i < at + stored then data[i - at] else m[i]
    ensures m1[at..at + |data|] == data <==> Arrives(m, at, data, stored)
  {
    var now := m1[at..at + |data|];
    assert forall k :: 0 <= k < |data| ==> now[k] == if k < stored then data[k] else m[at + k];
    if stored < |data| {
      var was := m[at + stored..at + |data|];
      assert forall k :: 0 <= k < |data| - stored ==> was[k] == m[at + stored + k];
      assert forall k :: 0 <= k < |data| - stored ==> data[stored..][k] == data[stored + k];
      if was == data[stored..] {
        assert forall k :: stored <= k < |data| ==> data[k] == data[stored..][k - stored] == was[k - stored];
      }
      if now == data {
        assert forall k :: 0 <= k < |data| - stored ==> was[k] == now[stored + k];
      }
    }
  }

  /** The data is written behind the queue and read back. */
  method Place(mem: ProcessMemory, at: nat, data: Bytes, fates: Fates) returns (failed: Option<Stage>)
    requires data != []
    modifies mem.cells
    ensures failed.Some? ==> CommitStage(failed.value) && failed.value != CountWriteFailed
    ensures at + |data| <= mem.cells.Length ==> failed == PlaceFailure(old(mem.cells[..]), at, data, fates)
    ensures forall i :: 0 <= i < mem.cells.Length && !(at <= i < at + |data|) ==>
              mem.cells[..][i] == old(mem.cells[..])[i]
    ensures failed.None? ==> StandsAt(mem.cells[..], at, data)
  {
    ghost var m := mem.cells[..];
    var success, written := mem.Write(at, data, fates.bufferWrite);
    if !success || written != |data| {
      return Some(BufferWriteFailed);
    }
    ReadsBackData(m, mem.cells[..], at, data, fates.bufferWrite.stored);
    hide Arrives;
    var readback := mem.Read(at, |data|, fates.readback);
    if !readback.success || |readback.bytes| != |data| {
      return Some(ReadbackFailed);
    }
    return if readback.bytes != data then Some(ReadbackMismatch) else None;
  }

  /** The byte count is advanced; nothing checks that the write happened. */
  method AdvanceCount(mem: ProcessMemory, address: nat, count: nat, fate: WriteFate) returns (ok: bool)
    requires count <= CAPACITY
    modifies mem.cells
    ensures address + 4 <= mem.cells.Length ==> ok == Reports(fate, 4)
    ensures forall i :: 0 <= i < mem.cells.Length && !(address <= i < address + 4) ==>
              mem.cells[..][i] == old(mem.cells[..])[i]
    ensures ok && Honest(fate, 4) ==>
              address + 4 <= mem.cells.Length && mem.cells[address..address + 4] == U32(count)
  {
    hide U32;
    var countBytes := CountImage(count);
    var success, written := mem.Write(address, countBytes, fate);
    return success && written == 4;
  }

  /** From the buffer write to the advance of the count. */
  method Commit(mem: ProcessMemory, sink: Sink, used: nat, bytes: Bytes, fates: Fates)
    returns (failed: Option<Stage>)
    requires used + |bytes| <= CAPACITY && bytes != []
    modifies mem.cells
    ensures failed.Some? ==> CommitStage(failed.value)
    ensures Layout(mem.cells.Length, sink) ==>
              failed == CommitFailure(old(mem.cells[..]), sink.bufferAddress + used, bytes, fates)
    ensures Layout(mem.cells.Length, sink) && used == CountIn(old(mem.cells[..]), sink) ==>
              && (failed.Some? && failed.value != CountWriteFailed ==>
                    Visible(mem.cells[..], sink) == Visible(old(mem.cells[..]), sink))
              && (failed.None? && Honest(fates.countWrite, 4) ==>
                    Visible(mem.cells[..], sink) == Some(Visible(old(mem.cells[..]), sink).value + bytes))
              && (failed.None? ==> StandsAt(mem.cells[..], sink.bufferAddress + used, bytes))
  {
    hide FromU32, U32, VisibleUntouched, Visible, CountIn, PlaceFailure, Reports;
    ghost var m := mem.cells[..];
    ghost var laid := Layout(mem.cells.Length, sink) && used == CountIn(m, sink);
    failed := Place(mem, sink.bufferAddress + used, bytes, fates);
    ghost var m1 := mem.cells[..];
    if laid {
      BehindTheQueue(m, m1, sink, |bytes|);
      UntouchedKeepsVisible(m, m1, sink);
    }
    if failed.Some? {
      return;
    }
    var advanced := AdvanceCount(mem, sink.countAddress, used + |bytes|, fates.countWrite);
    if !advanced {
      return Some(CountWriteFailed);
    }
    if laid {
      StandsBehind(m1, mem.cells[..], sink, used, bytes);
    }
    if laid && Honest(fates.countWrite, 4) {
      CommitAppends(m, m1, mem.cells[..], sink, bytes);
    }
    return None;
  }

  lemma VisibleWithin(m: Bytes, sink: Sink)
    requires Layout(|m|, sink) && CountIn(m, sink) <= CAPACITY
    ensures Visible(m, sink).Some? && |Visible(m, sink).value| == CountIn(m, sink)
  {
  }

  /**
    What a submission does to the queue the game sees and to the audit: a failure before the
    count is written leaves the queue as it was; success appends the commands' bytes, which
    fit, and the audit tells where each command's record stands in memory.
   */
  ghost predicate Effect(before: Bytes, after: Bytes, sink: Sink, commands: seq<Request>, fates: Fates,
                         auditOpens: nat -> bool, result: SubmitResult, audit: seq<AuditRow>)
    requires Layout(|before|, sink) && |after| == |before|
  {
    && (commands != [] && AllAccepted(commands) ==>
          result == Verdict(|commands|, FailureOf(before, sink, PrintAll(Wires(commands)), fates)))
    && (BeforeCommit(result) ==> Visible(after, sink) == Visible(before, sink))
    && (result.Submitted? && commands != [] ==>
          && AllAccepted(commands)
          && Visible(before, sink).Some?
          && |Visible(before, sink).value + PrintAll(Wires(commands))| <= CAPACITY
          && (Honest(fates.countWrite, 4) ==>
                Visible(after, sink) == Some(Visible(before, sink).value + PrintAll(Wires(commands))))
          && audit == AuditRows(commands, Images(Wires(commands)),
                                sink.bufferAddress + CountIn(before, sink), auditOpens, |commands|)
          && AuditHolds(after, commands, sink.bufferAddress + CountIn(before, sink), auditOpens, audit))
  }

  /**
    submitDirectRuntimeCommands.  Only the count write is trusted to have happened when it
    says so; the bytes themselves are checked by reading them back.
   */
  method SubmitDirect(mem: ProcessMemory, sink: Sink, commands: seq<Request>, fates: Fates, auditOpens: nat -> bool)
    returns (result: SubmitResult, audit: seq<AuditRow>)
    modifies mem.cells
    ensures commands == [] ==> result == Submitted(0) && audit == [] && mem.cells[..] == old(mem.cells[..])
    ensures result == Rejected(NotEncodable) <==> !AllAccepted(commands)
    ensures result.Rejected? ==> audit == []
    ensures result.Submitted? ==> result.commands == |commands|
    ensures Layout(mem.cells.Length, sink) ==>
              Effect(old(mem.cells[..]), mem.cells[..], sink, commands, fates, auditOpens, result, audit)
  {
    hide RequestWire, PrintAll, Wires, Images, AuditRows, Visible, CountIn, AuditHolds, StandsAt;
    audit := [];
    if |commands| == 0 {
      return Submitted(0), [];
    }
    var bytes, images, ok := EncodeAll(commands);
    if !ok {
      return Rejected(NotEncodable), [];
    }
    PrintedIsNotEmpty(Wires(commands));
    var used;
    ok, used := ReadCount(mem, sink, fates.countRead);
    if !ok {
      return Rejected(CountUnreadable), [];
    }
    if used > CAPACITY {
      return Rejected(CountTooLarge), [];
    }
    if |bytes| > CAPACITY - used {
      return Rejected(NoRoom), [];
    }
    var failed := Commit(mem, sink, used, bytes, fates);
    if failed.Some? {
      return Rejected(failed.value), [];
    }
    audit := WriteAudit(commands, images, sink.bufferAddress + used, auditOpens);
    if Layout(mem.cells.Length, sink) {
      VisibleWithin(old(mem.cells[..]), sink);
      WrittenAuditHolds(mem.cells[..], commands, sink.bufferAddress + used, auditOpens);
    }
    return Submitted(|commands|), audit;
  }

  method ReadCount(mem: ProcessMemory, sink: Sink, fate: ReadFate) returns (ok: bool, used: nat)
    ensures Layout(mem.cells.Length, sink) ==> ok == Delivers(fate, 4)
    ensures ok && Layout(mem.cells.Length, sink) ==> used == CountIn(mem.cells[..], sink)
  {
    var r := mem.Read(sink.countAddress, 4, fate);
    if !r.success || |r.bytes| != 4 {
      return false, 0;
    }
    return true, FromU32(r.bytes[0], r.bytes[1], r.bytes[2], r.bytes[3]);
  }

  method CountImage(count: nat) returns (b: Bytes)
    requires count <= CAPACITY
    ensures b == U32(count) && |b| == 4
  {
    var v := new ByteVector();
    v.AppendU32LE(count);
    return v.bytes;
  }

  method WriteAudit(commands: seq<Request>, images: seq<Bytes>, base: nat, auditOpens: nat -> bool)
    returns (rows: seq<AuditRow>)
    requires |images| == |commands|
    ensures rows == AuditRows(commands, images, base, auditOpens, |commands|)
    ensures exists addresses :: Chained(images, addresses, base)
                                && RowsFor(rows, commands, images, addresses, auditOpens, |commands|)
  {
    hide Chained, RowsFor;
    rows := [];
    var byteOffset := 0;
    for i := 0 to |commands|
      invariant byteOffset == TotalLength(images[..i])
      invariant rows == AuditRows(commands, images, base, auditOpens, i)
    {
      if auditOpens(i) {
        rows := rows + [AuditRow(i + 1, commands[i], images[i], base + byteOffset)];
      }
      byteOffset := byteOffset + |images[i]|;
      assert images[..i + 1][..i] == images[..i];
    }
    AuditRowsMean(commands, images, base, auditOpens, |commands|);
    AddressesAreChained(images, base);
  }

  // ---- refinement ----

  lemma {:induction false} DecodeAllConcat(a: Bytes, ws: seq<Wire>)
    requires DecodeAll(a).Some? && AllWellFormed(ws)
    ensures DecodeAll(a + PrintAll(ws)) == Some(DecodeAll(a).value + ws)
  {
    StreamIsCanonical(a);
    var all := DecodeAll(a).value + ws;
    PrintAllConcat(DecodeAll(a).value, ws);
    assert AllWellFormed(all);
    StreamRoundTrip(all);
  }

  /**
    The commit refines an append on a queue of commands: if the game could decode the
    queue before, after a committed submission it decodes the same commands followed by
    the submitted ones, in order.
   */
  lemma CommitRefinesQueue(before: Bytes, after: Bytes, commands: seq<Request>)
    requires AllAccepted(commands) && after == before + PrintAll(Wires(commands))
    requires DecodeAll(before).Some?
    ensures DecodeAll(after) == Some(DecodeAll(before).value + Wires(commands))
  {
    WiresWellFormed(commands);
    DecodeAllConcat(before, Wires(commands));
  }

  lemma WiresMean(commands: seq<Request>)
    requires AllAccepted(commands)
    ensures forall i :: 0 <= i < |commands| ==> Means(commands[i], Wires(commands)[i])
  {
    hide RequestWire, Means;
    forall i | 0 <= i < |commands| ensures Means(commands[i], Wires(commands)[i]) {
      EncodingIsExact(commands[i], Wires(commands)[i]);
    }
  }

  /**
    What a successful submission means for the game: if it could decode its queue before, it
    now decodes the same commands followed by wire commands that ask for the submitted ones,
    in order, and the audit tells where in memory each of them stands.
   */
  lemma EffectReachesTheGame(before: Bytes, after: Bytes, sink: Sink, commands: seq<Request>, fates: Fates,
                             auditOpens: nat -> bool, result: SubmitResult, audit: seq<AuditRow>)
    requires Layout(|before|, sink) && |after| == |before| && Honest(fates.countWrite, 4)
    requires Effect(before, after, sink, commands, fates, auditOpens, result, audit)
    requires result.Submitted? && commands != []
    ensures AllAccepted(commands) && Visible(before, sink).Some? && Visible(after, sink).Some?
    ensures var was, now := Visible(before, sink).value, Visible(after, sink).value;
            DecodeAll(was).Some? ==> DecodeAll(now) == Some(DecodeAll(was).value + Wires(commands))
    ensures forall i :: 0 <= i < |commands| ==> Means(commands[i], Wires(commands)[i])
    ensures AuditHolds(after, commands, sink.bufferAddress + CountIn(before, sink), auditOpens, audit)
  {
    WiresMean(commands);
    hide Means, DecodeAll, PrintAll, Wires, Images, AuditRows, AuditHolds, Visible, CountIn, AllAccepted;
    var was, now := Visible(before, sink).value, Visible(after, sink).value;
    if DecodeAll(was).Some? {
      CommitRefinesQueue(was, now, commands);
    }
  }

  /** Nothing refuses a submission of encodable commands that fit when every step does its work. */
  lemma GoodStepsSucceed(before: Bytes, after: Bytes, sink: Sink, commands: seq<Request>, fates: Fates,
                         auditOpens: nat -> bool, result: SubmitResult, audit: seq<AuditRow>)
    requires Layout(|before|, sink) && |after| == |before|
    requires Effect(before, after, sink, commands, fates, auditOpens, result, audit)
    requires commands != [] && AllAccepted(commands) && Visible(before, sink).Some?
    requires |Visible(before, sink).value + PrintAll(Wires(commands))| <= 512
    requires var n := |PrintAll(Wires(commands))|;
             && fates.countRead.success && fates.countRead.count >= 4
             && fates.bufferWrite.success && fates.bufferWrite.written == n && fates.bufferWrite.stored >= n
             && fates.readback.success && fates.readback.count >= n
             && fates.countWrite.success && fates.countWrite.written == 4
    ensures result == Submitted(|commands|)
  {
    hide PrintAll, Wires, AllAccepted, AuditHolds, AuditRows, CountIn;
    VisibleHasCount(before, sink);
  }

  lemma VisibleHasCount(m: Bytes, sink: Sink)
    requires Layout(|m|, sink) && Visible(m, sink).Some?
    ensures |Visible(m, sink).value| == CountIn(m, sink) <= CAPACITY
  {
    hide CountIn;
  }
}
