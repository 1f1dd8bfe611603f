/**
  An admitted ready file whose order matters.  It names two executors, which no duplicate
  check covers; the attach validator sees the first one only.
 */
module BridgeOrderExample {
  import opened Common
  import opened Evidence
  import opened BridgeProofs
  import opened BridgeLaws
  import opened BridgeMonotone
  import opened BridgeOrder

  // ---- files as entries ----

  datatype Entry = Entry(key: string, value: string)

  function LineOf(e: Entry): string {
    e.key + "=" + e.value
  }

  function LinesOf(es: seq<Entry>): (lines: seq<string>)
    ensures |lines| == |es|
  {
    seq(|es|, i requires 0 <= i < |es| => LineOf(es[i]))
  }

  /** No key contains the separator. */
  predicate PlainKeys(es: seq<Entry>) {
    forall i :: 0 <= i < |es| ==> '=' !in es[i].key
  }

  function CountEntries(es: seq<Entry>, key: string): nat {
    if es == [] then 0 else (if es[0].key == key then 1 else 0) + CountEntries(es[1..], key)
  }

  function FirstEntry(es: seq<Entry>, key: string): string {
    if es == [] then "" else if es[0].key == key then es[0].value else FirstEntry(es[1..], key)
  }

  lemma EntryGives(e: Entry, key: string)
    requires '=' !in e.key && '=' !in key
    ensures Gives(LineOf(e), key) <==> e.key == key
    ensures HasKey(LineOf(e)) && KeyOf(LineOf(e)) == e.key && ValueOf(LineOf(e)) == e.value
  {
    var line := LineOf(e);
    assert Gives(line, e.key);
    KeyOfGiven(line, e.key);
    assert line[|e.key| + 1..] == e.value;
    if Gives(line, key) {
      KeyOfGiven(line, key);
    }
  }

  lemma {:induction false} EntriesCount(es: seq<Entry>, key: string)
    requires PlainKeys(es) && '=' !in key
    ensures KeyCount(LinesOf(es), key) == CountEntries(es, key)
    ensures FirstValue(LinesOf(es), key) == FirstEntry(es, key)
    decreases |es|
  {
    hide LineOf;
    if es == [] {
    } else {
      EntryGives(es[0], key);
      EntryValue(es[0]);
      EntriesCount(es[1..], key);
      assert LinesOf(es)[1..] == LinesOf(es[1..]);
    }
  }

  lemma EntryValue(e: Entry)
    ensures |LineOf(e)| > |e.key| && LineOf(e)[|e.key| + 1..] == e.value
  {
  }

  lemma EntriesUnique(es: seq<Entry>)
    requires PlainKeys(es)
    requires forall a, b :: 0 <= a < b < |es| && es[a].key == es[b].key ==> !Sensitive(es[a].key)
    ensures UniqueEvidenceKeys(LinesOf(es))
  {
    hide Sensitive, LineOf;
    forall a, b | 0 <= a < b < |es| ensures !Clash(LinesOf(es)[a], LinesOf(es)[b]) {
      EntryGives(es[a], es[a].key);
      EntryGives(es[b], es[b].key);
    }
  }

  // ---- the file ----

  const PRODUCT := "starcraft-remastered"
  const RESIDENT := "starcraft-api-resident-adapter"
  const LOCAL := "starcraft-api-local-runtime"
  const TRANSPORT := "shared-memory-client-transport"
  const TRANSPORT_ROW := "transport" + "|" + ATTACH

  function Site(): Environment {
    Environment(true, 7, "7", PRODUCT, "", "", (a: string, b: string) => a == b, true, true)
  }

  function Entries(first: string, second: string): (es: seq<Entry>)
    ensures |es| == 8
  {
    [Entry("executor", first), Entry("executor", second),
     Entry("protocol", PROTOCOL), Entry("product", PRODUCT),
     Entry("mode", VALIDATED_MODE), Entry("process_id", "7"),
     Entry("proof.attach", "passed"), Entry(BINDING_PREFIX + TRANSPORT, TRANSPORT_ROW)]
  }

  function ReadyFile(first: string, second: string): seq<string> {
    LinesOf(Entries(first, second))
  }

  /** The attach validator, reduced to the key that matters here. */
  function AttachVerdict(file: seq<string>, line: string): bool {
    line == ATTACH && FirstValue(file, "executor") == RESIDENT
  }

  function Validators(parseSize: string -> Option<nat>): Library {
    Library(AttachVerdict, parseSize)
  }

  lemma BindingKeyIsPlain()
    ensures '=' !in BINDING_PREFIX + TRANSPORT
  {
    assert '=' !in BINDING_PREFIX;
    assert '=' !in TRANSPORT;
  }

  lemma FilePlain(first: string, second: string)
    ensures PlainKeys(Entries(first, second))
  {
    BindingKeyIsPlain();
    assert '=' !in "proof.attach";
    assert '=' !in "process_id";
    assert '=' !in "executor";
    assert '=' !in "protocol";
  }

  lemma {:induction false} AtMostOnce(es: seq<Entry>, key: string)
    requires forall a, b :: 0 <= a < b < |es| ==> !(es[a].key == key && es[b].key == key)
    ensures CountEntries(es, key) <= 1
    ensures (forall a :: 0 <= a < |es| ==> es[a].key != key) ==> CountEntries(es, key) == 0
    decreases |es|
  {
    if es == [] {
    } else {
      AtMostOnce(es[1..], key);
    }
  }

  lemma {:induction false} FirstEntryIs(es: seq<Entry>, key: string, i: nat)
    requires i < |es| && es[i].key == key
    requires forall k :: 0 <= k < i ==> es[k].key != key
    ensures FirstEntry(es, key) == es[i].value
    decreases i
  {
    if i == 0 {
    } else {
      FirstEntryIs(es[1..], key, i - 1);
    }
  }

  /** Only the executor is named twice. */
  lemma KeysApart(first: string, second: string)
    ensures var es := Entries(first, second);
            forall a, b :: 0 <= a < b < |es| && es[a].key == es[b].key ==> es[a].key == "executor"
  {
  }

  lemma FileCounts(first: string, second: string, key: string)
    requires key != "executor"
    ensures CountEntries(Entries(first, second), key) <= 1
  {
    hide CountEntries, Entries;
    KeysApart(first, second);
    AtMostOnce(Entries(first, second), key);
  }

  lemma FileValues(first: string, second: string)
    ensures var es := Entries(first, second);
            && FirstEntry(es, "executor") == first
            && FirstEntry(es, "mode") == VALIDATED_MODE
            && FirstEntry(es, "process_id") == "7"
  {
    hide FirstEntry;
    var es := Entries(first, second);
    FirstEntryIs(es, "executor", 0);
    FirstEntryIs(es, "mode", 4);
    FirstEntryIs(es, "process_id", 5);
  }

  lemma ExecutorIsUnguarded()
    ensures !Sensitive("executor") && "executor" !in IDENTITY_KEYS && !Guarded("executor")
  {
  }

  // ---- the file is admitted ----

  lemma IdentityKeysArePlain(i: nat)
    requires i < |IDENTITY_KEYS|
    ensures '=' !in IDENTITY_KEYS[i] && IDENTITY_KEYS[i] != "executor"
  {
  }

  lemma FileIsUnique(first: string, second: string)
    ensures UniqueIdentityKeys(ReadyFile(first, second)) && UniqueEvidenceKeys(ReadyFile(first, second))
  {
    hide Entries, LinesOf, CountEntries, KeyCount, Sensitive;
    var es := Entries(first, second);
    FilePlain(first, second);
    KeysApart(first, second);
    ExecutorIsUnguarded();
    EntriesUnique(es);
    forall i | 0 <= i < |IDENTITY_KEYS| ensures KeyCount(LinesOf(es), IDENTITY_KEYS[i]) <= 1 {
      IdentityKeysArePlain(i);
      EntriesCount(es, IDENTITY_KEYS[i]);
      FileCounts(first, second, IDENTITY_KEYS[i]);
    }
  }

  lemma EntryIsLine(es: seq<Entry>, i: nat, line: string)
    requires i < |es| && line == LineOf(es[i])
    ensures line in LinesOf(es) && LinesOf(es)[i] == line
  {
    assert LinesOf(es)[i] == line;
  }

  lemma AttachLine()
    ensures LineOf(Entry("proof.attach", "passed")) == ATTACH
  {
  }

  lemma ProtocolLine()
    ensures LineOf(Entry("protocol", PROTOCOL)) == PROTOCOL_LINE
  {
    assert "protocol=" == "protocol" + "=";
  }

  lemma FileLines(first: string, second: string)
    ensures PROTOCOL_LINE in ReadyFile(first, second)
    ensures "product=" + PRODUCT in ReadyFile(first, second)
    ensures ATTACH in ReadyFile(first, second)
    ensures |ReadyFile(first, second)| == 8
    ensures ReadyFile(first, second)[7] == LineOf(Entry(BINDING_PREFIX + TRANSPORT, TRANSPORT_ROW))
  {
    hide LinesOf, LineOf;
    var es := Entries(first, second);
    AttachLine();
    ProtocolLine();
    ProductLine();
    EntryIsLine(es, 2, PROTOCOL_LINE);
    EntryIsLine(es, 3, "product=" + PRODUCT);
    EntryIsLine(es, 6, ATTACH);
    EntryIsLine(es, 7, LineOf(Entry(BINDING_PREFIX + TRANSPORT, TRANSPORT_ROW)));
  }

  lemma ProductLine()
    ensures LineOf(Entry("product", PRODUCT)) == "product=" + PRODUCT
  {
    assert "product=" == "product" + "=";
  }

  lemma FileFirstValues(first: string, second: string)
    ensures var file := ReadyFile(first, second);
            && FirstValue(file, "executor") == first
            && FirstValue(file, "mode") == VALIDATED_MODE
            && FirstValue(file, "process_id") == "7"
  {
    hide Entries, LinesOf, FirstValue, FirstEntry, CountEntries, KeyCount, PlainKeys;
    var es := Entries(first, second);
    FilePlain(first, second);
    FileValues(first, second);
    EntriesCount(es, "executor");
    EntriesCount(es, "mode");
    EntriesCount(es, "process_id");
  }

  lemma FileIsAdmitted(first: string, second: string)
    ensures Admitted(Site(), ReadyFile(first, second))
  {
    hide ReadyFile, FirstValue, UniqueIdentityKeys, UniqueEvidenceKeys;
    FileIsUnique(first, second);
    FileLines(first, second);
    FileFirstValues(first, second);
  }

  // ---- the row ----

  lemma JoinedSplits(x: string, y: string)
    requires '|' !in x && '|' !in y && y != ""
    ensures SplitPipe(x + "|" + y) == [x, y]
  {
    var row := x + "|" + y;
    IndexIs(row, '|', |x|);
    IndexIs(y, '|', |y|);
    hide IndexOf;
    assert row[..|x|] == x && row[|x| + 1..] == y;
    assert SplitPipe(y) == [y];
  }

  lemma AttachHas()
    ensures '|' !in ATTACH && ':' !in ATTACH && "proof." <= ATTACH && ATTACH != ""
  {
  }

  lemma TransportHas()
    ensures '|' !in "transport" && ParseKind("transport") == Some(Transport)
  {
  }

  lemma WholeIsProofLine(e: string)
    requires "proof." <= e && ':' !in e
    ensures ProofLine(e) == e
  {
    IndexIs(e, ':', |e|);
    hide IndexOf;
    assert e[..|e|] == e;
  }

  lemma TransportAllows(e: string)
    requires "proof." <= e && ProofLine(e) == ATTACH
    ensures AllowedForBinding(TRANSPORT, Transport, e)
  {
    hide ProofLine, HasBannedPrefix, IsNonProduction;
    ProofsAreProduction(e);
  }

  lemma TransportRow(file: seq<string>, lib: Library)
    requires ATTACH in file && lib.validated(file, ATTACH)
    ensures BindingRow(file, lib, TRANSPORT, TRANSPORT_ROW) == Some(BindingUpdate(TRANSPORT, Transport, ATTACH))
  {
    hide AllowedForBinding, ProofLine, SplitPipe, ParseKind;
    AttachHas();
    TransportHas();
    JoinedSplits("transport", ATTACH);
    WholeIsProofLine(ATTACH);
    TransportAllows(ATTACH);
  }

  lemma EntryUpdate(file: seq<string>, lib: Library, name: string, value: string)
    requires '=' !in BINDING_PREFIX + name
    ensures LineUpdate(file, lib, LineOf(Entry(BINDING_PREFIX + name, value))) == BindingRow(file, lib, name, value)
  {
    hide LineOf, HasKey, KeyOf, ValueOf, BindingRow, StructureRow, FieldRow;
    EntryGives(Entry(BINDING_PREFIX + name, value), BINDING_PREFIX + name);
    assert (BINDING_PREFIX + name)[|BINDING_PREFIX|..] == name;
  }

  lemma ResidentFileResolves(parseSize: string -> Option<nat>)
    ensures var file := ReadyFile(RESIDENT, LOCAL);
            && |file| == 8
            && LineUpdate(file, Validators(parseSize), file[7]) == Some(BindingUpdate(TRANSPORT, Transport, ATTACH))
  {
    hide ReadyFile, FirstValue, LineOf, LineUpdate, BindingRow;
    var file, lib := ReadyFile(RESIDENT, LOCAL), Validators(parseSize);
    FileLines(RESIDENT, LOCAL);
    FileFirstValues(RESIDENT, LOCAL);
    TransportRow(file, lib);
    BindingKeyIsPlain();
    EntryUpdate(file, lib, TRANSPORT, TRANSPORT_ROW);
  }

  lemma SwappedFiles(first: string, second: string)
    ensures multiset(ReadyFile(first, second)) == multiset(ReadyFile(second, first))
  {
    var s, t := ReadyFile(first, second), ReadyFile(second, first);
    assert s == [s[0]] + [s[1]] + s[2..];
    assert t == [s[1]] + [s[0]] + s[2..];
  }

  /**
    Two orders of the lines of one ready file, both admitted, the same validator, and an open
    transport binding: one order resolves it and the other leaves the contract as it is.
   */
  lemma OrderMatters(parseSize: string -> Option<nat>)
    ensures var s, t := ReadyFile(RESIDENT, LOCAL), ReadyFile(LOCAL, RESIDENT);
            var lib := Validators(parseSize);
            var c := Blank(BindingUpdate(TRANSPORT, Transport, ATTACH));
            && multiset(s) == multiset(t)
            && Admitted(Site(), s) && Admitted(Site(), t)
            && Apply(Site(), s, lib, c) != c
            && Apply(Site(), t, lib, c) == c
  {
    hide ReadyFile, FirstValue, LineUpdate, Acceptable, Blank, PutAll, PairwiseApart;
    var s, t, lib := ReadyFile(RESIDENT, LOCAL), ReadyFile(LOCAL, RESIDENT), Validators(parseSize);
    SwappedFiles(RESIDENT, LOCAL);
    FileIsAdmitted(RESIDENT, LOCAL);
    FileIsAdmitted(LOCAL, RESIDENT);
    ResidentFileResolves(parseSize);
    FileLines(RESIDENT, LOCAL);
    var us := Updates(s, lib, s);
    FileUpdatesApart(s, lib, s);
    forall k | 0 <= k < |us| && us[k].Some? ensures Acceptable(us[k].value) {
      RowsAreAcceptable(s, lib, s[k]);
    }
    UpdatesFill(us, 7);
    FileFirstValues(LOCAL, RESIDENT);
    RefusedKeeps(Site(), t, lib, Blank(BindingUpdate(TRANSPORT, Transport, ATTACH)));
  }
}
