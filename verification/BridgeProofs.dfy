/**
  A ready file is a sequence of key=value lines.  Lines whose key starts with
  contract.binding., contract.structure. or contract.field. resolve entries of a contract,
  provided their evidence is accepted and its proof line is in the file and validated.
  The validators and the number parser of the library are parameters.
 */
module BridgeProofs {
  import opened Common
  import opened Evidence
  import opened Contract

  // ---- lines ----

  predicate HasKey(line: string) {
    IndexOf(line, '=') < |line|
  }

  function KeyOf(line: string): string {
    line[..IndexOf(line, '=')]
  }

  function ValueOf(line: string): string
    requires HasKey(line)
  {
    line[IndexOf(line, '=') + 1..]
  }

  /** readReadyValue: the value of the first line with this key, or nothing. */
  function FirstValue(lines: seq<string>, key: string): string {
    if lines == [] then ""
    else if key + "=" <= lines[0] then lines[0][|key| + 1..]
    else FirstValue(lines[1..], key)
  }

  function KeyCount(lines: seq<string>, key: string): nat {
    if lines == [] then 0
    else (if key + "=" <= lines[0] then 1 else 0) + KeyCount(lines[1..], key)
  }

  /** Reading parts with getline: a trailing separator adds no empty part. */
  function SplitPipe(value: string): seq<string> {
    if value == "" then []
    else
      var i := IndexOf(value, '|');
      if i == |value| then [value] else [value[..i]] + SplitPipe(value[i + 1..])
  }

  function LastIndexOf(s: string, c: char): (i: int)
    ensures -1 <= i < |s|
    ensures i >= 0 ==> s[i] == c
    ensures forall k :: i < k < |s| ==> s[k] != c
  {
    if s == "" then -1
    else if s[|s| - 1] == c then |s| - 1
    else LastIndexOf(s[..|s| - 1], c)
  }

  const IDENTITY_KEYS: seq<string> := ["protocol", "product", "version", "mode", "process_id", "executable"]

  const SENSITIVE_KEYS: set<string> := {
    "proof.attach", "proof.read_game_state", "proof.active_match_state", "proof.read_units",
    "proof.read_player_data", "proof.read_map_data", "proof.read_bullet_data",
    "proof.read_region_data", "proof.issue_commands", "proof.draw_overlays",
    "proof.dispatch_events", "proof.replay_analysis", "proof.multiplayer_sync",
    "proof.battle_net_policy", "proof.load_ai_modules" }

  const BINDING_PREFIX := "contract.binding."
  const STRUCTURE_PREFIX := "contract.structure."
  const FIELD_PREFIX := "contract.field."

  predicate OtherSensitivePrefix(key: string) {
    || "proof.attach." <= key || "proof.read_game_state." <= key || "proof.active_match_state." <= key
    || "proof.read_units." <= key || "proof.read_player_data." <= key || "proof.read_map_data." <= key
    || "proof.read_bullet_data." <= key || "proof.read_region_data." <= key
    || "proof.issue_commands." <= key || "proof.draw_overlays." <= key
    || "proof.dispatch_events." <= key || "proof.replay_analysis." <= key
    || "proof.multiplayer_sync." <= key || "proof.battle_net_policy." <= key
    || "proof.load_ai_modules." <= key || "command_surface.live_unit_command." <= key
    || "command_surface.live_game_action." <= key || "resident.proof." <= key
    || "resident.queue." <= key
  }

  predicate Sensitive(key: string) {
    || key in SENSITIVE_KEYS
    || BINDING_PREFIX <= key || STRUCTURE_PREFIX <= key || FIELD_PREFIX <= key
    || OtherSensitivePrefix(key)
  }

  predicate SensitiveLine(line: string) {
    HasKey(line) && Sensitive(KeyOf(line))
  }

  /** bridgeReadyFileHasDuplicateEvidenceKeys: the loop over the lines with its seen set. */
  method FindDuplicateEvidenceKey(lines: seq<string>) returns (found: bool, key: string)
    ensures found <==> !UniqueEvidenceKeys(lines)
  {
    var seen: set<string> := {};
    for i := 0 to |lines|
      invariant forall k :: k in seen <==> exists a :: 0 <= a < i && SensitiveLine(lines[a]) && KeyOf(lines[a]) == k
      invariant forall a, b :: 0 <= a < b < i ==> !Clash(lines[a], lines[b])
    {
      hide Sensitive, HasKey, KeyOf;
      var line := lines[i];
      if SensitiveLine(line) {
        if KeyOf(line) in seen {
          var a :| 0 <= a < i && SensitiveLine(lines[a]) && KeyOf(lines[a]) == KeyOf(line);
          assert Clash(lines[a], lines[i]);
          return true, KeyOf(line);
        }
        seen := seen + {KeyOf(line)};
      }
    }
    return false, "";
  }

  /** Two lines that must not stand in one file. */
  predicate Clash(x: string, y: string) {
    SensitiveLine(x) && SensitiveLine(y) && KeyOf(x) == KeyOf(y)
  }

  ghost predicate UniqueEvidenceKeys(lines: seq<string>) {
    forall a, b :: 0 <= a < b < |lines| ==> !Clash(lines[a], lines[b])
  }

  predicate UniqueIdentityKeys(lines: seq<string>) {
    forall i :: 0 <= i < |IDENTITY_KEYS| ==> KeyCount(lines, IDENTITY_KEYS[i]) <= 1
  }

  // ---- updates ----

  datatype Library = Library(
    validated: (seq<string>, string) -> bool,   // in this file, the proof line's metadata is validated
    parseSize: string -> Option<nat>)           // the whole text is an unsigned number

  datatype Update =
    | BindingUpdate(name: string, kind: BindingKind, evidence: string)
    | StructureUpdate(name: string, size: nat, evidence: string)
    | FieldUpdate(structure: string, field: string, offset: nat, size: nat, evidence: string)

  predicate ProofHolds(lines: seq<string>, lib: Library, evidence: string) {
    var proof := ProofLine(evidence);
    proof != "" && proof in lines && lib.validated(lines, proof)
  }

  function ParseKind(text: string): Option<BindingKind> {
    if text == "data-address" then Some(DataAddress)
    else if text == "function-address" then Some(FunctionAddress)
    else if text == "imported-function" then Some(ImportedFunction)
    else if text == "structure-layout" then Some(BindingKind.StructureLayout)
    else if text == "hook-point" then Some(HookPoint)
    else if text == "command-queue" then Some(CommandQueue)
    else if text == "transport" then Some(Transport)
    else None
  }

  function BindingRow(lines: seq<string>, lib: Library, name: string, value: string): Option<Update> {
    var parts := SplitPipe(value);
    if |parts| != 2 || parts[1] == "" then None
    else
      match ParseKind(parts[0])
      case None => None
      case Some(kind) =>
        if AllowedForBinding(name, kind, parts[1]) && ProofHolds(lines, lib, parts[1])
        then Some(BindingUpdate(name, kind, parts[1])) else None
  }

  function StructureRow(lines: seq<string>, lib: Library, name: string, value: string): Option<Update> {
    var parts := SplitPipe(value);
    if |parts| != 2 || parts[1] == "" then None
    else if !AllowedForStructure(name, parts[1]) || !ProofHolds(lines, lib, parts[1]) then None
    else
      match lib.parseSize(parts[0])
      case None => None
      case Some(size) => if size == 0 then None else Some(StructureUpdate(name, size, parts[1]))
  }

  function FieldRow(lines: seq<string>, lib: Library, name: string, value: string): Option<Update> {
    var dot := LastIndexOf(name, '.');
    if dot <= 0 || dot + 1 >= |name| then None
    else
      var structure, field := name[..dot], name[dot + 1..];
      var parts := SplitPipe(value);
      if |parts| != 3 || parts[2] == "" then None
      else if !AllowedForField(structure, field, parts[2]) || !ProofHolds(lines, lib, parts[2]) then None
      else
        match (lib.parseSize(parts[0]), lib.parseSize(parts[1]))
        case (Some(offset), Some(size)) =>
          if size == 0 then None else Some(FieldUpdate(structure, field, offset, size, parts[2]))
        case _ => None
  }

  /** What one line of the ready file asks for. */
  function LineUpdate(lines: seq<string>, lib: Library, line: string): Option<Update> {
    if !HasKey(line) then None
    else
      var key, value := KeyOf(line), ValueOf(line);
      if BINDING_PREFIX <= key then BindingRow(lines, lib, key[|BINDING_PREFIX|..], value)
      else if STRUCTURE_PREFIX <= key then StructureRow(lines, lib, key[|STRUCTURE_PREFIX|..], value)
      else if FIELD_PREFIX <= key then FieldRow(lines, lib, key[|FIELD_PREFIX|..], value)
      else None
  }

  // ---- applying updates ----

  function FindBinding(bs: seq<Binding>, name: string, kind: BindingKind): (i: nat)
    ensures i <= |bs|
    ensures i < |bs| ==> bs[i].name == name && bs[i].kind == kind
    ensures forall k :: 0 <= k < i ==> !(bs[k].name == name && bs[k].kind == kind)
  {
    if bs == [] || (bs[0].name == name && bs[0].kind == kind) then 0
    else 1 + FindBinding(bs[1..], name, kind)
  }

  function FindStructure(ss: seq<Structure>, name: string): (i: nat)
    ensures i <= |ss|
    ensures i < |ss| ==> ss[i].name == name
    ensures forall k :: 0 <= k < i ==> ss[k].name != name
  {
    if ss == [] || ss[0].name == name then 0 else 1 + FindStructure(ss[1..], name)
  }

  function FindField(fs: seq<Field>, name: string): (i: nat)
    ensures i <= |fs|
    ensures i < |fs| ==> fs[i].name == name
    ensures forall k :: 0 <= k < i ==> fs[k].name != name
  {
    if fs == [] || fs[0].name == name then 0 else 1 + FindField(fs[1..], name)
  }

  function PutBinding(bs: seq<Binding>, name: string, kind: BindingKind, evidence: string): (r: seq<Binding>)
    ensures |r| == |bs|
  {
    var i := FindBinding(bs, name, kind);
    if i == |bs| then bs else bs[i := bs[i].(resolved := true, evidence := evidence)]
  }

  function PutField(fs: seq<Field>, name: string, offset: nat, size: nat, evidence: string): (r: seq<Field>)
    ensures |r| == |fs|
  {
    var i := FindField(fs, name);
    if i == |fs| then fs
    else fs[i := fs[i].(resolved := true, offset := offset, size := size, evidence := evidence)]
  }

  function PutStructure(s: Structure, u: Update): Structure
    requires u.StructureUpdate? || u.FieldUpdate?
  {
    if u.StructureUpdate? then s.(size := u.size, evidence := u.evidence)
    else s.(fields := PutField(s.fields, u.field, u.offset, u.size, u.evidence))
  }

  function StructureName(u: Update): string
    requires u.StructureUpdate? || u.FieldUpdate?
  {
    if u.StructureUpdate? then u.name else u.structure
  }

  function PutInto(ss: seq<Structure>, u: Update): (r: seq<Structure>)
    requires u.StructureUpdate? || u.FieldUpdate?
    ensures |r| == |ss|
  {
    var i := FindStructure(ss, StructureName(u));
    if i == |ss| then ss else ss[i := PutStructure(ss[i], u)]
  }

  function Put(c: RuntimeContract, u: Update): RuntimeContract {
    if u.BindingUpdate? then c.(bindings := PutBinding(c.bindings, u.name, u.kind, u.evidence))
    else c.(structures := PutInto(c.structures, u))
  }

  function PutOption(c: RuntimeContract, u: Option<Update>): RuntimeContract {
    if u.Some? then Put(c, u.value) else c
  }

  function PutAll(c: RuntimeContract, us: seq<Option<Update>>): RuntimeContract
    decreases |us|
  {
    if us == [] then c else PutAll(PutOption(c, us[0]), us[1..])
  }

  function Updates(file: seq<string>, lib: Library, lines: seq<string>): (us: seq<Option<Update>>)
    ensures |us| == |lines|
  {
    seq(|lines|, i requires 0 <= i < |lines| => LineUpdate(file, lib, lines[i]))
  }

  /** The loop of applyRuntimeExecutorBridgeContractProofs. */
  function ApplyLines(lines: seq<string>, lib: Library, c: RuntimeContract): RuntimeContract {
    PutAll(c, Updates(lines, lib, lines))
  }

  // ---- the contract object the loop updates ----

  class ContractInProgress {
    var contract: RuntimeContract

    constructor (contract: RuntimeContract)
      ensures this.contract == contract
    {
      this.contract := contract;
    }

    method ApplyBinding(u: Update)
      requires u.BindingUpdate?
      modifies this
      ensures contract == Put(old(contract), u)
    {
      var i := 0;
      while i < |contract.bindings| && !(contract.bindings[i].name == u.name && contract.bindings[i].kind == u.kind)
        invariant i <= |contract.bindings|
        invariant FindBinding(contract.bindings, u.name, u.kind) >= i
      {
        i := i + 1;
      }
      if i == |contract.bindings| {
        return;
      }
      var b := contract.bindings[i];
      contract := contract.(bindings := contract.bindings[i := b.(resolved := true, evidence := u.evidence)]);
    }

    method ApplyToStructure(u: Update)
      requires u.StructureUpdate? || u.FieldUpdate?
      modifies this
      ensures contract == Put(old(contract), u)
    {
      var i := 0;
      while i < |contract.structures| && contract.structures[i].name != StructureName(u)
        invariant i <= |contract.structures|
        invariant FindStructure(contract.structures, StructureName(u)) >= i
      {
        i := i + 1;
      }
      if i == |contract.structures| {
        return;
      }
      var s := contract.structures[i];
      contract := contract.(structures := contract.structures[i := PutStructure(s, u)]);
    }

    method ApplyReadyFile(lines: seq<string>, lib: Library)
      modifies this
      ensures contract == ApplyLines(lines, lib, old(contract))
    {
      hide LineUpdate, Put, PutOption;
      ghost var us := Updates(lines, lib, lines);
      for i := 0 to |lines|
        invariant PutAll(contract, us[i..]) == PutAll(old(contract), us)
      {
        var u := LineUpdate(lines, lib, lines[i]);
        assert us[i..][1..] == us[i + 1..];
        ApplyUpdate(u);
      }
    }

    method ApplyUpdate(u: Option<Update>)
      modifies this
      ensures contract == PutOption(old(contract), u)
    {
      if u.Some? {
        if u.value.BindingUpdate? {
          ApplyBinding(u.value);
        } else {
          ApplyToStructure(u.value);
        }
      }
    }
  }
}
