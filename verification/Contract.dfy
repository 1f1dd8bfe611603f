/**
  The runtime contract, its validation and its production-evidence check.  Messages are
  represented by what they say: a kind and the subject they name.
 */
module Contract {
  import opened Evidence

  datatype Product = BroodWar1161 | Remastered | UnknownProduct

  datatype Capability =
    | ReadGameState | ReadMapData | ReadUnitData | ReadBulletData | ReadPlayerData
    | ReadRegionData | IssueCommands | DrawOverlays | DispatchEvents | ReplayAnalysis
    | MultiplayerSync | BattleNet | LoadAIModules | SharedMemoryClient

  datatype Binding = Binding(name: string, kind: BindingKind, required: bool, resolved: bool, evidence: string)

  datatype Field = Field(name: string, offset: nat, size: nat, resolved: bool, evidence: string)

  datatype Structure = Structure(name: string, size: nat, required: bool, evidence: string, fields: seq<Field>)

  datatype RuntimeContract = RuntimeContract(
    product: Product,
    version: string,
    apiMethods: int,
    commandEntries: int,
    capabilities: seq<Capability>,
    bindings: seq<Binding>,
    structures: seq<Structure>)

  datatype Message =
    | ProductUnknown
    | VersionEmpty
    | NoCapabilities
    | NoApiCount
    | NoCommandCount
    | BindingNameEmpty
    | BindingUnresolved(kind: BindingKind, subject: string)
    | StructureNameEmpty
    | StructureUnsized(subject: string)
    | FieldNameEmpty(subject: string)
    | FieldUnresolved(subject: string)
    | FieldUnsized(subject: string)

  function FieldSubject(structure: string, field: string): string {
    structure + "." + field
  }

  // ---- what one entry contributes ----

  function HeaderErrors(c: RuntimeContract): seq<Message> {
    (if c.product == UnknownProduct then [ProductUnknown] else [])
    + (if c.version == "" then [VersionEmpty] else [])
    + (if c.capabilities == [] then [NoCapabilities] else [])
    + (if c.apiMethods <= 0 then [NoApiCount] else [])
    + (if c.commandEntries <= 0 then [NoCommandCount] else [])
  }

  function BindingErrors(b: Binding): seq<Message> {
    if b.name == "" then [BindingNameEmpty]
    else if b.required && !b.resolved then [BindingUnresolved(b.kind, b.name)]
    else []
  }

  function FieldErrors(s: Structure, f: Field): seq<Message> {
    if f.name == "" then [FieldNameEmpty(s.name)]
    else
      (if s.required && !f.resolved then [FieldUnresolved(FieldSubject(s.name, f.name))] else [])
      + (if f.resolved && f.size == 0 then [FieldUnsized(FieldSubject(s.name, f.name))] else [])
  }

  function FieldsErrors(s: Structure, fields: seq<Field>): seq<Message> {
    if fields == [] then []
    else FieldsErrors(s, fields[..|fields| - 1]) + FieldErrors(s, fields[|fields| - 1])
  }

  function StructureErrors(s: Structure): seq<Message> {
    if s.name == "" then [StructureNameEmpty]
    else (if s.required && s.size == 0 then [StructureUnsized(s.name)] else []) + FieldsErrors(s, s.fields)
  }

  function BindingsErrors(bs: seq<Binding>): seq<Message> {
    if bs == [] then [] else BindingsErrors(bs[..|bs| - 1]) + BindingErrors(bs[|bs| - 1])
  }

  function StructuresErrors(ss: seq<Structure>): seq<Message> {
    if ss == [] then [] else StructuresErrors(ss[..|ss| - 1]) + StructureErrors(ss[|ss| - 1])
  }

  /** The error list of validateRuntimeContract. */
  function ValidationErrors(c: RuntimeContract): seq<Message> {
    HeaderErrors(c) + BindingsErrors(c.bindings) + StructuresErrors(c.structures)
  }

  predicate Valid(c: RuntimeContract) {
    ValidationErrors(c) == []
  }

  // ---- the loops ----

  method ValidateFields(s: Structure) returns (errors: seq<Message>)
    ensures errors == FieldsErrors(s, s.fields)
  {
    errors := [];
    for i := 0 to |s.fields|
      invariant errors == FieldsErrors(s, s.fields[..i])
    {
      assert s.fields[..i + 1][..i] == s.fields[..i];
      var f := s.fields[i];
      if f.name == "" {
        errors := errors + [FieldNameEmpty(s.name)];
        continue;
      }
      if s.required && !f.resolved {
        errors := errors + [FieldUnresolved(FieldSubject(s.name, f.name))];
      }
      if f.resolved && f.size == 0 {
        errors := errors + [FieldUnsized(FieldSubject(s.name, f.name))];
      }
    }
    assert s.fields[..|s.fields|] == s.fields;
  }

  method ValidateStructure(s: Structure) returns (errors: seq<Message>)
    ensures errors == StructureErrors(s)
  {
    errors := [];
    if s.name == "" {
      return [StructureNameEmpty];
    }
    if s.required && s.size == 0 {
      errors := errors + [StructureUnsized(s.name)];
    }
    var fieldErrors := ValidateFields(s);
    errors := errors + fieldErrors;
  }

  method ValidateStructures(ss: seq<Structure>) returns (errors: seq<Message>)
    ensures errors == StructuresErrors(ss)
  {
    hide StructureErrors;
    errors := [];
    for i := 0 to |ss|
      invariant errors == StructuresErrors(ss[..i])
    {
      assert ss[..i + 1][..i] == ss[..i];
      var found := ValidateStructure(ss[i]);
      errors := errors + found;
    }
    assert ss[..|ss|] == ss;
  }

  method ValidateBindings(bs: seq<Binding>) returns (errors: seq<Message>)
    ensures errors == BindingsErrors(bs)
  {
    errors := [];
    for i := 0 to |bs|
      invariant errors == BindingsErrors(bs[..i])
    {
      assert bs[..i + 1][..i] == bs[..i];
      if bs[i].name == "" {
        errors := errors + [BindingNameEmpty];
        continue;
      }
      if bs[i].required && !bs[i].resolved {
        errors := errors + [BindingUnresolved(bs[i].kind, bs[i].name)];
      }
    }
    assert bs[..|bs|] == bs;
  }

  method ValidateHeader(c: RuntimeContract) returns (errors: seq<Message>)
    ensures errors == HeaderErrors(c)
  {
    errors := [];
    if c.product == UnknownProduct {
      errors := errors + [ProductUnknown];
    }
    if c.version == "" {
      errors := errors + [VersionEmpty];
    }
    assert errors == (if c.product == UnknownProduct then [ProductUnknown] else [])
                     + (if c.version == "" then [VersionEmpty] else []);
    ghost var first := errors;
    if c.capabilities == [] {
      errors := errors + [NoCapabilities];
    }
    if c.apiMethods <= 0 {
      errors := errors + [NoApiCount];
    }
    assert errors == first + (if c.capabilities == [] then [NoCapabilities] else [])
                     + (if c.apiMethods <= 0 then [NoApiCount] else []);
    if c.commandEntries <= 0 {
      errors := errors + [NoCommandCount];
    }
  }

  method ValidateRuntimeContract(c: RuntimeContract) returns (valid: bool, errors: seq<Message>)
    ensures errors == ValidationErrors(c) && valid == Valid(c)
  {
    hide HeaderErrors, BindingsErrors, StructuresErrors;
    var headerErrors := ValidateHeader(c);
    var bindingErrors := ValidateBindings(c.bindings);
    var structureErrors := ValidateStructures(c.structures);
    errors := headerErrors + bindingErrors + structureErrors;
    valid := errors == [];
  }

  // ---- production evidence ----

  datatype EvidenceError = EvidenceError(subject: string, fault: EvidenceFault)

  function Fault(subject: string, evidence: string, expected: string): seq<EvidenceError> {
    match FaultOf(evidence, expected)
    case None => []
    case Some(f) => [EvidenceError(subject, f)]
  }

  function BindingFault(b: Binding): seq<EvidenceError> {
    if b.resolved then Fault(b.name, b.evidence, ExpectedForBinding(b.name, b.kind)) else []
  }

  function FieldFault(structure: string, f: Field): seq<EvidenceError> {
    if f.resolved
    then Fault(FieldSubject(structure, f.name), f.evidence, ExpectedForField(structure, f.name))
    else []
  }

  function FieldFaults(structure: string, fs: seq<Field>): seq<EvidenceError> {
    if fs == [] then []
    else FieldFaults(structure, fs[..|fs| - 1]) + FieldFault(structure, fs[|fs| - 1])
  }

  function StructureFault(s: Structure): seq<EvidenceError> {
    (if s.size != 0 then Fault(s.name, s.evidence, ExpectedForStructure(s.name)) else [])
    + FieldFaults(s.name, s.fields)
  }

  function BindingFaults(bs: seq<Binding>): seq<EvidenceError> {
    if bs == [] then [] else BindingFaults(bs[..|bs| - 1]) + BindingFault(bs[|bs| - 1])
  }

  function StructureFaults(ss: seq<Structure>): seq<EvidenceError> {
    if ss == [] then [] else StructureFaults(ss[..|ss| - 1]) + StructureFault(ss[|ss| - 1])
  }

  /** contractProductionEvidenceErrors. */
  function EvidenceErrors(c: RuntimeContract): seq<EvidenceError> {
    BindingFaults(c.bindings) + StructureFaults(c.structures)
  }

  method CollectEvidenceErrors(c: RuntimeContract) returns (errors: seq<EvidenceError>)
    ensures errors == EvidenceErrors(c)
  {
    hide FaultOf, ExpectedForBinding, ExpectedForStructure, ExpectedForField;
    errors := [];
    for i := 0 to |c.bindings|
      invariant errors == BindingFaults(c.bindings[..i])
    {
      assert c.bindings[..i + 1][..i] == c.bindings[..i];
      var b := c.bindings[i];
      if b.resolved {
        errors := errors + Fault(b.name, b.evidence, ExpectedForBinding(b.name, b.kind));
      }
    }
    assert c.bindings[..|c.bindings|] == c.bindings;
    for i := 0 to |c.structures|
      invariant errors == BindingFaults(c.bindings) + StructureFaults(c.structures[..i])
    {
      assert c.structures[..i + 1][..i] == c.structures[..i];
      var s := c.structures[i];
      var found := CollectStructureFaults(s);
      errors := errors + found;
    }
    assert c.structures[..|c.structures|] == c.structures;
  }

  method CollectStructureFaults(s: Structure) returns (errors: seq<EvidenceError>)
    ensures errors == StructureFault(s)
  {
    hide FaultOf, ExpectedForBinding, ExpectedForStructure, ExpectedForField;
    errors := [];
    if s.size != 0 {
      errors := Fault(s.name, s.evidence, ExpectedForStructure(s.name));
    }
    ghost var own := errors;
    for i := 0 to |s.fields|
      invariant errors == own + FieldFaults(s.name, s.fields[..i])
    {
      assert s.fields[..i + 1][..i] == s.fields[..i];
      var f := s.fields[i];
      if f.resolved {
        errors := errors
          + Fault(FieldSubject(s.name, f.name), f.evidence, ExpectedForField(s.name, f.name));
      }
    }
    assert s.fields[..|s.fields|] == s.fields;
  }
}
