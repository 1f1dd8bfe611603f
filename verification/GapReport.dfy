/**
  The production claim and the implementation-gap report.  The claim is one conjunction,
  the report a list collected by loops; for a well-named contract and a clean preflight the
  report is empty exactly when the claim holds.
 */
module GapReport {
  import opened Evidence
  import opened Contract
  import opened CommandSurface
  import opened ProductionGate
  import opened GateSurvey
  import L = BridgeLaws

  datatype Probe = Probe(
    supported: bool,
    capabilities: seq<Capability>,
    unitCommands: seq<string>,
    gameActions: seq<string>,
    unitEvidence: seq<CommandEvidence>,
    actionEvidence: seq<CommandEvidence>,
    apiMethods: int,
    commandEntries: int)

  // ---- the claim ----

  predicate AllIn(names: seq<string>, entries: seq<string>) {
    forall i :: 0 <= i < |names| ==> names[i] in entries
  }

  predicate AllLive(names: seq<string>, entries: seq<CommandEvidence>) {
    forall i :: 0 <= i < |names| ==> StatusFor(entries, names[i]) == LiveProven
  }

  predicate AllCapable(required: seq<Capability>, offered: seq<Capability>) {
    forall i :: 0 <= i < |required| ==> required[i] in offered
  }

  /** What the probe itself must offer. */
  predicate ProbeComplete(p: Probe, c: RuntimeContract) {
    && p.supported
    && p.apiMethods >= c.apiMethods && p.commandEntries >= c.commandEntries
    && AllIn(UnitCommands(), p.unitCommands) && AllIn(GameActions(), p.gameActions)
    && AllLive(UnitCommands(), p.unitEvidence) && AllLive(GameActions(), p.actionEvidence)
    && AllCapable(c.capabilities, p.capabilities)
  }

  /** canClaimProductionSupport. */
  predicate CanClaimProductionSupport(p: Probe, c: RuntimeContract) {
    ProbeComplete(p, c) && Valid(c) && EvidenceErrors(c) == []
  }

  method CheckProductionClaim(p: Probe, c: RuntimeContract) returns (claim: bool)
    ensures claim == CanClaimProductionSupport(p, c)
  {
    hide Valid, EvidenceErrors, UnitCommands, GameActions, AllIn, AllLive, AllCapable;
    if !p.supported {
      return false;
    }
    var valid, _ := ValidateRuntimeContract(c);
    if !valid {
      return false;
    }
    var evidenceErrors := CollectEvidenceErrors(c);
    if evidenceErrors != [] || p.apiMethods < c.apiMethods || p.commandEntries < c.commandEntries {
      return false;
    }
    var unitsNamed := CheckNames(UnitCommands(), p.unitCommands);
    if !unitsNamed {
      return false;
    }
    var actionsNamed := CheckNames(GameActions(), p.gameActions);
    if !actionsNamed {
      return false;
    }
    var unitsLive := CheckLive(UnitCommands(), p.unitEvidence);
    if !unitsLive {
      return false;
    }
    var actionsLive := CheckLive(GameActions(), p.actionEvidence);
    if !actionsLive {
      return false;
    }
    return AllCapable(c.capabilities, p.capabilities);
  }

  method CheckNames(names: seq<string>, entries: seq<string>) returns (all: bool)
    ensures all == AllIn(names, entries)
  {
    for i := 0 to |names|
      invariant forall k :: 0 <= k < i ==> names[k] in entries
    {
      if names[i] !in entries {
        return false;
      }
    }
    return true;
  }

  /** hasProductionCommandEvidence. */
  method CheckLive(names: seq<string>, entries: seq<CommandEvidence>) returns (all: bool)
    ensures all == AllLive(names, entries)
  {
    for i := 0 to |names|
      invariant forall k :: 0 <= k < i ==> StatusFor(entries, names[k]) == LiveProven
    {
      if StatusFor(entries, names[i]) != LiveProven {
        return false;
      }
    }
    return true;
  }

  // ---- the report ----

  datatype Category =
    | Backend | ApiSurface | SurfaceCount | UnitCommandGap | GameActionGap | EvidenceGap
    | CapabilityGap | BindingGap(kind: BindingKind) | StructureGap | FieldGap | ContractEvidence
    | ExecutorPreflight | MemoryAccess | BridgeMode | BehaviorProofGap | PreflightError

  datatype Subject =
    | Name(text: string)
    | OfCapability(capability: Capability)
    | Number(index: nat)
    | TheBackend | TheMethods | TheEntries
    | TheProcess | TheMemory | TheTarget | TheExecutor

  /** Two sources of gaps share the category structure-layout. */
  function BindingCategory(kind: BindingKind): Category {
    if kind == BindingKind.StructureLayout then StructureGap else BindingGap(kind)
  }

  datatype Gap = Gap(category: Category, subject: Subject)

  function When(condition: bool, category: Category, subject: Subject): seq<Gap> {
    if condition then [Gap(category, subject)] else []
  }

  function AbsentNames(names: seq<string>, entries: seq<string>, category: Category): seq<Gap> {
    if names == [] then []
    else
      var n := |names| - 1;
      AbsentNames(names[..n], entries, category) + When(names[n] !in entries, category, Name(names[n]))
  }

  function UnprovenNames(names: seq<string>, entries: seq<CommandEvidence>): seq<Gap> {
    if names == [] then []
    else
      var n := |names| - 1;
      UnprovenNames(names[..n], entries) + When(StatusFor(entries, names[n]) != LiveProven, EvidenceGap, Name(names[n]))
  }

  function AbsentCapabilities(required: seq<Capability>, offered: seq<Capability>): seq<Gap> {
    if required == [] then []
    else
      var n := |required| - 1;
      AbsentCapabilities(required[..n], offered)
      + When(required[n] !in offered, CapabilityGap, OfCapability(required[n]))
  }

  function OneBindingGap(b: Binding): seq<Gap> {
    When(b.required && !b.resolved, BindingCategory(b.kind), Name(b.name))
  }

  function BindingGaps(bs: seq<Binding>): seq<Gap> {
    if bs == [] then []
    else
      var b := bs[|bs| - 1];
      BindingGaps(bs[..|bs| - 1]) + OneBindingGap(b)
  }

  function OneFieldGap(s: Structure, f: Field): seq<Gap> {
    When(s.required && !f.resolved, FieldGap, Name(FieldSubject(s.name, f.name)))
  }

  function FieldGaps(s: Structure, fs: seq<Field>): seq<Gap> {
    if fs == [] then []
    else
      var f := fs[|fs| - 1];
      FieldGaps(s, fs[..|fs| - 1]) + OneFieldGap(s, f)
  }

  function OwnGaps(s: Structure): seq<Gap> {
    When(s.required && s.size == 0, StructureGap, Name(s.name)) + FieldGaps(s, s.fields)
  }

  function StructureGaps(ss: seq<Structure>): seq<Gap> {
    if ss == [] then []
    else
      var s := ss[|ss| - 1];
      StructureGaps(ss[..|ss| - 1]) + OwnGaps(s)
  }

  function Numbers(category: Category, n: nat): (r: seq<Gap>)
    ensures |r| == n
  {
    seq(n, i requires 0 <= i < n => Gap(category, Number(i)))
  }

  function ProofGaps(lines: seq<string>): (r: seq<Gap>)
    ensures |r| == |lines|
  {
    seq(|lines|, i requires 0 <= i < |lines| => Gap(BehaviorProofGap, Name(lines[i])))
  }

  /** A preflight error the report already covers elsewhere. */
  predicate CoveredError(c: RuntimeContract, e: GateMessage) {
    || (e.ContractError? && e.message in ValidationErrors(c))
    || e.ProofMissing?
  }

  function ErrorGaps(c: RuntimeContract, errors: seq<GateMessage>): seq<Gap> {
    if errors == [] then []
    else
      var n := |errors| - 1;
      ErrorGaps(c, errors[..n]) + When(!CoveredError(c, errors[n]), PreflightError, Number(n))
  }

  function SupportGaps(p: Probe, c: RuntimeContract): seq<Gap> {
    When(!p.supported, Backend, TheBackend)
    + When(p.apiMethods < c.apiMethods, ApiSurface, TheMethods)
    + When(p.commandEntries < c.commandEntries, SurfaceCount, TheEntries)
  }

  function SurfaceGaps(p: Probe): seq<Gap> {
    AbsentNames(UnitCommands(), p.unitCommands, UnitCommandGap)
    + AbsentNames(GameActions(), p.gameActions, GameActionGap)
    + UnprovenNames(UnitCommands(), p.unitEvidence)
    + UnprovenNames(GameActions(), p.actionEvidence)
  }

  function ProbeGaps(p: Probe, c: RuntimeContract): seq<Gap> {
    SupportGaps(p, c) + SurfaceGaps(p) + AbsentCapabilities(c.capabilities, p.capabilities)
  }

  function ContractGaps(c: RuntimeContract): seq<Gap> {
    BindingGaps(c.bindings) + StructureGaps(c.structures) + Numbers(ContractEvidence, |EvidenceErrors(c)|)
  }

  function RuntimeGaps(c: RuntimeContract, r: Report): seq<Gap> {
    When(!r.processIdentified, ExecutorPreflight, TheProcess)
    + When(NeedsMemory(c) && !r.memoryAccessible, MemoryAccess, TheMemory)
    + When(!r.targetLocated, ExecutorPreflight, TheTarget)
    + When(!r.executorAvailable, ExecutorPreflight, TheExecutor)
    + When(r.bridgeMode != "" && r.bridgeMode != L.VALIDATED_MODE, BridgeMode, Name(r.bridgeMode))
  }

  function PreflightGaps(c: RuntimeContract, r: Report): seq<Gap> {
    RuntimeGaps(c, r) + ProofGaps(r.missing) + ErrorGaps(c, r.errors)
  }

  /** collectRuntimeImplementationGaps. */
  function Gaps(p: Probe, c: RuntimeContract, r: Report): seq<Gap> {
    ProbeGaps(p, c) + ContractGaps(c) + PreflightGaps(c, r)
  }

  // ---- collecting ----

  class GapList {
    var gaps: seq<Gap>

    constructor ()
      ensures gaps == []
    {
      gaps := [];
    }

    method AddWhen(condition: bool, category: Category, subject: Subject)
      modifies this
      ensures gaps == old(gaps) + When(condition, category, subject)
    {
      if condition {
        gaps := gaps + [Gap(category, subject)];
      }
    }

    method AddAbsent(names: seq<string>, entries: seq<string>, category: Category)
      modifies this
      ensures gaps == old(gaps) + AbsentNames(names, entries, category)
    {
      for i := 0 to |names|
        invariant gaps == old(gaps) + AbsentNames(names[..i], entries, category)
      {
        assert names[..i + 1][..i] == names[..i];
        AddWhen(names[i] !in entries, category, Name(names[i]));
      }
      assert names[..|names|] == names;
    }

    method AddUnproven(names: seq<string>, entries: seq<CommandEvidence>)
      modifies this
      ensures gaps == old(gaps) + UnprovenNames(names, entries)
    {
      for i := 0 to |names|
        invariant gaps == old(gaps) + UnprovenNames(names[..i], entries)
      {
        assert names[..i + 1][..i] == names[..i];
        AddWhen(StatusFor(entries, names[i]) != LiveProven, EvidenceGap, Name(names[i]));
      }
      assert names[..|names|] == names;
    }

    method AddCapabilities(required: seq<Capability>, offered: seq<Capability>)
      modifies this
      ensures gaps == old(gaps) + AbsentCapabilities(required, offered)
    {
      for i := 0 to |required|
        invariant gaps == old(gaps) + AbsentCapabilities(required[..i], offered)
      {
        assert required[..i + 1][..i] == required[..i];
        AddWhen(required[i] !in offered, CapabilityGap, OfCapability(required[i]));
      }
      assert required[..|required|] == required;
    }

    method AddBindings(bs: seq<Binding>)
      modifies this
      ensures gaps == old(gaps) + BindingGaps(bs)
    {
      for i := 0 to |bs|
        invariant gaps == old(gaps) + BindingGaps(bs[..i])
      {
        assert bs[..i + 1][..i] == bs[..i];
        AddWhen(bs[i].required && !bs[i].resolved, BindingCategory(bs[i].kind), Name(bs[i].name));
      }
      assert bs[..|bs|] == bs;
    }

    method AddFields(s: Structure)
      modifies this
      ensures gaps == old(gaps) + FieldGaps(s, s.fields)
    {
      for i := 0 to |s.fields|
        invariant gaps == old(gaps) + FieldGaps(s, s.fields[..i])
      {
        assert s.fields[..i + 1][..i] == s.fields[..i];
        var f := s.fields[i];
        AddWhen(s.required && !f.resolved, FieldGap, Name(FieldSubject(s.name, f.name)));
      }
      assert s.fields[..|s.fields|] == s.fields;
    }

    method AddStructures(ss: seq<Structure>)
      modifies this
      ensures gaps == old(gaps) + StructureGaps(ss)
    {
      hide FieldGaps;
      for i := 0 to |ss|
        invariant gaps == old(gaps) + StructureGaps(ss[..i])
      {
        assert ss[..i + 1][..i] == ss[..i];
        AddWhen(ss[i].required && ss[i].size == 0, StructureGap, Name(ss[i].name));
        AddFields(ss[i]);
      }
      assert ss[..|ss|] == ss;
    }

    method AddNumbers(category: Category, n: nat)
      modifies this
      ensures gaps == old(gaps) + Numbers(category, n)
    {
      for i := 0 to n
        invariant gaps == old(gaps) + Numbers(category, i)
      {
        assert Numbers(category, i + 1) == Numbers(category, i) + [Gap(category, Number(i))];
        AddWhen(true, category, Number(i));
      }
    }

    method AddMissingProofs(lines: seq<string>)
      modifies this
      ensures gaps == old(gaps) + ProofGaps(lines)
    {
      for i := 0 to |lines|
        invariant gaps == old(gaps) + ProofGaps(lines[..i])
      {
        assert ProofGaps(lines[..i + 1]) == ProofGaps(lines[..i]) + [Gap(BehaviorProofGap, Name(lines[i]))];
        AddWhen(true, BehaviorProofGap, Name(lines[i]));
      }
      assert lines[..|lines|] == lines;
    }

    method AddErrors(c: RuntimeContract, errors: seq<GateMessage>)
      modifies this
      ensures gaps == old(gaps) + ErrorGaps(c, errors)
    {
      hide ValidationErrors;
      for i := 0 to |errors|
        invariant gaps == old(gaps) + ErrorGaps(c, errors[..i])
      {
        assert errors[..i + 1][..i] == errors[..i];
        AddWhen(!CoveredError(c, errors[i]), PreflightError, Number(i));
      }
      assert errors[..|errors|] == errors;
    }

    method AddSupport(p: Probe, c: RuntimeContract)
      modifies this
      ensures gaps == old(gaps) + SupportGaps(p, c)
    {
      hide When;
      AddWhen(!p.supported, Backend, TheBackend);
      AddWhen(p.apiMethods < c.apiMethods, ApiSurface, TheMethods);
      AddWhen(p.commandEntries < c.commandEntries, SurfaceCount, TheEntries);
    }

    method AddSurface(p: Probe)
      modifies this
      ensures gaps == old(gaps) + SurfaceGaps(p)
    {
      hide AbsentNames, UnprovenNames, UnitCommands, GameActions;
      AddAbsent(UnitCommands(), p.unitCommands, UnitCommandGap);
      AddAbsent(GameActions(), p.gameActions, GameActionGap);
      AddUnproven(UnitCommands(), p.unitEvidence);
      AddUnproven(GameActions(), p.actionEvidence);
    }

    method AddProbe(p: Probe, c: RuntimeContract)
      modifies this
      ensures gaps == old(gaps) + ProbeGaps(p, c)
    {
      hide SupportGaps, SurfaceGaps, AbsentCapabilities;
      AddSupport(p, c);
      AddSurface(p);
      AddCapabilities(c.capabilities, p.capabilities);
    }

    method AddContract(c: RuntimeContract)
      modifies this
      ensures gaps == old(gaps) + ContractGaps(c)
    {
      hide BindingGaps, StructureGaps, Numbers, EvidenceErrors;
      AddBindings(c.bindings);
      AddStructures(c.structures);
      var evidenceErrors := CollectEvidenceErrors(c);
      AddNumbers(ContractEvidence, |evidenceErrors|);
    }

    method AddRuntime(c: RuntimeContract, r: Report)
      modifies this
      ensures gaps == old(gaps) + RuntimeGaps(c, r)
    {
      hide When, NeedsMemory;
      AddWhen(!r.processIdentified, ExecutorPreflight, TheProcess);
      AddWhen(NeedsMemory(c) && !r.memoryAccessible, MemoryAccess, TheMemory);
      AddWhen(!r.targetLocated, ExecutorPreflight, TheTarget);
      AddWhen(!r.executorAvailable, ExecutorPreflight, TheExecutor);
      AddWhen(r.bridgeMode != "" && r.bridgeMode != L.VALIDATED_MODE, BridgeMode, Name(r.bridgeMode));
    }

    method AddPreflight(c: RuntimeContract, r: Report)
      modifies this
      ensures gaps == old(gaps) + PreflightGaps(c, r)
    {
      hide RuntimeGaps, ProofGaps, ErrorGaps;
      AddRuntime(c, r);
      AddMissingProofs(r.missing);
      AddErrors(c, r.errors);
    }
  }

  method CollectGaps(p: Probe, c: RuntimeContract, r: Report) returns (gaps: seq<Gap>)
    ensures gaps == Gaps(p, c, r)
  {
    hide ProbeGaps, ContractGaps, PreflightGaps;
    var list := new GapList();
    list.AddProbe(p, c);
    list.AddContract(c);
    list.AddPreflight(c, r);
    return list.gaps;
  }

  // ---- empty sections ----

  lemma {:induction false} NoAbsentNames(names: seq<string>, entries: seq<string>, category: Category)
    ensures AbsentNames(names, entries, category) == [] <==> AllIn(names, entries)
  {
    if names == [] {
    } else {
      NoAbsentNames(names[..|names| - 1], entries, category);
    }
  }

  lemma {:induction false} NoUnprovenNames(names: seq<string>, entries: seq<CommandEvidence>)
    ensures UnprovenNames(names, entries) == [] <==> AllLive(names, entries)
  {
    if names == [] {
    } else {
      NoUnprovenNames(names[..|names| - 1], entries);
    }
  }

  lemma {:induction false} NoAbsentCapabilities(required: seq<Capability>, offered: seq<Capability>)
    ensures AbsentCapabilities(required, offered) == [] <==> AllCapable(required, offered)
  {
    if required == [] {
    } else {
      NoAbsentCapabilities(required[..|required| - 1], offered);
    }
  }

  lemma NoProbeGaps(p: Probe, c: RuntimeContract)
    ensures ProbeGaps(p, c) == [] <==> ProbeComplete(p, c)
  {
    NoAbsentNames(UnitCommands(), p.unitCommands, UnitCommandGap);
    NoAbsentNames(GameActions(), p.gameActions, GameActionGap);
    NoUnprovenNames(UnitCommands(), p.unitEvidence);
    NoUnprovenNames(GameActions(), p.actionEvidence);
    NoAbsentCapabilities(c.capabilities, p.capabilities);
    hide UnitCommands, GameActions, AbsentNames, UnprovenNames, AbsentCapabilities, AllIn, AllLive, AllCapable;
  }

  // ---- contracts ----

  predicate FieldNamed(f: Field) {
    f.name != "" && (f.resolved ==> f.size > 0)
  }

  predicate StructureNamed(s: Structure) {
    s.name != "" && FieldsNamed(s.fields)
  }

  predicate FieldsNamed(fs: seq<Field>) {
    forall i :: 0 <= i < |fs| ==> FieldNamed(fs[i])
  }

  lemma LastFieldNamed(fs: seq<Field>)
    ensures fs == [] ==> FieldsNamed(fs)
    ensures fs != [] ==> (FieldsNamed(fs) <==> FieldsNamed(fs[..|fs| - 1]) && FieldNamed(fs[|fs| - 1]))
  {
    hide FieldNamed;
  }

  predicate StructuresNamed(ss: seq<Structure>) {
    forall i :: 0 <= i < |ss| ==> StructureNamed(ss[i])
  }

  predicate BindingsNamed(bs: seq<Binding>) {
    forall i :: 0 <= i < |bs| ==> bs[i].name != ""
  }

  lemma LastStructureNamed(ss: seq<Structure>)
    requires ss != []
    ensures StructuresNamed(ss) <==> StructuresNamed(ss[..|ss| - 1]) && StructureNamed(ss[|ss| - 1])
  {
    hide StructureNamed;
  }

  lemma LastBindingNamed(bs: seq<Binding>)
    ensures bs == [] ==> BindingsNamed(bs)
    ensures bs != [] ==> (BindingsNamed(bs) <==> BindingsNamed(bs[..|bs| - 1]) && bs[|bs| - 1].name != "")
  {
  }

  lemma NothingNamed()
    ensures StructuresNamed([])
  {
  }

  lemma EmptyConcat<T>(a: seq<T>, b: seq<T>)
    ensures a + b == [] <==> a == [] && b == []
  {
    assert |a + b| == |a| + |b|;
  }

  predicate HeaderGood(c: RuntimeContract) {
    c.product != UnknownProduct && c.version != "" && c.capabilities != [] && c.apiMethods > 0 && c.commandEntries > 0
  }

  /** What the gap report does not look at: header, names, and sizes of resolved fields. */
  predicate WellNamed(c: RuntimeContract) {
    && HeaderGood(c)
    && BindingsNamed(c.bindings)
    && StructuresNamed(c.structures)
  }

  lemma OneBinding(b: Binding)
    ensures BindingErrors(b) == [] <==> b.name != "" && OneBindingGap(b) == []
  {
  }

  lemma {:induction false} BindingSplit(bs: seq<Binding>)
    ensures BindingsErrors(bs) == [] <==> BindingGaps(bs) == [] && BindingsNamed(bs)
  {
    hide BindingErrors, BindingsNamed, OneBindingGap;
    LastBindingNamed(bs);
    if bs == [] {
    } else {
      var n := |bs| - 1;
      BindingSplit(bs[..n]);
      OneBinding(bs[n]);
      EmptyConcat(BindingsErrors(bs[..n]), BindingErrors(bs[n]));
      EmptyConcat(BindingGaps(bs[..n]), OneBindingGap(bs[n]));
    }
  }

  lemma OneField(s: Structure, f: Field)
    ensures FieldErrors(s, f) == [] <==> FieldNamed(f) && OneFieldGap(s, f) == []
  {
  }

  lemma {:induction false} FieldSplit(s: Structure, fs: seq<Field>)
    ensures FieldsErrors(s, fs) == [] <==> FieldGaps(s, fs) == [] && FieldsNamed(fs)
  {
    hide FieldErrors, FieldsNamed, OneFieldGap, FieldNamed;
    LastFieldNamed(fs);
    if fs == [] {
    } else {
      var n := |fs| - 1;
      FieldSplit(s, fs[..n]);
      OneField(s, fs[n]);
      EmptyConcat(FieldsErrors(s, fs[..n]), FieldErrors(s, fs[n]));
      EmptyConcat(FieldGaps(s, fs[..n]), OneFieldGap(s, fs[n]));
    }
  }

  lemma OneStructure(s: Structure)
    ensures StructureErrors(s) == [] <==> StructureNamed(s) && OwnGaps(s) == []
  {
    FieldSplit(s, s.fields);
    hide FieldsErrors, FieldGaps, FieldsNamed;
  }

  lemma {:induction false} StructureSplit(ss: seq<Structure>)
    ensures StructuresErrors(ss) == [] <==> StructureGaps(ss) == [] && StructuresNamed(ss)
  {
    hide StructureErrors, StructuresNamed, StructureNamed, OwnGaps;
    if ss != [] {
      var n := |ss| - 1;
      StructureSplit(ss[..n]);
      OneStructure(ss[n]);
      LastStructureNamed(ss);
      EmptyConcat(StructuresErrors(ss[..n]), StructureErrors(ss[n]));
      EmptyConcat(StructureGaps(ss[..n]), OwnGaps(ss[n]));
    } else {
      NothingNamed();
    }
  }

  /** A contract is valid exactly when it is well named and has no gap of its own. */
  lemma ValidityIsNamesAndGaps(c: RuntimeContract)
    ensures Valid(c) && EvidenceErrors(c) == [] <==> WellNamed(c) && ContractGaps(c) == []
  {
    BindingSplit(c.bindings);
    StructureSplit(c.structures);
    assert HeaderErrors(c) == [] <==> HeaderGood(c);
    hide BindingsErrors, StructuresErrors, BindingGaps, StructureGaps, BindingsNamed, StructuresNamed;
    hide EvidenceErrors, HeaderErrors, HeaderGood;
    EmptyConcat(HeaderErrors(c) + BindingsErrors(c.bindings), StructuresErrors(c.structures));
    EmptyConcat(HeaderErrors(c), BindingsErrors(c.bindings));
    EmptyConcat(BindingGaps(c.bindings) + StructureGaps(c.structures), Numbers(ContractEvidence, |EvidenceErrors(c)|));
    EmptyConcat(BindingGaps(c.bindings), StructureGaps(c.structures));
    hide Numbers;
  }

  // ---- preflight ----

  lemma {:induction false} NoErrorGaps(c: RuntimeContract, errors: seq<GateMessage>)
    ensures ErrorGaps(c, errors) == [] <==> forall i :: 0 <= i < |errors| ==> CoveredError(c, errors[i])
  {
    hide CoveredError;
    if errors == [] {
    } else {
      NoErrorGaps(c, errors[..|errors| - 1]);
    }
  }

  /** The preflight report has nothing the gap report would list. */
  predicate CleanForReport(c: RuntimeContract, r: Report) {
    && r.processIdentified && (NeedsMemory(c) ==> r.memoryAccessible)
    && r.targetLocated && r.executorAvailable
    && (r.bridgeMode == "" || r.bridgeMode == L.VALIDATED_MODE)
    && r.missing == []
    && forall i :: 0 <= i < |r.errors| ==> CoveredError(c, r.errors[i])
  }

  lemma NoPreflightGaps(c: RuntimeContract, r: Report)
    ensures PreflightGaps(c, r) == [] <==> CleanForReport(c, r)
  {
    NoErrorGaps(c, r.errors);
    hide CoveredError, ErrorGaps, NeedsMemory;
  }

  // ---- soundness and completeness ----

  /** Empty report and well-named contract: exactly a production claim with a clean preflight. */
  lemma GapReportIsExact(p: Probe, c: RuntimeContract, r: Report)
    ensures Gaps(p, c, r) == [] && WellNamed(c) <==> CanClaimProductionSupport(p, c) && CleanForReport(c, r)
  {
    NoProbeGaps(p, c);
    ValidityIsNamesAndGaps(c);
    NoPreflightGaps(c, r);
    hide ProbeGaps, ContractGaps, PreflightGaps, ProbeComplete, WellNamed, Valid, EvidenceErrors, CleanForReport;
  }

  /** A report with no errors at all needs no error to be covered elsewhere. */
  lemma ClaimLeavesNoGaps(p: Probe, c: RuntimeContract, r: Report)
    requires CanClaimProductionSupport(p, c)
    requires r.processIdentified && r.targetLocated && r.executorAvailable && r.missing == [] && r.errors == []
    requires NeedsMemory(c) ==> r.memoryAccessible
    requires r.bridgeMode == "" || r.bridgeMode == L.VALIDATED_MODE
    ensures Gaps(p, c, r) == []
  {
    hide CanClaimProductionSupport, Gaps;
    GapReportIsExact(p, c, r);
  }

  /** The hypothesis is needed: an empty report says nothing about the version. */
  lemma ReportForgetsVersion(p: Probe, c: RuntimeContract, r: Report)
    requires Gaps(p, c, r) == []
    ensures var c' := c.(version := ""); Gaps(p, c', r) == [] && !CanClaimProductionSupport(p, c')
  {
    hide ProbeGaps, ContractGaps, PreflightGaps, CoveredError, Valid, ProbeComplete, EvidenceErrors, NeedsMemory;
    var c' := c.(version := "");
    NoPreflightGaps(c, r);
    NoPreflightGaps(c', r);
    SameOtherGaps(p, c, c');
    SameNeeds(c, c');
    forall i | 0 <= i < |r.errors| ensures CoveredError(c', r.errors[i]) {
      assert CoveredError(c, r.errors[i]);
      CoveredStays(c, c', r.errors[i]);
    }
  }

  // ---- an empty report ----

  function LiveFor(names: seq<string>): (r: seq<CommandEvidence>)
    ensures |r| == |names|
  {
    seq(|names|, i requires 0 <= i < |names| => CommandEvidence(names[i], LiveProven, ""))
  }

  lemma {:induction false} LiveForIsLive(names: seq<string>, name: string)
    requires name in names
    ensures StatusFor(LiveFor(names), name) == LiveProven
    decreases |names|
  {
    if names[0] == name {
    } else {
      LiveForIsLive(names[1..], name);
      assert LiveFor(names)[1..] == LiveFor(names[1..]);
    }
  }

  /** A probe that offers all a contract asks for, every command proven live. */
  function FullProbe(c: RuntimeContract): Probe {
    Probe(true, c.capabilities, UnitCommands(), GameActions(), LiveFor(UnitCommands()), LiveFor(GameActions()),
          c.apiMethods, c.commandEntries)
  }

  const CLEAN_REPORT := Report(true, true, true, true, true, L.VALIDATED_MODE, [], [], [])

  /** Every valid contract with production evidence has a probe and a report without gaps. */
  lemma FullProbeLeavesNoGaps(c: RuntimeContract)
    requires Valid(c) && EvidenceErrors(c) == []
    ensures CanClaimProductionSupport(FullProbe(c), c) && Gaps(FullProbe(c), c, CLEAN_REPORT) == []
  {
    hide Valid, EvidenceErrors, UnitCommands, GameActions, StatusFor, Gaps, NeedsMemory;
    var p := FullProbe(c);
    forall name | name in UnitCommands() ensures StatusFor(p.unitEvidence, name) == LiveProven {
      LiveForIsLive(UnitCommands(), name);
    }
    forall name | name in GameActions() ensures StatusFor(p.actionEvidence, name) == LiveProven {
      LiveForIsLive(GameActions(), name);
    }
    ClaimLeavesNoGaps(p, c, CLEAN_REPORT);
  }

  const SMALL_CONTRACT := RuntimeContract(Remastered, "1.23.10", 1, 1, [ReadGameState], [], [])

  /** A report that is empty although nothing can be claimed: the version is unknown. */
  lemma EmptyReportWithoutClaim()
    ensures var p, c := FullProbe(SMALL_CONTRACT), SMALL_CONTRACT;
            && Gaps(p, c, CLEAN_REPORT) == [] && CanClaimProductionSupport(p, c)
            && Gaps(p, c.(version := ""), CLEAN_REPORT) == []
            && !CanClaimProductionSupport(p, c.(version := ""))
  {
    assert Valid(SMALL_CONTRACT) && EvidenceErrors(SMALL_CONTRACT) == [];
    hide Valid, EvidenceErrors, Gaps, CanClaimProductionSupport, FullProbe;
    FullProbeLeavesNoGaps(SMALL_CONTRACT);
    ReportForgetsVersion(FullProbe(SMALL_CONTRACT), SMALL_CONTRACT, CLEAN_REPORT);
  }

  lemma SameNeeds(c: RuntimeContract, c': RuntimeContract)
    requires c' == c.(version := "")
    ensures NeedsMemory(c') == NeedsMemory(c)
  {
  }

  lemma CoveredStays(c: RuntimeContract, c': RuntimeContract, e: GateMessage)
    requires c' == c.(version := "") && CoveredError(c, e)
    ensures CoveredError(c', e)
  {
    hide BindingsErrors, StructuresErrors;
    if e.ContractError? && e.message in HeaderErrors(c) {
      assert e.message in HeaderErrors(c');
    }
  }

  lemma VersionIsChecked(c: RuntimeContract)
    requires c.version == ""
    ensures !Valid(c)
  {
    assert VersionEmpty in HeaderErrors(c);
    hide BindingsErrors, StructuresErrors;
  }

  lemma SameOtherGaps(p: Probe, c: RuntimeContract, c': RuntimeContract)
    requires c' == c.(version := "")
    ensures ProbeGaps(p, c') == ProbeGaps(p, c) && ContractGaps(c') == ContractGaps(c) && !Valid(c')
  {
    VersionIsChecked(c');
    hide Valid, SurfaceGaps, When, AbsentCapabilities, Numbers;
    hide BindingGaps, StructureGaps, BindingFaults, StructureFaults;
  }

  // ---- categories ----

  datatype CategoryCount = CategoryCount(category: Category, count: nat)

  function CountOf(gaps: seq<Gap>, category: Category): (n: nat)
    ensures n <= |gaps|
  {
    if gaps == [] then 0
    else CountOf(gaps[..|gaps| - 1], category) + if gaps[|gaps| - 1].category == category then 1 else 0
  }

  method CountByCategory(gaps: seq<Gap>, category: Category) returns (n: nat)
    ensures n == CountOf(gaps, category)
  {
    n := 0;
    for i := 0 to |gaps|
      invariant n == CountOf(gaps[..i], category)
    {
      assert gaps[..i + 1][..i] == gaps[..i];
      if gaps[i].category == category {
        n := n + 1;
      }
    }
    assert gaps[..|gaps|] == gaps;
  }

  function Sum(counts: seq<CategoryCount>): nat {
    if counts == [] then 0 else Sum(counts[..|counts| - 1]) + counts[|counts| - 1].count
  }

  ghost predicate Listed(counts: seq<CategoryCount>, category: Category) {
    exists k :: 0 <= k < |counts| && counts[k].category == category
  }

  /** Each category once, with its count; a category is listed exactly when a gap has it. */
  ghost predicate Summarizes(counts: seq<CategoryCount>, gaps: seq<Gap>) {
    && (forall j, k :: 0 <= j < k < |counts| ==> counts[j].category != counts[k].category)
    && (forall k :: 0 <= k < |counts| ==> counts[k].count == CountOf(gaps, counts[k].category))
    && (forall category :: CountOf(gaps, category) > 0 <==> Listed(counts, category))
    && Sum(counts) == |gaps|
  }

  lemma {:induction false} SumAfterIncrement(counts: seq<CategoryCount>, k: nat)
    requires k < |counts|
    ensures Sum(counts[k := CategoryCount(counts[k].category, counts[k].count + 1)]) == Sum(counts) + 1
    decreases |counts|
  {
    var more := counts[k := CategoryCount(counts[k].category, counts[k].count + 1)];
    var n := |counts| - 1;
    if k == n {
      assert more[..n] == counts[..n];
    } else {
      SumAfterIncrement(counts[..n], k);
      assert more[..n] == counts[..n][k := CategoryCount(counts[k].category, counts[k].count + 1)];
    }
  }

  lemma CountAppend(gaps: seq<Gap>, gap: Gap)
    ensures forall category :: CountOf(gaps + [gap], category)
                            == CountOf(gaps, category) + if gap.category == category then 1 else 0
  {
    assert (gaps + [gap])[..|gaps|] == gaps;
  }

  lemma SummaryAppend(counts: seq<CategoryCount>, gaps: seq<Gap>, gap: Gap)
    requires Summarizes(counts, gaps) && !Listed(counts, gap.category)
    ensures Summarizes(counts + [CategoryCount(gap.category, 1)], gaps + [gap])
  {
    CountAppend(gaps, gap);
    var more := counts + [CategoryCount(gap.category, 1)];
    assert more[..|counts|] == counts;
    hide CountOf;
    forall category ensures CountOf(gaps + [gap], category) > 0 <==> Listed(more, category) {
      if category == gap.category {
        assert more[|counts|].category == category;
      } else if Listed(counts, category) {
        var k :| 0 <= k < |counts| && counts[k].category == category;
        assert more[k].category == category;
      }
    }
  }

  lemma SummaryIncrement(counts: seq<CategoryCount>, gaps: seq<Gap>, gap: Gap, k: nat)
    requires Summarizes(counts, gaps) && k < |counts| && counts[k].category == gap.category
    ensures Summarizes(counts[k := CategoryCount(gap.category, counts[k].count + 1)], gaps + [gap])
  {
    CountAppend(gaps, gap);
    SumAfterIncrement(counts, k);
    var more := counts[k := CategoryCount(gap.category, counts[k].count + 1)];
    hide CountOf, Sum;
    forall category ensures CountOf(gaps + [gap], category) > 0 <==> Listed(more, category) {
      if Listed(counts, category) {
        var j :| 0 <= j < |counts| && counts[j].category == category;
        assert more[j].category == category;
      } else {
        assert forall j :: 0 <= j < |more| ==> more[j].category == counts[j].category;
      }
    }
  }

  method SummarizeByCategory(gaps: seq<Gap>) returns (counts: seq<CategoryCount>)
    ensures Summarizes(counts, gaps)
  {
    hide Summarizes;
    counts := [];
    EmptySummary();
    for i := 0 to |gaps|
      invariant Summarizes(counts, gaps[..i])
    {
      assert gaps[..i + 1] == gaps[..i] + [gaps[i]];
      var k := 0;
      while k < |counts| && counts[k].category != gaps[i].category
        invariant k <= |counts|
        invariant forall j :: 0 <= j < k ==> counts[j].category != gaps[i].category
      {
        k := k + 1;
      }
      if k == |counts| {
        SummaryAppend(counts, gaps[..i], gaps[i]);
        counts := counts + [CategoryCount(gaps[i].category, 1)];
      } else {
        SummaryIncrement(counts, gaps[..i], gaps[i], k);
        counts := counts[k := CategoryCount(gaps[i].category, counts[k].count + 1)];
      }
    }
    assert gaps[..|gaps|] == gaps;
  }

  lemma EmptySummary()
    ensures Summarizes([], [])
  {
  }
}
