/**
  What the gap report holds: each gap, by category and subject, is in the report exactly
  when the thing it names is missing.
 */
module GapContents {
  import opened Evidence
  import opened Contract
  import opened CommandSurface
  import opened ProductionGate
  import opened GateSurvey
  import opened GapReport

  /** The report names `text` for a listed name the probe does not offer. */
  predicate NamesAbsent(s: Subject, names: seq<string>, offered: seq<string>) {
    s.Name? && s.text in names && s.text !in offered
  }

  predicate NamesUnproven(s: Subject, names: seq<string>, entries: seq<CommandEvidence>) {
    s.Name? && s.text in names && StatusFor(entries, s.text) != LiveProven
  }

  predicate NamesUnresolved(s: Subject, bs: seq<Binding>, kind: BindingKind) {
    s.Name? && exists b | b in bs :: b.required && !b.resolved && b.kind == kind && b.name == s.text
  }

  predicate NamesUnsized(s: Subject, ss: seq<Structure>) {
    s.Name? && exists x | x in ss :: x.required && x.size == 0 && x.name == s.text
  }

  predicate NamesUnlocated(s: Subject, ss: seq<Structure>) {
    s.Name? && exists x | x in ss :: x.required && LacksField(s, x, x.fields)
  }

  predicate LacksField(s: Subject, x: Structure, fs: seq<Field>) {
    s.Name? && exists f | f in fs :: !f.resolved && s.text == x.name + "." + f.name
  }

  predicate CountsError(s: Subject, c: RuntimeContract, errors: seq<GateMessage>) {
    && s.Number? && s.index < |errors|
    && !errors[s.index].ProofMissing?
    && (errors[s.index].ContractError? ==> errors[s.index].message !in ValidationErrors(c))
  }

  /** Gaps of the probe. */
  predicate ProbeLacks(g: Gap, p: Probe, c: RuntimeContract) {
    var s := g.subject;
    match g.category
    case Backend => s.TheBackend? && !p.supported
    case ApiSurface => s.TheMethods? && p.apiMethods < c.apiMethods
    case SurfaceCount => s.TheEntries? && p.commandEntries < c.commandEntries
    case UnitCommandGap => NamesAbsent(s, UnitCommands(), p.unitCommands)
    case GameActionGap => NamesAbsent(s, GameActions(), p.gameActions)
    case EvidenceGap =>
      NamesUnproven(s, UnitCommands(), p.unitEvidence) || NamesUnproven(s, GameActions(), p.actionEvidence)
    case CapabilityGap =>
      s.OfCapability? && s.capability in c.capabilities && s.capability !in p.capabilities
    case _ => false
  }

  /** Gaps of the contract. */
  predicate ContractLacks(g: Gap, c: RuntimeContract) {
    var s := g.subject;
    match g.category
    case BindingGap(kind) => !kind.StructureLayout? && NamesUnresolved(s, c.bindings, kind)
    case StructureGap =>
      NamesUnsized(s, c.structures) || NamesUnresolved(s, c.bindings, BindingKind.StructureLayout)
    case FieldGap => NamesUnlocated(s, c.structures)
    case ContractEvidence => s.Number? && s.index < |EvidenceErrors(c)|
    case _ => false
  }

  /** Gaps of the preflight. */
  predicate PreflightLacks(g: Gap, c: RuntimeContract, r: Report) {
    var s := g.subject;
    match g.category
    case ExecutorPreflight =>
      || (s.TheProcess? && !r.processIdentified)
      || (s.TheTarget? && !r.targetLocated)
      || (s.TheExecutor? && !r.executorAvailable)
    case MemoryAccess => s.TheMemory? && NeedsMemory(c) && !r.memoryAccessible
    case BridgeMode => s == Name(r.bridgeMode) && r.bridgeMode != "" && r.bridgeMode != "validated-runtime-adapter"
    case BehaviorProofGap => s.Name? && s.text in r.missing
    case PreflightError => CountsError(s, c, r.errors)
    case _ => false
  }

  lemma SplitsLast<T>(s: seq<T>, x: T)
    requires s != []
    ensures x in s <==> x in s[..|s| - 1] || x == s[|s| - 1]
  {
    assert s == s[..|s| - 1] + [s[|s| - 1]];
  }

  lemma {:induction false} AbsentMean(g: Gap, names: seq<string>, entries: seq<string>, category: Category)
    ensures g in AbsentNames(names, entries, category)
            <==> g.category == category && NamesAbsent(g.subject, names, entries)
  {
    if names != [] {
      AbsentMean(g, names[..|names| - 1], entries, category);
      if g.subject.Name? {
        SplitsLast(names, g.subject.text);
      }
    }
  }

  lemma {:induction false} UnprovenMean(g: Gap, names: seq<string>, entries: seq<CommandEvidence>)
    ensures g in UnprovenNames(names, entries)
            <==> g.category == EvidenceGap && NamesUnproven(g.subject, names, entries)
  {
    if names != [] {
      UnprovenMean(g, names[..|names| - 1], entries);
      if g.subject.Name? {
        SplitsLast(names, g.subject.text);
      }
    }
  }

  lemma {:induction false} CapabilitiesMean(g: Gap, required: seq<Capability>, offered: seq<Capability>)
    ensures g in AbsentCapabilities(required, offered)
            <==> && g.category == CapabilityGap && g.subject.OfCapability?
                 && g.subject.capability in required && g.subject.capability !in offered
  {
    if required != [] {
      CapabilitiesMean(g, required[..|required| - 1], offered);
      if g.subject.OfCapability? {
        SplitsLast(required, g.subject.capability);
      }
    }
  }

  /** The category a binding's gap is filed under. */
  predicate FiledUnder(category: Category, kind: BindingKind) {
    if kind.StructureLayout? then category.StructureGap? else category == BindingGap(kind)
  }

  lemma {:induction false} BindingsMean(g: Gap, bs: seq<Binding>)
    ensures g in BindingGaps(bs)
            <==> exists b | b in bs ::
              b.required && !b.resolved && FiledUnder(g.category, b.kind) && g.subject == Name(b.name)
  {
    if bs != [] {
      var rest := bs[..|bs| - 1];
      var last := bs[|bs| - 1];
      assert bs == rest + [last];
      BindingsMean(g, rest);
      assert g in OneBindingGap(last)
        <==> last.required && !last.resolved && FiledUnder(g.category, last.kind) && g.subject == Name(last.name);
    }
  }

  lemma {:induction false} FieldsMean(g: Gap, s: Structure, fs: seq<Field>)
    ensures g in FieldGaps(s, fs) <==> g.category == FieldGap && s.required && LacksField(g.subject, s, fs)
  {
    if fs != [] {
      var rest := fs[..|fs| - 1];
      var last := fs[|fs| - 1];
      assert fs == rest + [last];
      FieldsMean(g, s, rest);
    }
  }

  lemma {:induction false} StructuresMean(g: Gap, ss: seq<Structure>)
    ensures g in StructureGaps(ss)
            <==> || (g.category == StructureGap && NamesUnsized(g.subject, ss))
                 || (g.category == FieldGap && NamesUnlocated(g.subject, ss))
  {
    hide LacksField, FieldGaps;
    if ss != [] {
      var rest := ss[..|ss| - 1];
      var last := ss[|ss| - 1];
      assert ss == rest + [last];
      StructuresMean(g, rest);
      FieldsMean(g, last, last.fields);
      OwnMean(g, last);
      UnsizedSplits(g.subject, rest, last);
      UnlocatedSplits(g.subject, rest, last);
    }
  }

  lemma OwnMean(g: Gap, s: Structure)
    ensures g in OwnGaps(s)
            <==> || (g.category == StructureGap && s.required && s.size == 0 && g.subject == Name(s.name))
                 || (g.category == FieldGap && s.required && LacksField(g.subject, s, s.fields))
  {
    hide LacksField, FieldGaps;
    FieldsMean(g, s, s.fields);
  }

  lemma UnsizedSplits(s: Subject, rest: seq<Structure>, last: Structure)
    ensures NamesUnsized(s, rest + [last])
            <==> NamesUnsized(s, rest) || (last.required && last.size == 0 && s == Name(last.name))
  {
    if NamesUnsized(s, rest) {
      var x :| x in rest && x.required && x.size == 0 && x.name == s.text;
      assert x in rest + [last];
    }
    assert last in rest + [last];
  }

  lemma UnlocatedSplits(s: Subject, rest: seq<Structure>, last: Structure)
    ensures NamesUnlocated(s, rest + [last])
            <==> NamesUnlocated(s, rest) || (last.required && LacksField(s, last, last.fields))
  {
    if NamesUnlocated(s, rest) {
      var x :| x in rest && x.required && LacksField(s, x, x.fields);
      assert x in rest + [last];
    }
    assert last in rest + [last];
  }

  lemma {:induction false} ErrorsMean(g: Gap, c: RuntimeContract, errors: seq<GateMessage>)
    ensures g in ErrorGaps(c, errors) <==> g.category == PreflightError && CountsError(g.subject, c, errors)
  {
    hide ValidationErrors;
    if errors != [] {
      ErrorsMean(g, c, errors[..|errors| - 1]);
    }
  }

  lemma RuntimeMean(g: Gap, c: RuntimeContract, r: Report)
    ensures g in RuntimeGaps(c, r)
            <==> !g.category.BehaviorProofGap? && !g.category.PreflightError? && PreflightLacks(g, c, r)
  {
    hide NeedsMemory, CountsError;
  }

  lemma ProofsMean(g: Gap, lines: seq<string>)
    ensures g in ProofGaps(lines) <==> g.category == BehaviorProofGap && g.subject.Name? && g.subject.text in lines
  {
    if g.category == BehaviorProofGap && g.subject.Name? && g.subject.text in lines {
      var i :| 0 <= i < |lines| && lines[i] == g.subject.text;
      assert ProofGaps(lines)[i] == g;
    }
  }

  lemma NumbersMean(g: Gap, category: Category, n: nat)
    ensures g in Numbers(category, n) <==> g.category == category && g.subject.Number? && g.subject.index < n
  {
    if g.category == category && g.subject.Number? && g.subject.index < n {
      assert Numbers(category, n)[g.subject.index] == g;
    }
  }

  lemma SupportMean(g: Gap, p: Probe, c: RuntimeContract)
    ensures g in SupportGaps(p, c)
            <==> (g.category.Backend? || g.category.ApiSurface? || g.category.SurfaceCount?) && ProbeLacks(g, p, c)
  {
    hide NamesAbsent, NamesUnproven, UnitCommands, GameActions;
  }

  lemma ProbeMean(g: Gap, p: Probe, c: RuntimeContract)
    ensures g in ProbeGaps(p, c) <==> ProbeLacks(g, p, c)
  {
    hide SupportGaps, UnitCommands, GameActions, AbsentNames, UnprovenNames, AbsentCapabilities;
    hide NamesAbsent, NamesUnproven;
    SupportMean(g, p, c);
    AbsentMean(g, UnitCommands(), p.unitCommands, UnitCommandGap);
    AbsentMean(g, GameActions(), p.gameActions, GameActionGap);
    UnprovenMean(g, UnitCommands(), p.unitEvidence);
    UnprovenMean(g, GameActions(), p.actionEvidence);
    CapabilitiesMean(g, c.capabilities, p.capabilities);
  }

  lemma ContractMean(g: Gap, c: RuntimeContract)
    ensures g in ContractGaps(c) <==> ContractLacks(g, c)
  {
    hide BindingGaps, StructureGaps, Numbers, EvidenceErrors, NamesUnsized, NamesUnlocated;
    BindingsMean(g, c.bindings);
    StructuresMean(g, c.structures);
    NumbersMean(g, ContractEvidence, |EvidenceErrors(c)|);
  }

  lemma PreflightMean(g: Gap, c: RuntimeContract, r: Report)
    ensures g in PreflightGaps(c, r) <==> PreflightLacks(g, c, r)
  {
    hide RuntimeGaps, ProofGaps, ErrorGaps, CountsError, NeedsMemory;
    RuntimeMean(g, c, r);
    ProofsMean(g, r.missing);
    ErrorsMean(g, c, r.errors);
  }

  /** The report holds a gap exactly when the thing it names is missing. */
  lemma GapMeans(g: Gap, p: Probe, c: RuntimeContract, r: Report)
    ensures g in Gaps(p, c, r) <==> ProbeLacks(g, p, c) || ContractLacks(g, c) || PreflightLacks(g, c, r)
  {
    hide ProbeGaps, ContractGaps, PreflightGaps, ProbeLacks, ContractLacks, PreflightLacks;
    ProbeMean(g, p, c);
    ContractMean(g, c);
    PreflightMean(g, c, r);
  }
}
