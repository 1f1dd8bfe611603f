/**
  What a valid contract is, entry by entry, and what counts as production evidence.
 */
module ContractMeaning {
  import opened Evidence
  import opened Contract

  // ---- validity ----

  predicate HeaderSound(c: RuntimeContract) {
    && c.product != UnknownProduct && c.version != "" && c.capabilities != []
    && c.apiMethods > 0 && c.commandEntries > 0
  }

  predicate BindingSound(b: Binding) {
    b.name != "" && (b.required ==> b.resolved)
  }

  predicate FieldSound(required: bool, f: Field) {
    f.name != "" && (required ==> f.resolved) && (f.resolved ==> f.size > 0)
  }

  predicate StructureSound(s: Structure) {
    && s.name != "" && (s.required ==> s.size > 0)
    && forall f :: f in s.fields ==> FieldSound(s.required, f)
  }

  lemma {:induction false} BindingsMean(bs: seq<Binding>)
    ensures BindingsErrors(bs) == [] <==> forall b :: b in bs ==> BindingSound(b)
  {
    if bs != [] {
      var rest, last := bs[..|bs| - 1], bs[|bs| - 1];
      BindingsMean(rest);
      assert bs == rest + [last];
      assert BindingErrors(last) == [] <==> BindingSound(last);
      hide BindingErrors, BindingSound;
      assert BindingsErrors(bs) == [] <==> BindingsErrors(rest) == [] && BindingErrors(last) == [];
    }
  }

  lemma {:induction false} FieldsMean(s: Structure, fs: seq<Field>)
    ensures FieldsErrors(s, fs) == [] <==> forall f :: f in fs ==> FieldSound(s.required, f)
  {
    if fs != [] {
      var rest, last := fs[..|fs| - 1], fs[|fs| - 1];
      FieldsMean(s, rest);
      assert fs == rest + [last];
      assert FieldErrors(s, last) == [] <==> FieldSound(s.required, last);
      hide FieldErrors, FieldSound;
      assert FieldsErrors(s, fs) == [] <==> FieldsErrors(s, rest) == [] && FieldErrors(s, last) == [];
    }
  }

  lemma {:induction false} StructuresMean(ss: seq<Structure>)
    ensures StructuresErrors(ss) == [] <==> forall s :: s in ss ==> StructureSound(s)
  {
    if ss != [] {
      var rest, last := ss[..|ss| - 1], ss[|ss| - 1];
      StructuresMean(rest);
      assert ss == rest + [last];
      FieldsMean(last, last.fields);
      assert StructureErrors(last) == [] <==> StructureSound(last);
      hide StructureErrors, StructureSound;
      assert StructuresErrors(ss) == [] <==> StructuresErrors(rest) == [] && StructureErrors(last) == [];
    }
  }

  /**
    A contract is valid exactly when its header is filled in, every binding and structure has
    a name, whatever is required is resolved and sized, and every resolved field has a size.
   */
  lemma ValidMeans(c: RuntimeContract)
    ensures Valid(c)
            <==> && HeaderSound(c) && (forall b :: b in c.bindings ==> BindingSound(b))
                 && (forall s :: s in c.structures ==> StructureSound(s))
  {
    hide BindingSound, StructureSound;
    BindingsMean(c.bindings);
    StructuresMean(c.structures);
    hide BindingsErrors, StructuresErrors;
    assert HeaderErrors(c) == [] <==> HeaderSound(c);
    hide HeaderErrors, HeaderSound;
    assert ValidationErrors(c) == []
      <==> HeaderErrors(c) == [] && BindingsErrors(c.bindings) == [] && StructuresErrors(c.structures) == [];
  }

  // ---- production evidence ----

  ghost predicate BindingProven(b: Binding) {
    b.resolved ==> exists line :: ProvesBinding(b.name, b.kind, line) && Backs(b.evidence, line)
  }

  ghost predicate FieldProven(structure: string, f: Field) {
    f.resolved ==> exists line :: ProvesField(structure, f.name, line) && Backs(f.evidence, line)
  }

  ghost predicate StructureProven(s: Structure) {
    && (s.size != 0 ==> exists line :: ProvesStructure(s.name, line) && Backs(s.evidence, line))
    && forall f :: f in s.fields ==> FieldProven(s.name, f)
  }

  lemma BindingFaultMeans(b: Binding)
    ensures BindingFault(b) == [] <==> BindingProven(b)
  {
    hide FaultOf, ExpectedForBinding, AllowedForBinding, ProvesBinding, Backs;
    BindingJudgesAgree(b.name, b.kind, b.evidence);
    BindingEvidenceMeans(b.name, b.kind, b.evidence);
  }

  lemma FieldFaultMeans(structure: string, f: Field)
    ensures FieldFault(structure, f) == [] <==> FieldProven(structure, f)
  {
    hide FaultOf, ExpectedForField, AllowedForField, ProvesField, Backs, FieldSubject;
    FieldJudgesAgree(structure, f.name, f.evidence);
    FieldEvidenceMeans(structure, f.name, f.evidence);
  }

  lemma {:induction false} FieldFaultsMean(structure: string, fs: seq<Field>)
    ensures FieldFaults(structure, fs) == [] <==> forall f :: f in fs ==> FieldProven(structure, f)
  {
    hide FieldFault, FieldProven;
    if fs != [] {
      var rest, last := fs[..|fs| - 1], fs[|fs| - 1];
      FieldFaultsMean(structure, rest);
      FieldFaultMeans(structure, last);
      assert fs == rest + [last];
      assert FieldFaults(structure, fs) == []
        <==> FieldFaults(structure, rest) == [] && FieldFault(structure, last) == [];
    }
  }

  lemma StructureFaultMeans(s: Structure)
    ensures StructureFault(s) == [] <==> StructureProven(s)
  {
    hide FaultOf, ExpectedForStructure, AllowedForStructure, ProvesStructure, Backs, FieldProven, FieldFaults;
    StructureJudgesAgree(s.name, s.evidence);
    StructureEvidenceMeans(s.name, s.evidence);
    FieldFaultsMean(s.name, s.fields);
  }

  lemma {:induction false} BindingFaultsMean(bs: seq<Binding>)
    ensures BindingFaults(bs) == [] <==> forall b :: b in bs ==> BindingProven(b)
  {
    hide BindingFault, BindingProven;
    if bs != [] {
      var rest, last := bs[..|bs| - 1], bs[|bs| - 1];
      BindingFaultsMean(rest);
      BindingFaultMeans(last);
      assert bs == rest + [last];
      assert BindingFaults(bs) == [] <==> BindingFaults(rest) == [] && BindingFault(last) == [];
    }
  }

  lemma {:induction false} StructureFaultsMean(ss: seq<Structure>)
    ensures StructureFaults(ss) == [] <==> forall s :: s in ss ==> StructureProven(s)
  {
    hide StructureFault, StructureProven;
    if ss != [] {
      var rest, last := ss[..|ss| - 1], ss[|ss| - 1];
      StructureFaultsMean(rest);
      StructureFaultMeans(last);
      assert ss == rest + [last];
      assert StructureFaults(ss) == [] <==> StructureFaults(rest) == [] && StructureFault(last) == [];
    }
  }

  /**
    There is no evidence error exactly when every resolved binding, sized structure and
    resolved field is backed by its own proof line.
   */
  lemma EvidenceMeans(c: RuntimeContract)
    ensures EvidenceErrors(c) == []
            <==> && (forall b :: b in c.bindings ==> BindingProven(b))
                 && (forall s :: s in c.structures ==> StructureProven(s))
  {
    hide BindingProven, StructureProven;
    BindingFaultsMean(c.bindings);
    StructureFaultsMean(c.structures);
    hide BindingFaults, StructureFaults;
    assert EvidenceErrors(c) == [] <==> BindingFaults(c.bindings) == [] && StructureFaults(c.structures) == [];
  }
}
