/**
  Applying bridge proofs only ever helps a contract: entries keep their identity, nothing
  resolved becomes unresolved, and the lists of validation errors and of production
  evidence errors can only lose elements.
 */
module BridgeMonotone {
  import opened Common
  import opened Evidence
  import opened Contract
  import opened BridgeProofs
  import opened BridgeLaws

  // ---- what an update may do to one entry ----

  ghost predicate BindingHelped(b: Binding, b': Binding) {
    || b' == b
    || (b' == b.(resolved := true, evidence := b'.evidence)
        && AllowedForBinding(b'.name, b'.kind, b'.evidence))
  }

  ghost predicate FieldHelped(structure: string, f: Field, f': Field) {
    || f' == f
    || (f'.name == f.name && f'.resolved && f'.size > 0
        && AllowedForField(structure, f'.name, f'.evidence))
  }

  ghost predicate FieldsHelped(structure: string, fs: seq<Field>, fs': seq<Field>) {
    |fs'| == |fs| && forall i :: 0 <= i < |fs| ==> FieldHelped(structure, fs[i], fs'[i])
  }

  ghost predicate StructureHelped(s: Structure, s': Structure) {
    && s'.name == s.name && s'.required == s.required
    && ((s'.size == s.size && s'.evidence == s.evidence)
        || (s'.size > 0 && AllowedForStructure(s'.name, s'.evidence)))
    && FieldsHelped(s.name, s.fields, s'.fields)
  }

  ghost predicate BindingsHelped(bs: seq<Binding>, bs': seq<Binding>) {
    |bs'| == |bs| && forall i :: 0 <= i < |bs| ==> BindingHelped(bs[i], bs'[i])
  }

  ghost predicate StructuresHelped(ss: seq<Structure>, ss': seq<Structure>) {
    |ss'| == |ss| && forall i :: 0 <= i < |ss| ==> StructureHelped(ss[i], ss'[i])
  }

  /** c' is c with some entries resolved by accepted evidence, and nothing else changed. */
  ghost predicate Helped(c: RuntimeContract, c': RuntimeContract) {
    && c' == c.(bindings := c'.bindings, structures := c'.structures)
    && BindingsHelped(c.bindings, c'.bindings)
    && StructuresHelped(c.structures, c'.structures)
  }

  ghost predicate Acceptable(u: Update) {
    match u
    case BindingUpdate(n, k, e) => AllowedForBinding(n, k, e)
    case StructureUpdate(n, size, e) => size > 0 && AllowedForStructure(n, e)
    case FieldUpdate(s, f, _, size, e) => size > 0 && AllowedForField(s, f, e)
  }

  lemma RowsAreAcceptable(file: seq<string>, lib: Library, line: string)
    ensures var u := LineUpdate(file, lib, line); u.Some? ==> Acceptable(u.value)
  {
    hide AllowedForBinding, AllowedForStructure, AllowedForField, ProofHolds, ParseKind, SplitPipe;
  }

  lemma PutHelps(c: RuntimeContract, u: Update)
    requires Acceptable(u)
    ensures Helped(c, Put(c, u))
  {
    hide AllowedForBinding, AllowedForStructure, AllowedForField;
    if !u.BindingUpdate? {
      var i := FindStructure(c.structures, StructureName(u));
      if i < |c.structures| {
        var s := c.structures[i];
        if u.FieldUpdate? {
          assert FieldsHelped(s.name, s.fields, PutStructure(s, u).fields);
        } else {
          assert FieldsHelped(s.name, s.fields, s.fields);
        }
        assert StructureHelped(s, PutStructure(s, u));
      }
      assert forall k :: 0 <= k < |c.structures| ==> StructureHelped(c.structures[k], c.structures[k]);
    }
  }

  lemma FieldsHelpedTwice(structure: string, a: seq<Field>, b: seq<Field>, c: seq<Field>)
    requires FieldsHelped(structure, a, b) && FieldsHelped(structure, b, c)
    ensures FieldsHelped(structure, a, c)
  {
    hide AllowedForField;
    forall i | 0 <= i < |a| ensures FieldHelped(structure, a[i], c[i]) {
      assert FieldHelped(structure, a[i], b[i]) && FieldHelped(structure, b[i], c[i]);
    }
  }

  lemma StructuresHelpedTwice(a: seq<Structure>, b: seq<Structure>, c: seq<Structure>)
    requires StructuresHelped(a, b) && StructuresHelped(b, c)
    ensures StructuresHelped(a, c)
  {
    hide AllowedForStructure, FieldsHelped;
    forall i | 0 <= i < |a| ensures StructureHelped(a[i], c[i]) {
      assert StructureHelped(a[i], b[i]) && StructureHelped(b[i], c[i]);
      FieldsHelpedTwice(a[i].name, a[i].fields, b[i].fields, c[i].fields);
    }
  }

  lemma BindingsHelpedTwice(a: seq<Binding>, b: seq<Binding>, c: seq<Binding>)
    requires BindingsHelped(a, b) && BindingsHelped(b, c)
    ensures BindingsHelped(a, c)
  {
    hide AllowedForBinding;
    forall i | 0 <= i < |a| ensures BindingHelped(a[i], c[i]) {
      assert BindingHelped(a[i], b[i]) && BindingHelped(b[i], c[i]);
    }
  }

  lemma HelpedByNothing(c: RuntimeContract)
    ensures Helped(c, c)
  {
    forall i | 0 <= i < |c.structures| ensures StructureHelped(c.structures[i], c.structures[i]) {
      assert FieldsHelped(c.structures[i].name, c.structures[i].fields, c.structures[i].fields);
    }
  }

  lemma {:induction false} PutAllHelps(c: RuntimeContract, us: seq<Option<Update>>)
    requires forall i :: 0 <= i < |us| && us[i].Some? ==> Acceptable(us[i].value)
    ensures Helped(c, PutAll(c, us))
    decreases |us|
  {
    hide Put, Acceptable, BindingsHelped, StructuresHelped;
    if us == [] {
      HelpedByNothing(c);
    } else {
      var d := PutOption(c, us[0]);
      if us[0].Some? {
        PutHelps(c, us[0].value);
      } else {
        HelpedByNothing(c);
      }
      PutAllHelps(d, us[1..]);
      BindingsHelpedTwice(c.bindings, d.bindings, PutAll(c, us).bindings);
      StructuresHelpedTwice(c.structures, d.structures, PutAll(c, us).structures);
    }
  }

  lemma ApplyHelps(env: Environment, lines: seq<string>, lib: Library, c: RuntimeContract)
    ensures Helped(c, Apply(env, lines, lib, c))
  {
    hide LineUpdate, PutAll, Helped, Acceptable, Admitted;
    if Admitted(env, lines) {
      var us := Updates(lines, lib, lines);
      forall i | 0 <= i < |us| && us[i].Some? ensures Acceptable(us[i].value) {
        RowsAreAcceptable(lines, lib, lines[i]);
      }
      PutAllHelps(c, us);
    } else {
      HelpedByNothing(c);
    }
  }

  /** Nothing is ever unresolved and no entry changes its identity. */
  lemma ApplyNeverUnresolves(env: Environment, lines: seq<string>, lib: Library, c: RuntimeContract)
    ensures var d := Apply(env, lines, lib, c);
            && |d.bindings| == |c.bindings| && |d.structures| == |c.structures|
            && (forall i :: 0 <= i < |c.bindings| ==>
                  && d.bindings[i].name == c.bindings[i].name && d.bindings[i].kind == c.bindings[i].kind
                  && (c.bindings[i].resolved ==> d.bindings[i].resolved))
            && (forall i :: 0 <= i < |c.structures| ==>
                  && d.structures[i].name == c.structures[i].name
                  && (c.structures[i].size != 0 ==> d.structures[i].size != 0)
                  && |d.structures[i].fields| == |c.structures[i].fields|
                  && forall k :: 0 <= k < |c.structures[i].fields| ==>
                       d.structures[i].fields[k].name == c.structures[i].fields[k].name
                       && (c.structures[i].fields[k].resolved ==> d.structures[i].fields[k].resolved))
  {
    hide Apply, AllowedForBinding, AllowedForStructure, AllowedForField;
    ApplyHelps(env, lines, lib, c);
    var d := Apply(env, lines, lib, c);
    forall i | 0 <= i < |c.bindings| ensures BindingHelped(c.bindings[i], d.bindings[i]) {
    }
    forall i | 0 <= i < |c.structures| ensures StructureHelped(c.structures[i], d.structures[i]) {
    }
  }

  // ---- validation errors ----

  lemma {:induction false} FieldsErrorsShrink(s: Structure, s': Structure, n: nat)
    requires StructureHelped(s, s') && n <= |s.fields|
    ensures IsSubsequence(FieldsErrors(s', s'.fields[..n]), FieldsErrors(s, s.fields[..n]))
    decreases n
  {
    hide AllowedForStructure, AllowedForField;
    if n == 0 {
    } else {
      FieldsErrorsShrink(s, s', n - 1);
      assert s.fields[..n][..n - 1] == s.fields[..n - 1] && s'.fields[..n][..n - 1] == s'.fields[..n - 1];
      var f, f' := s.fields[n - 1], s'.fields[n - 1];
      assert FieldHelped(s.name, f, f');
      FieldErrorsShrink(s, s', f, f');
      SubsequenceConcat(FieldsErrors(s', s'.fields[..n - 1]), FieldsErrors(s, s.fields[..n - 1]),
                        FieldErrors(s', f'), FieldErrors(s, f));
    }
  }

  lemma FieldErrorsShrink(s: Structure, s': Structure, f: Field, f': Field)
    requires s'.name == s.name && s'.required == s.required && FieldHelped(s.name, f, f')
    ensures IsSubsequence(FieldErrors(s', f'), FieldErrors(s, f))
  {
    hide AllowedForField;
    SubsequenceReflexive(FieldErrors(s, f));
    EmptyIsSubsequence(FieldErrors(s, f));
  }

  lemma StructureErrorsShrink(s: Structure, s': Structure)
    requires StructureHelped(s, s')
    ensures IsSubsequence(StructureErrors(s'), StructureErrors(s))
  {
    hide AllowedForStructure, FieldsHelped, FieldsErrors;
    var n := |s.fields|;
    assert n == |s'.fields| by {
      assert FieldsHelped(s.name, s.fields, s'.fields);
      FieldsHelpedLength(s.name, s.fields, s'.fields);
    }
    FieldsErrorsShrink(s, s', n);
    assert s.fields[..n] == s.fields && s'.fields[..n] == s'.fields;
    if s.name == "" {
      SubsequenceReflexive(StructureErrors(s));
    } else {
      var own := if s.required && s.size == 0 then [StructureUnsized(s.name)] else [];
      var own' := if s'.required && s'.size == 0 then [StructureUnsized(s'.name)] else [];
      SubsequenceReflexive(own);
      EmptyIsSubsequence(own);
      SubsequenceConcat(own', own, FieldsErrors(s', s'.fields), FieldsErrors(s, s.fields));
    }
  }

  lemma FieldsHelpedLength(structure: string, fs: seq<Field>, fs': seq<Field>)
    requires FieldsHelped(structure, fs, fs')
    ensures |fs'| == |fs|
  {
  }

  lemma {:induction false} StructuresErrorsShrink(ss: seq<Structure>, ss': seq<Structure>)
    requires StructuresHelped(ss, ss')
    ensures IsSubsequence(StructuresErrors(ss'), StructuresErrors(ss))
    decreases |ss|
  {
    hide StructureHelped, StructureErrors;
    if ss == [] {
    } else {
      var n := |ss| - 1;
      StructuresErrorsShrink(ss[..n], ss'[..n]);
      StructureErrorsShrink(ss[n], ss'[n]);
      SubsequenceConcat(StructuresErrors(ss'[..n]), StructuresErrors(ss[..n]),
                        StructureErrors(ss'[n]), StructureErrors(ss[n]));
    }
  }

  lemma BindingErrorsShrink(b: Binding, b': Binding)
    requires BindingHelped(b, b')
    ensures IsSubsequence(BindingErrors(b'), BindingErrors(b))
  {
    hide AllowedForBinding;
    SubsequenceReflexive(BindingErrors(b));
    EmptyIsSubsequence(BindingErrors(b));
  }

  lemma {:induction false} BindingsErrorsShrink(bs: seq<Binding>, bs': seq<Binding>)
    requires BindingsHelped(bs, bs')
    ensures IsSubsequence(BindingsErrors(bs'), BindingsErrors(bs))
    decreases |bs|
  {
    hide BindingHelped, BindingErrors;
    if bs == [] {
    } else {
      var n := |bs| - 1;
      BindingsErrorsShrink(bs[..n], bs'[..n]);
      BindingErrorsShrink(bs[n], bs'[n]);
      SubsequenceConcat(BindingsErrors(bs'[..n]), BindingsErrors(bs[..n]),
                        BindingErrors(bs'[n]), BindingErrors(bs[n]));
    }
  }

  /** The validation errors after applying the bridge are some of those before, in order. */
  lemma ApplyNeverAddsErrors(env: Environment, lines: seq<string>, lib: Library, c: RuntimeContract)
    ensures IsSubsequence(ValidationErrors(Apply(env, lines, lib, c)), ValidationErrors(c))
  {
    hide Apply, BindingsHelped, StructuresHelped, BindingsErrors, StructuresErrors;
    ApplyHelps(env, lines, lib, c);
    var d := Apply(env, lines, lib, c);
    BindingsErrorsShrink(c.bindings, d.bindings);
    StructuresErrorsShrink(c.structures, d.structures);
    assert HeaderErrors(d) == HeaderErrors(c);
    SubsequenceReflexive(HeaderErrors(c));
    hide HeaderErrors;
    SubsequenceConcat(HeaderErrors(d), HeaderErrors(c), BindingsErrors(d.bindings), BindingsErrors(c.bindings));
    SubsequenceConcat(HeaderErrors(d) + BindingsErrors(d.bindings), HeaderErrors(c) + BindingsErrors(c.bindings),
                      StructuresErrors(d.structures), StructuresErrors(c.structures));
  }

  // ---- production evidence errors ----

  lemma BindingFaultShrinks(b: Binding, b': Binding)
    requires BindingHelped(b, b')
    ensures IsSubsequence(BindingFault(b'), BindingFault(b))
  {
    hide AllowedForBinding, FaultOf, ExpectedForBinding;
    BindingJudgesAgree(b'.name, b'.kind, b'.evidence);
    SubsequenceReflexive(BindingFault(b));
    EmptyIsSubsequence(BindingFault(b));
  }

  lemma FieldFaultShrinks(structure: string, f: Field, f': Field)
    requires FieldHelped(structure, f, f')
    ensures IsSubsequence(FieldFault(structure, f'), FieldFault(structure, f))
  {
    hide AllowedForField, FaultOf, ExpectedForField;
    FieldJudgesAgree(structure, f'.name, f'.evidence);
    SubsequenceReflexive(FieldFault(structure, f));
    EmptyIsSubsequence(FieldFault(structure, f));
  }

  lemma {:induction false} FieldFaultsShrink(structure: string, fs: seq<Field>, fs': seq<Field>)
    requires FieldsHelped(structure, fs, fs')
    ensures IsSubsequence(FieldFaults(structure, fs'), FieldFaults(structure, fs))
    decreases |fs|
  {
    hide FieldHelped, FieldFault;
    if fs == [] {
    } else {
      var n := |fs| - 1;
      FieldFaultsShrink(structure, fs[..n], fs'[..n]);
      FieldFaultShrinks(structure, fs[n], fs'[n]);
      SubsequenceConcat(FieldFaults(structure, fs'[..n]), FieldFaults(structure, fs[..n]),
                        FieldFault(structure, fs'[n]), FieldFault(structure, fs[n]));
    }
  }

  lemma StructureFaultShrinks(s: Structure, s': Structure)
    requires StructureHelped(s, s')
    ensures IsSubsequence(StructureFault(s'), StructureFault(s))
  {
    hide AllowedForStructure, FaultOf, ExpectedForStructure, FieldsHelped, FieldFaults;
    StructureJudgesAgree(s'.name, s'.evidence);
    FieldFaultsShrink(s.name, s.fields, s'.fields);
    var own := if s.size != 0 then Fault(s.name, s.evidence, ExpectedForStructure(s.name)) else [];
    var own' := if s'.size != 0 then Fault(s'.name, s'.evidence, ExpectedForStructure(s'.name)) else [];
    SubsequenceReflexive(own);
    EmptyIsSubsequence(own);
    SubsequenceConcat(own', own, FieldFaults(s.name, s'.fields), FieldFaults(s.name, s.fields));
  }

  lemma {:induction false} StructureFaultsShrink(ss: seq<Structure>, ss': seq<Structure>)
    requires StructuresHelped(ss, ss')
    ensures IsSubsequence(StructureFaults(ss'), StructureFaults(ss))
    decreases |ss|
  {
    hide StructureHelped, StructureFault;
    if ss == [] {
    } else {
      var n := |ss| - 1;
      StructureFaultsShrink(ss[..n], ss'[..n]);
      StructureFaultShrinks(ss[n], ss'[n]);
      SubsequenceConcat(StructureFaults(ss'[..n]), StructureFaults(ss[..n]),
                        StructureFault(ss'[n]), StructureFault(ss[n]));
    }
  }

  lemma {:induction false} BindingFaultsShrink(bs: seq<Binding>, bs': seq<Binding>)
    requires BindingsHelped(bs, bs')
    ensures IsSubsequence(BindingFaults(bs'), BindingFaults(bs))
    decreases |bs|
  {
    hide BindingHelped, BindingFault;
    if bs == [] {
    } else {
      var n := |bs| - 1;
      BindingFaultsShrink(bs[..n], bs'[..n]);
      BindingFaultShrinks(bs[n], bs'[n]);
      SubsequenceConcat(BindingFaults(bs'[..n]), BindingFaults(bs[..n]),
                        BindingFault(bs'[n]), BindingFault(bs[n]));
    }
  }

  /** Evidence the bridge brings in never fails the contract's own evidence check. */
  lemma ApplyNeverAddsEvidenceErrors(env: Environment, lines: seq<string>, lib: Library, c: RuntimeContract)
    ensures IsSubsequence(EvidenceErrors(Apply(env, lines, lib, c)), EvidenceErrors(c))
  {
    hide Apply, BindingsHelped, StructuresHelped, BindingFaults, StructureFaults;
    ApplyHelps(env, lines, lib, c);
    var d := Apply(env, lines, lib, c);
    BindingFaultsShrink(c.bindings, d.bindings);
    StructureFaultsShrink(c.structures, d.structures);
    SubsequenceConcat(BindingFaults(d.bindings), BindingFaults(c.bindings),
                      StructureFaults(d.structures), StructureFaults(c.structures));
  }
}
