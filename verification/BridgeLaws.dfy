/**
  Laws of applying bridge proofs to a contract: applying twice is applying once, updates of
  different entries commute, and two orders of the ready file's lines on which the
  validators agree give the same contract.
 */
module BridgeLaws {
  import opened Common
  import opened Evidence
  import opened Contract
  import opened BridgeProofs

  // ---- one update ----

  predicate Disjoint(u: Update, v: Update) {
    match (u, v)
    case (BindingUpdate(n, k, _), BindingUpdate(n', k', _)) => n != n' || k != k'
    case (StructureUpdate(n, _, _), StructureUpdate(n', _, _)) => n != n'
    case (FieldUpdate(s, f, _, _, _), FieldUpdate(s', f', _, _, _)) => s != s' || f != f'
    case _ => true
  }

  predicate Apart(u: Option<Update>, v: Option<Update>) {
    u.Some? && v.Some? ==> Disjoint(u.value, v.value)
  }

  lemma FindBindingIs(bs: seq<Binding>, name: string, kind: BindingKind, i: nat)
    requires i <= |bs|
    requires i < |bs| ==> bs[i].name == name && bs[i].kind == kind
    requires forall k :: 0 <= k < i ==> !(bs[k].name == name && bs[k].kind == kind)
    ensures FindBinding(bs, name, kind) == i
  {
  }

  lemma FindFieldIs(fs: seq<Field>, name: string, i: nat)
    requires i <= |fs| && (i < |fs| ==> fs[i].name == name)
    requires forall k :: 0 <= k < i ==> fs[k].name != name
    ensures FindField(fs, name) == i
  {
  }

  lemma FindStructureIs(ss: seq<Structure>, name: string, i: nat)
    requires i <= |ss| && (i < |ss| ==> ss[i].name == name)
    requires forall k :: 0 <= k < i ==> ss[k].name != name
    ensures FindStructure(ss, name) == i
  {
  }

  lemma FindAfterPutBinding(bs: seq<Binding>, n: string, k: BindingKind, e: string, n': string, k': BindingKind)
    ensures FindBinding(PutBinding(bs, n, k, e), n', k') == FindBinding(bs, n', k')
  {
    FindBindingIs(PutBinding(bs, n, k, e), n', k', FindBinding(bs, n', k'));
  }

  lemma BindingsCommute(bs: seq<Binding>, n: string, k: BindingKind, e: string,
                        n': string, k': BindingKind, e': string)
    requires n != n' || k != k'
    ensures PutBinding(PutBinding(bs, n, k, e), n', k', e') == PutBinding(PutBinding(bs, n', k', e'), n, k, e)
  {
    FindAfterPutBinding(bs, n, k, e, n', k');
    FindAfterPutBinding(bs, n', k', e', n, k);
    hide FindBinding;
  }

  lemma FieldsCommute(fs: seq<Field>, u: Update, v: Update)
    requires u.FieldUpdate? && v.FieldUpdate? && u.field != v.field
    ensures PutField(PutField(fs, u.field, u.offset, u.size, u.evidence), v.field, v.offset, v.size, v.evidence)
         == PutField(PutField(fs, v.field, v.offset, v.size, v.evidence), u.field, u.offset, u.size, u.evidence)
  {
    FindFieldIs(PutField(fs, u.field, u.offset, u.size, u.evidence), v.field, FindField(fs, v.field));
    FindFieldIs(PutField(fs, v.field, v.offset, v.size, v.evidence), u.field, FindField(fs, u.field));
  }

  lemma FindAfterPut(ss: seq<Structure>, u: Update, name: string)
    requires u.StructureUpdate? || u.FieldUpdate?
    ensures FindStructure(PutInto(ss, u), name) == FindStructure(ss, name)
  {
    FindStructureIs(PutInto(ss, u), name, FindStructure(ss, name));
  }

  lemma OnOneStructureCommute(s: Structure, u: Update, v: Update)
    requires !u.BindingUpdate? && !v.BindingUpdate? && Disjoint(u, v)
    requires StructureName(u) == StructureName(v)
    ensures PutStructure(PutStructure(s, u), v) == PutStructure(PutStructure(s, v), u)
  {
    if u.FieldUpdate? && v.FieldUpdate? {
      FieldsCommute(s.fields, u, v);
    }
  }

  lemma StructuresCommute(ss: seq<Structure>, u: Update, v: Update)
    requires !u.BindingUpdate? && !v.BindingUpdate? && Disjoint(u, v)
    ensures PutInto(PutInto(ss, u), v) == PutInto(PutInto(ss, v), u)
  {
    hide PutStructure;
    FindAfterPut(ss, u, StructureName(v));
    FindAfterPut(ss, v, StructureName(u));
    var i := FindStructure(ss, StructureName(u));
    if i < |ss| && StructureName(u) == StructureName(v) {
      OnOneStructureCommute(ss[i], u, v);
    }
  }

  lemma UpdatesCommute(c: RuntimeContract, u: Option<Update>, v: Option<Update>)
    requires Apart(u, v)
    ensures PutOption(PutOption(c, u), v) == PutOption(PutOption(c, v), u)
  {
    hide PutBinding, PutInto;
    if u.Some? && v.Some? {
      var a, b := u.value, v.value;
      if a.BindingUpdate? && b.BindingUpdate? {
        BindingsCommute(c.bindings, a.name, a.kind, a.evidence, b.name, b.kind, b.evidence);
      } else if !a.BindingUpdate? && !b.BindingUpdate? {
        StructuresCommute(c.structures, a, b);
      }
    }
  }

  lemma StructureTwice(s: Structure, u: Update)
    requires !u.BindingUpdate?
    ensures PutStructure(PutStructure(s, u), u) == PutStructure(s, u)
  {
    if u.FieldUpdate? {
      var fs := PutField(s.fields, u.field, u.offset, u.size, u.evidence);
      FindFieldIs(fs, u.field, FindField(s.fields, u.field));
    }
  }

  lemma UpdateTwice(c: RuntimeContract, u: Option<Update>)
    ensures PutOption(PutOption(c, u), u) == PutOption(c, u)
  {
    if u.Some? {
      var a := u.value;
      if a.BindingUpdate? {
        FindBindingIs(PutBinding(c.bindings, a.name, a.kind, a.evidence), a.name, a.kind,
                      FindBinding(c.bindings, a.name, a.kind));
      } else {
        FindAfterPut(c.structures, a, StructureName(a));
        var i := FindStructure(c.structures, StructureName(a));
        if i < |c.structures| {
          StructureTwice(c.structures[i], a);
        }
      }
    }
  }

  // ---- lists of updates ----

  ghost predicate PairwiseApart(us: seq<Option<Update>>) {
    forall a, b :: 0 <= a < b < |us| ==> Apart(us[a], us[b])
  }

  /** An update moves past updates of other entries. */
  lemma {:induction false} UpdatePast(c: RuntimeContract, u: Option<Update>, us: seq<Option<Update>>)
    requires forall k :: 0 <= k < |us| ==> Apart(u, us[k])
    ensures PutOption(PutAll(c, us), u) == PutAll(PutOption(c, u), us)
    decreases |us|
  {
    hide PutOption, Apart;
    if us == [] {
    } else {
      UpdatesCommute(c, u, us[0]);
      UpdatePast(PutOption(c, us[0]), u, us[1..]);
    }
  }

  lemma {:induction false} AllTwice(c: RuntimeContract, us: seq<Option<Update>>)
    requires PairwiseApart(us)
    ensures PutAll(PutAll(c, us), us) == PutAll(c, us)
    decreases |us|
  {
    hide PutOption, Apart;
    if us == [] {
    } else {
      var u, rest := us[0], us[1..];
      var once := PutAll(c, us);
      UpdatePast(PutOption(c, u), u, rest);
      UpdateTwice(c, u);
      AllTwice(PutOption(c, u), rest);
    }
  }

  /** Any update can be done first. */
  lemma {:induction false} PullFront(c: RuntimeContract, us: seq<Option<Update>>, i: nat)
    requires i < |us| && PairwiseApart(us)
    ensures PutAll(c, us) == PutAll(PutOption(c, us[i]), us[..i] + us[i + 1..])
    decreases i
  {
    hide PutOption, Apart;
    if i == 0 {
      assert us[..0] + us[1..] == us[1..];
    } else {
      PullFront(PutOption(c, us[0]), us[1..], i - 1);
      var rest := us[..i] + us[i + 1..];
      assert us[1..][..i - 1] + us[1..][i..] == rest[1..];
      UpdatesCommute(c, us[0], us[i]);
    }
  }

  lemma RemoveKeepsApart(us: seq<Option<Update>>, i: nat)
    requires i < |us| && PairwiseApart(us)
    ensures PairwiseApart(us[..i] + us[i + 1..])
  {
    hide Apart;
  }

  /** The first element of a list stands somewhere in every permutation of it. */
  lemma PermutationTail<T>(s: seq<T>, t: seq<T>) returns (i: nat)
    requires s != [] && multiset(s) == multiset(t)
    ensures i < |t| && t[i] == s[0] && multiset(s[1..]) == multiset(t[..i] + t[i + 1..])
  {
    assert s[0] in multiset(t);
    i :| 0 <= i < |t| && t[i] == s[0];
    assert s == [s[0]] + s[1..];
    assert t == t[..i] + [t[i]] + t[i + 1..];
    assert multiset(s[1..]) == multiset(s) - multiset{s[0]};
    assert multiset(t[..i] + t[i + 1..]) == multiset(t) - multiset{t[i]};
  }

  lemma {:induction false} OrderOfUpdates(c: RuntimeContract, us: seq<Option<Update>>, vs: seq<Option<Update>>)
    requires multiset(us) == multiset(vs) && PairwiseApart(us) && PairwiseApart(vs)
    ensures PutAll(c, us) == PutAll(c, vs)
    decreases |us|
  {
    hide PutOption, Apart;
    if us == [] {
      assert |multiset(vs)| == 0;
    } else {
      var i := PermutationTail(us, vs);
      PullFront(c, vs, i);
      RemoveKeepsApart(vs, i);
      OrderOfUpdates(PutOption(c, us[0]), us[1..], vs[..i] + vs[i + 1..]);
    }
  }

  // ---- from lines to updates ----

  lemma KeysGiveTargets(file: seq<string>, lib: Library, x: string, y: string)
    requires LineUpdate(file, lib, x).Some? && LineUpdate(file, lib, y).Some?
    requires !Clash(x, y)
    ensures Disjoint(LineUpdate(file, lib, x).value, LineUpdate(file, lib, y).value)
  {
    hide BindingRow, StructureRow, FieldRow;
    RowShapes(file, lib, x);
    RowShapes(file, lib, y);
    assert KeyOf(x) != KeyOf(y);
  }

  lemma BindingRowShape(file: seq<string>, lib: Library, name: string, value: string)
    requires BindingRow(file, lib, name, value).Some?
    ensures var u := BindingRow(file, lib, name, value).value; u.BindingUpdate? && u.name == name
  {
    hide AllowedForBinding, ProofHolds, ParseKind, SplitPipe;
  }

  lemma StructureRowShape(file: seq<string>, lib: Library, name: string, value: string)
    requires StructureRow(file, lib, name, value).Some?
    ensures var u := StructureRow(file, lib, name, value).value; u.StructureUpdate? && u.name == name && u.size > 0
  {
    hide AllowedForStructure, ProofHolds, SplitPipe;
  }

  lemma FieldRowShape(file: seq<string>, lib: Library, name: string, value: string)
    requires FieldRow(file, lib, name, value).Some?
    ensures var u := FieldRow(file, lib, name, value).value;
            u.FieldUpdate? && name == u.structure + "." + u.field && '.' !in u.field && u.size > 0
  {
    hide AllowedForField, ProofHolds, SplitPipe;
    var dot := LastIndexOf(name, '.');
    assert name == name[..dot] + "." + name[dot + 1..];
  }

  /** A row's target spells out the rest of its key. */
  lemma RowShapes(file: seq<string>, lib: Library, line: string)
    requires LineUpdate(file, lib, line).Some?
    ensures SensitiveLine(line)
    ensures match LineUpdate(file, lib, line).value
            case BindingUpdate(n, _, _) => KeyOf(line) == BINDING_PREFIX + n
            case StructureUpdate(n, size, _) => KeyOf(line) == STRUCTURE_PREFIX + n && size > 0
            case FieldUpdate(s, f, _, size, _) => KeyOf(line) == FIELD_PREFIX + s + "." + f && '.' !in f && size > 0
  {
    hide BindingRow, StructureRow, FieldRow;
    var key, value := KeyOf(line), ValueOf(line);
    if BINDING_PREFIX <= key {
      BindingRowShape(file, lib, key[|BINDING_PREFIX|..], value);
    } else if STRUCTURE_PREFIX <= key {
      StructureRowShape(file, lib, key[|STRUCTURE_PREFIX|..], value);
    } else {
      FieldRowShape(file, lib, key[|FIELD_PREFIX|..], value);
    }
  }

  lemma FileUpdatesApart(file: seq<string>, lib: Library, lines: seq<string>)
    requires UniqueEvidenceKeys(lines)
    ensures PairwiseApart(Updates(file, lib, lines))
  {
    hide LineUpdate, Clash, Disjoint;
    var us := Updates(file, lib, lines);
    forall a, b | 0 <= a < b < |us| ensures Apart(us[a], us[b]) {
      assert !Clash(lines[a], lines[b]);
      if us[a].Some? && us[b].Some? {
        KeysGiveTargets(file, lib, lines[a], lines[b]);
      }
    }
  }

  // ---- whole files ----

  /** What the environment must provide before a ready file is looked at. */
  datatype Environment = Environment(
    bridgeConfigured: bool,              // executorBridgePath is not empty
    processId: int,
    processText: string,                 // processId in decimal
    product: string,
    version: string,
    executable: string,
    samePath: (string, string) -> bool,  // equal after normalisation
    readyExists: bool,
    processOpens: bool)

  const VALIDATED_MODE := "validated-runtime-adapter"
  const PROTOCOL := "starcraft-api-file-bridge-v1"
  const PROTOCOL_LINE := "protocol=" + PROTOCOL

  predicate MatchesRuntime(env: Environment, lines: seq<string>) {
    && PROTOCOL_LINE in lines
    && "product=" + env.product in lines
    && (env.version == "" || "version=" + env.version in lines)
    && FirstValue(lines, "mode") == VALIDATED_MODE
  }

  predicate IdentityOk(env: Environment, lines: seq<string>) {
    && (env.processId > 0 ==> FirstValue(lines, "process_id") == env.processText)
    && (env.executable != "" ==>
          FirstValue(lines, "executable") != ""
          && env.samePath(FirstValue(lines, "executable"), env.executable))
  }

  ghost predicate Admitted(env: Environment, lines: seq<string>) {
    && env.bridgeConfigured && env.processId > 0 && env.readyExists
    && UniqueIdentityKeys(lines) && UniqueEvidenceKeys(lines)
    && MatchesRuntime(env, lines) && IdentityOk(env, lines) && env.processOpens
  }

  /** applyRuntimeExecutorBridgeContractProofs. */
  ghost function Apply(env: Environment, lines: seq<string>, lib: Library, c: RuntimeContract): RuntimeContract {
    if Admitted(env, lines) then ApplyLines(lines, lib, c) else c
  }

  /** Applying the bridge's proofs again changes nothing. */
  lemma ApplyIsIdempotent(env: Environment, lines: seq<string>, lib: Library, c: RuntimeContract)
    ensures Apply(env, lines, lib, Apply(env, lines, lib, c)) == Apply(env, lines, lib, c)
  {
    hide PutAll, Updates, MatchesRuntime, IdentityOk;
    if Admitted(env, lines) {
      FileUpdatesApart(lines, lib, lines);
      AllTwice(c, Updates(lines, lib, lines));
    }
  }

  // ---- order of lines ----

  lemma SameMembers(s: seq<string>, t: seq<string>, x: string)
    requires multiset(s) == multiset(t)
    ensures x in s <==> x in t
  {
    assert x in s <==> x in multiset(s);
    assert x in t <==> x in multiset(t);
  }

  /** The validators give the same verdicts on two files. */
  ghost predicate SameVerdicts(lib: Library, s: seq<string>, t: seq<string>) {
    forall line :: lib.validated(s, line) == lib.validated(t, line)
  }

  lemma SameLineUpdate(s: seq<string>, t: seq<string>, lib: Library, line: string)
    requires multiset(s) == multiset(t) && SameVerdicts(lib, s, t)
    ensures LineUpdate(s, lib, line) == LineUpdate(t, lib, line)
  {
    hide AllowedForBinding, AllowedForStructure, AllowedForField, ParseKind, SplitPipe, LastIndexOf;
    forall e: string ensures ProofHolds(s, lib, e) == ProofHolds(t, lib, e) {
      SameMembers(s, t, ProofLine(e));
    }
  }

  lemma {:induction false} CountOfConcat(s: seq<string>, t: seq<string>, key: string)
    ensures KeyCount(s + t, key) == KeyCount(s, key) + KeyCount(t, key)
    decreases |s|
  {
    if s == [] {
      assert s + t == t;
    } else {
      assert (s + t)[1..] == s[1..] + t;
      CountOfConcat(s[1..], t, key);
    }
  }

  lemma {:induction false} CountOfPermutation(s: seq<string>, t: seq<string>, key: string)
    requires multiset(s) == multiset(t)
    ensures KeyCount(s, key) == KeyCount(t, key)
    decreases |s|
  {
    if s == [] {
      assert |multiset(t)| == 0;
    } else {
      var i := PermutationTail(s, t);
      CountOfPermutation(s[1..], t[..i] + t[i + 1..], key);
      CountOfConcat(t[..i], t[i + 1..], key);
      assert t == t[..i] + ([t[i]] + t[i + 1..]);
      CountOfConcat(t[..i], [t[i]] + t[i + 1..], key);
      CountOfConcat([t[i]], t[i + 1..], key);
      assert s == [s[0]] + s[1..];
      CountOfConcat([s[0]], s[1..], key);
    }
  }

  lemma {:induction false} CountedIfPresent(s: seq<string>, key: string, line: string)
    requires line in s && key + "=" <= line
    ensures KeyCount(s, key) >= 1
  {
    if s[0] == line {
    } else {
      CountedIfPresent(s[1..], key, line);
    }
  }

  /** A key that stands in one line at most has the value of that line. */
  lemma {:induction false} OnlyValue(s: seq<string>, key: string, line: string)
    requires KeyCount(s, key) <= 1 && line in s && key + "=" <= line
    ensures FirstValue(s, key) == line[|key| + 1..]
    decreases |s|
  {
    if key + "=" <= s[0] {
      if s[0] != line {
        CountedIfPresent(s[1..], key, line);
      }
    } else {
      OnlyValue(s[1..], key, line);
    }
  }

  lemma {:induction false} NoValue(s: seq<string>, key: string)
    requires KeyCount(s, key) == 0
    ensures FirstValue(s, key) == ""
  {
    if s == [] {
    } else {
      NoValue(s[1..], key);
    }
  }

  lemma {:induction false} SomeLine(s: seq<string>, key: string) returns (line: string)
    requires KeyCount(s, key) > 0
    ensures line in s && key + "=" <= line
    decreases |s|
  {
    if key + "=" <= s[0] {
      line := s[0];
    } else {
      line := SomeLine(s[1..], key);
    }
  }

  lemma ValueOfPermutation(s: seq<string>, t: seq<string>, key: string)
    requires multiset(s) == multiset(t) && KeyCount(s, key) <= 1
    ensures FirstValue(s, key) == FirstValue(t, key)
  {
    CountOfPermutation(s, t, key);
    if KeyCount(s, key) == 0 {
      NoValue(s, key);
      NoValue(t, key);
    } else {
      var line := SomeLine(s, key);
      SameMembers(s, t, line);
      OnlyValue(s, key, line);
      OnlyValue(t, key, line);
    }
  }

  lemma TwicePresent(s: seq<string>, x: string)
    requires multiset(s)[x] >= 2
    ensures exists i, j :: 0 <= i < j < |s| && s[i] == x && s[j] == x
  {
    assert x in s;
    var i :| 0 <= i < |s| && s[i] == x;
    assert s == s[..i] + [x] + s[i + 1..];
    if x in s[..i] {
      var k :| 0 <= k < i && s[k] == x;
      assert 0 <= k < i < |s| && s[k] == x && s[i] == x;
    } else {
      assert multiset(s[..i])[x] == 0;
      assert multiset(s[i + 1..])[x] >= 1;
      assert x in s[i + 1..];
      var k :| 0 <= k < |s[i + 1..]| && s[i + 1..][k] == x;
      assert 0 <= i < i + 1 + k < |s| && s[i] == x && s[i + 1 + k] == x;
    }
  }

  lemma TwiceCounted(s: seq<string>, i: nat, j: nat)
    requires i < j < |s| && s[i] == s[j]
    ensures multiset(s)[s[i]] >= 2
  {
    assert s == s[..i] + [s[i]] + s[i + 1..j] + [s[j]] + s[j + 1..];
  }

  lemma UniqueKeysOfPermutation(s: seq<string>, t: seq<string>)
    requires multiset(s) == multiset(t) && UniqueEvidenceKeys(s)
    ensures UniqueEvidenceKeys(t)
  {
    hide Clash;
    forall a, b | 0 <= a < b < |t| ensures !Clash(t[a], t[b]) {
      if t[a] == t[b] {
        TwiceCounted(t, a, b);
        TwicePresent(s, t[a]);
        var i, j :| 0 <= i < j < |s| && s[i] == t[a] && s[j] == t[a];
        assert !Clash(s[i], s[j]);
      } else {
        SameMembers(s, t, t[a]);
        SameMembers(s, t, t[b]);
        var i :| 0 <= i < |s| && s[i] == t[a];
        var j :| 0 <= j < |s| && s[j] == t[b];
        ClashIsSymmetric(t[a], t[b]);
        assert i < j ==> !Clash(s[i], s[j]);
        assert j < i ==> !Clash(s[j], s[i]);
      }
    }
  }

  lemma ClashIsSymmetric(x: string, y: string)
    ensures Clash(x, y) == Clash(y, x)
  {
    hide Sensitive;
  }

  lemma IdentityKeysOfPermutation(s: seq<string>, t: seq<string>)
    requires multiset(s) == multiset(t) && UniqueIdentityKeys(s)
    ensures UniqueIdentityKeys(t)
    ensures FirstValue(s, "mode") == FirstValue(t, "mode")
    ensures FirstValue(s, "process_id") == FirstValue(t, "process_id")
    ensures FirstValue(s, "executable") == FirstValue(t, "executable")
  {
    hide FirstValue, KeyCount;
    forall i | 0 <= i < |IDENTITY_KEYS| ensures KeyCount(t, IDENTITY_KEYS[i]) <= 1 {
      CountOfPermutation(s, t, IDENTITY_KEYS[i]);
    }
    assert IDENTITY_KEYS[3] == "mode" && IDENTITY_KEYS[4] == "process_id" && IDENTITY_KEYS[5] == "executable";
    ValueOfPermutation(s, t, "mode");
    ValueOfPermutation(s, t, "process_id");
    ValueOfPermutation(s, t, "executable");
  }

  lemma AdmittedOfPermutation(env: Environment, s: seq<string>, t: seq<string>)
    requires multiset(s) == multiset(t) && Admitted(env, s)
    ensures Admitted(env, t)
  {
    hide FirstValue, KeyCount, Clash;
    UniqueKeysOfPermutation(s, t);
    IdentityKeysOfPermutation(s, t);
    SameMembers(s, t, PROTOCOL_LINE);
    SameMembers(s, t, "product=" + env.product);
    SameMembers(s, t, "version=" + env.version);
  }

  lemma {:induction false} UpdatesOfPermutation(file: seq<string>, lib: Library, s: seq<string>, t: seq<string>)
    requires multiset(s) == multiset(t)
    ensures multiset(Updates(file, lib, s)) == multiset(Updates(file, lib, t))
    decreases |s|
  {
    hide LineUpdate;
    if s == [] {
      assert |multiset(t)| == 0;
      assert Updates(file, lib, s) == Updates(file, lib, t);
    } else {
      var i := PermutationTail(s, t);
      UpdatesOfPermutation(file, lib, s[1..], t[..i] + t[i + 1..]);
      var us, vs := Updates(file, lib, s), Updates(file, lib, t);
      assert us == [us[0]] + us[1..] && us[1..] == Updates(file, lib, s[1..]);
      assert vs == vs[..i] + [vs[i]] + vs[i + 1..];
      assert vs[..i] + vs[i + 1..] == Updates(file, lib, t[..i] + t[i + 1..]);
    }
  }

  lemma SameFileUpdates(s: seq<string>, t: seq<string>, lib: Library)
    requires multiset(s) == multiset(t) && SameVerdicts(lib, s, t)
    ensures Updates(s, lib, t) == Updates(t, lib, t)
  {
    hide LineUpdate;
    forall i | 0 <= i < |t| ensures LineUpdate(s, lib, t[i]) == LineUpdate(t, lib, t[i]) {
      SameLineUpdate(s, t, lib, t[i]);
    }
  }

  /** Apart from the validators, reordering the ready file's lines changes nothing. */
  lemma VerdictsDecideOrder(env: Environment, s: seq<string>, t: seq<string>, lib: Library, c: RuntimeContract)
    requires multiset(s) == multiset(t) && SameVerdicts(lib, s, t)
    ensures Apply(env, s, lib, c) == Apply(env, t, lib, c)
  {
    hide PutAll, Updates, MatchesRuntime, IdentityOk, UniqueIdentityKeys, Clash, SameVerdicts;
    if Admitted(env, s) {
      AdmittedOfPermutation(env, s, t);
      FileUpdatesApart(s, lib, s);
      FileUpdatesApart(t, lib, t);
      UpdatesOfPermutation(s, lib, s, t);
      SameFileUpdates(s, t, lib);
      OrderOfUpdates(c, Updates(s, lib, s), Updates(t, lib, t));
    } else if Admitted(env, t) {
      AdmittedOfPermutation(env, t, s);
    }
  }
}
