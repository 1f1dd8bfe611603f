/**
  Whether the order of the ready file's lines matters.  The validators read the file again,
  and of a key that stands on several lines they see the first value.  Applying the bridge's
  proofs is independent of the order exactly when no key they read has two values, or when
  the file is not admitted or has no row that could apply.
 */
module BridgeOrder {
  import opened Common
  import opened Evidence
  import opened Contract
  import opened BridgeProofs
  import opened BridgeLaws
  import opened BridgeMonotone

  type Verdicts = (seq<string>, string) -> bool

  predicate Gives(line: string, key: string) {
    key + "=" <= line
  }

  /** The key stands on one line only, or on copies of one line. */
  ghost predicate Uniform(lines: seq<string>, key: string) {
    forall x, y :: x in lines && y in lines && Gives(x, key) && Gives(y, key) ==> x == y
  }

  ghost predicate SameFirstValues(s: seq<string>, t: seq<string>, keys: set<string>) {
    forall key :: key in keys ==> FirstValue(s, key) == FirstValue(t, key)
  }

  /** The verdicts depend on which lines the file has and on the first values of these keys. */
  ghost predicate ReadsOnly(verdicts: Verdicts, keys: set<string>) {
    forall s, t, line :: multiset(s) == multiset(t) && SameFirstValues(s, t, keys) ==>
      verdicts(s, line) == verdicts(t, line)
  }

  /** Every order of the lines gives the same contract, for all such validators. */
  ghost predicate OrderFree(env: Environment, lines: seq<string>, keys: set<string>, parseSize: string -> Option<nat>) {
    forall verdicts: Verdicts, t: seq<string>, c: RuntimeContract ::
      ReadsOnly(verdicts, keys) && multiset(t) == multiset(lines) ==>
        Apply(env, t, Library(verdicts, parseSize), c) == Apply(env, lines, Library(verdicts, parseSize), c)
  }

  /** Validators that accept every proof line. */
  function Lenient(parseSize: string -> Option<nat>): Library {
    Library((file, line) => true, parseSize)
  }

  /** The line is a row that applies as soon as its proof line is validated. */
  predicate Ripe(lines: seq<string>, parseSize: string -> Option<nat>, line: string) {
    LineUpdate(lines, Lenient(parseSize), line).Some?
  }

  predicate HasRipeRow(lines: seq<string>, parseSize: string -> Option<nat>) {
    exists i :: 0 <= i < |lines| && Ripe(lines, parseSize, lines[i])
  }

  // ---- first values ----

  lemma {:induction false} FirstValueIs(s: seq<string>, key: string)
    ensures (forall line :: line in s ==> !Gives(line, key)) ==> FirstValue(s, key) == ""
    ensures (exists line :: line in s && Gives(line, key)) ==>
              exists line :: line in s && Gives(line, key) && FirstValue(s, key) == line[|key| + 1..]
  {
    if s == [] {
    } else if Gives(s[0], key) {
      assert s[0] in s;
    } else {
      FirstValueIs(s[1..], key);
      assert forall line :: line in s ==> line == s[0] || line in s[1..];
      assert forall line :: line in s[1..] ==> line in s;
    }
  }

  lemma UniformFirstValue(s: seq<string>, t: seq<string>, key: string)
    requires multiset(s) == multiset(t) && Uniform(s, key)
    ensures FirstValue(s, key) == FirstValue(t, key)
  {
    forall line ensures line in s <==> line in t {
      SameMembers(s, t, line);
    }
    FirstValueIs(s, key);
    FirstValueIs(t, key);
  }

  lemma ToFront(lines: seq<string>, x: string, key: string) returns (t: seq<string>)
    requires x in lines && Gives(x, key)
    ensures multiset(t) == multiset(lines) && FirstValue(t, key) == x[|key| + 1..]
  {
    var i :| 0 <= i < |lines| && lines[i] == x;
    t := [x] + (lines[..i] + lines[i + 1..]);
    assert lines == lines[..i] + [x] + lines[i + 1..];
  }

  // ---- verdicts and updates ----

  lemma AcceptedLikeLenient(file: seq<string>, lib: Library, line: string)
    requires forall l :: lib.validated(file, l)
    ensures LineUpdate(file, lib, line) == LineUpdate(file, Lenient(lib.parseSize), line)
  {
    hide AllowedForBinding, AllowedForStructure, AllowedForField, ParseKind, SplitPipe, LastIndexOf;
    forall e: string ensures ProofHolds(file, lib, e) == ProofHolds(file, Lenient(lib.parseSize), e) {
    }
  }

  lemma RefusedMeansNone(file: seq<string>, lib: Library, line: string)
    requires forall l :: !lib.validated(file, l)
    ensures LineUpdate(file, lib, line).None?
  {
    hide AllowedForBinding, AllowedForStructure, AllowedForField, ParseKind, SplitPipe, LastIndexOf;
    forall e: string ensures !ProofHolds(file, lib, e) {
    }
  }

  lemma UpdateNeedsRipe(file: seq<string>, lib: Library, line: string)
    ensures LineUpdate(file, lib, line).Some? ==> Ripe(file, lib.parseSize, line)
  {
    hide AllowedForBinding, AllowedForStructure, AllowedForField, ParseKind, SplitPipe, LastIndexOf;
    forall e: string ensures ProofHolds(file, lib, e) ==> ProofHolds(file, Lenient(lib.parseSize), e) {
    }
  }

  lemma {:induction false} NothingApplied(c: RuntimeContract, us: seq<Option<Update>>)
    requires forall i :: 0 <= i < |us| ==> us[i].None?
    ensures PutAll(c, us) == c
    decreases |us|
  {
    if us == [] {
    } else {
      NothingApplied(c, us[1..]);
    }
  }

  // ---- a contract that shows the difference ----

  /** A contract whose only entry is the one the update is for, still open. */
  function Blank(u: Update): RuntimeContract {
    var empty := RuntimeContract(UnknownProduct, "", 0, 0, [], [], []);
    match u
    case BindingUpdate(name, kind, _) => empty.(bindings := [Binding(name, kind, false, false, "")])
    case StructureUpdate(name, _, _) => empty.(structures := [Structure(name, 0, false, "", [])])
    case FieldUpdate(structure, field, _, _, _) =>
      empty.(structures := [Structure(structure, 0, false, "", [Field(field, 0, 0, false, "")])])
  }

  /** The entry is resolved. */
  predicate Filled(u: Update, c: RuntimeContract) {
    match u
    case BindingUpdate(_, _, _) => |c.bindings| == 1 && c.bindings[0].resolved
    case StructureUpdate(_, _, _) => |c.structures| == 1 && c.structures[0].size > 0
    case FieldUpdate(_, _, _, _, _) =>
      |c.structures| == 1 && |c.structures[0].fields| == 1 && c.structures[0].fields[0].resolved
  }

  lemma PutFills(u: Update)
    requires Acceptable(u)
    ensures Filled(u, Put(Blank(u), u)) && !Filled(u, Blank(u))
  {
    hide AllowedForBinding, AllowedForStructure, AllowedForField;
  }

  lemma StaysFilled(u: Update, c: RuntimeContract, d: RuntimeContract)
    requires Filled(u, c) && Helped(c, d)
    ensures Filled(u, d)
  {
    hide AllowedForBinding, AllowedForStructure, AllowedForField;
    if u.BindingUpdate? {
      assert BindingHelped(c.bindings[0], d.bindings[0]);
    } else {
      assert StructureHelped(c.structures[0], d.structures[0]);
      if u.FieldUpdate? {
        assert FieldHelped(c.structures[0].name, c.structures[0].fields[0], d.structures[0].fields[0]);
      }
    }
  }

  lemma UpdatesFill(us: seq<Option<Update>>, i: nat)
    requires i < |us| && us[i].Some? && PairwiseApart(us)
    requires forall k :: 0 <= k < |us| && us[k].Some? ==> Acceptable(us[k].value)
    ensures var u := us[i].value; PutAll(Blank(u), us) != Blank(u)
  {
    hide Acceptable, Filled, Put, Blank, Apart, Helped, PutAll;
    var u := us[i].value;
    var rest := us[..i] + us[i + 1..];
    PullFront(Blank(u), us, i);
    PutFills(u);
    forall k | 0 <= k < |rest| && rest[k].Some? ensures Acceptable(rest[k].value) {
      assert rest[k] == us[if k < i then k else k + 1];
    }
    PutAllHelps(Put(Blank(u), u), rest);
    StaysFilled(u, Put(Blank(u), u), PutAll(Blank(u), us));
  }

  // ---- both directions ----

  /** Validators that accept everything or nothing, after the first value of one key. */
  function Telling(key: string, value: string): Verdicts {
    (file: seq<string>, line: string) => FirstValue(file, key) == value
  }

  lemma TellingReadsOnly(key: string, value: string, keys: set<string>)
    requires key in keys
    ensures ReadsOnly(Telling(key, value), keys)
  {
    hide FirstValue;
  }

  lemma AcceptedChanges(env: Environment, t: seq<string>, lib: Library, i: nat)
    requires Admitted(env, t) && (forall l :: lib.validated(t, l))
    requires i < |t| && Ripe(t, lib.parseSize, t[i])
    ensures var c := Blank(LineUpdate(t, Lenient(lib.parseSize), t[i]).value); Apply(env, t, lib, c) != c
  {
    AcceptedLikeLenient(t, lib, t[i]);
    FileUpdatesApart(t, lib, t);
    hide LineUpdate, Acceptable, Blank, PutAll, PairwiseApart;
    var us := Updates(t, lib, t);
    forall k | 0 <= k < |us| && us[k].Some? ensures Acceptable(us[k].value) {
      RowsAreAcceptable(t, lib, t[k]);
    }
    UpdatesFill(us, i);
    hide Admitted;
  }

  lemma RefusedKeeps(env: Environment, t: seq<string>, lib: Library, c: RuntimeContract)
    requires forall l :: !lib.validated(t, l)
    ensures Apply(env, t, lib, c) == c
  {
    hide LineUpdate, Admitted, PutAll;
    var us := Updates(t, lib, t);
    forall i | 0 <= i < |us| ensures us[i].None? {
      RefusedMeansNone(t, lib, t[i]);
    }
    NothingApplied(c, us);
  }

  lemma RipeOfPermutation(s: seq<string>, t: seq<string>, parseSize: string -> Option<nat>, line: string)
    requires multiset(s) == multiset(t)
    ensures Ripe(s, parseSize, line) == Ripe(t, parseSize, line)
    ensures LineUpdate(s, Lenient(parseSize), line) == LineUpdate(t, Lenient(parseSize), line)
  {
    hide LineUpdate;
    SameLineUpdate(s, t, Lenient(parseSize), line);
  }

  /**
    Two values of one key that the validators read: some validator, contract and permutation
    give different results.
   */
  lemma TwoValuesMatter(env: Environment, lines: seq<string>, parseSize: string -> Option<nat>,
                        i: nat, key: string, x: string, y: string)
    returns (s: seq<string>, t: seq<string>, lib: Library, c: RuntimeContract)
    requires Admitted(env, lines) && i < |lines| && Ripe(lines, parseSize, lines[i])
    requires x in lines && y in lines && Gives(x, key) && Gives(y, key) && x != y
    ensures multiset(s) == multiset(lines) == multiset(t)
    ensures lib == Library(Telling(key, x[|key| + 1..]), parseSize)
    ensures Apply(env, s, lib, c) != c && Apply(env, t, lib, c) == c
  {
    hide Admitted, LineUpdate, Ripe, Apply, FirstValue, Blank;
    s := ToFront(lines, x, key);
    t := ToFront(lines, y, key);
    lib := Library(Telling(key, x[|key| + 1..]), parseSize);
    assert x == key + "=" + x[|key| + 1..] && y == key + "=" + y[|key| + 1..];
    var ripe := lines[i];
    SameMembers(lines, s, ripe);
    var j :| 0 <= j < |s| && s[j] == ripe;
    RipeOfPermutation(lines, s, parseSize, ripe);
    AdmittedOfPermutation(env, lines, s);
    RipeHasUpdate(s, parseSize, ripe);
    c := Blank(LineUpdate(s, Lenient(parseSize), ripe).value);
    AcceptedChanges(env, s, lib, j);
    RefusedKeeps(env, t, lib, c);
  }

  lemma RipeHasUpdate(lines: seq<string>, parseSize: string -> Option<nat>, line: string)
    requires Ripe(lines, parseSize, line)
    ensures LineUpdate(lines, Lenient(parseSize), line).Some?
  {
  }

  lemma NoRipeRowKeeps(env: Environment, lines: seq<string>, t: seq<string>, lib: Library, c: RuntimeContract)
    requires multiset(t) == multiset(lines) && !HasRipeRow(lines, lib.parseSize)
    ensures Apply(env, t, lib, c) == c
  {
    hide LineUpdate, Ripe, Admitted, PutAll;
    var us := Updates(t, lib, t);
    forall i | 0 <= i < |us| ensures us[i].None? {
      UpdateNeedsRipe(t, lib, t[i]);
      RipeOfPermutation(t, lines, lib.parseSize, t[i]);
      SameMembers(t, lines, t[i]);
    }
    NothingApplied(c, us);
  }

  lemma UniformSuffices(env: Environment, lines: seq<string>, t: seq<string>, keys: set<string>,
                        lib: Library, c: RuntimeContract)
    requires multiset(t) == multiset(lines) && ReadsOnly(lib.validated, keys)
    requires forall key :: key in keys ==> Uniform(lines, key)
    ensures Apply(env, t, lib, c) == Apply(env, lines, lib, c)
  {
    hide Apply, FirstValue, Uniform;
    forall key | key in keys ensures FirstValue(lines, key) == FirstValue(t, key) {
      UniformFirstValue(lines, t, key);
    }
    assert SameFirstValues(lines, t, keys);
    assert SameVerdicts(lib, lines, t);
    VerdictsDecideOrder(env, lines, t, lib, c);
  }

  lemma NotAdmittedKeeps(env: Environment, lines: seq<string>, t: seq<string>, lib: Library, c: RuntimeContract)
    requires multiset(t) == multiset(lines) && !Admitted(env, lines)
    ensures Apply(env, t, lib, c) == c
  {
    hide ApplyLines, UniqueEvidenceKeys, UniqueIdentityKeys, MatchesRuntime, IdentityOk;
    if Admitted(env, t) {
      AdmittedOfPermutation(env, t, lines);
    }
  }

  /** The exact condition under which the order of the ready file's lines does not matter. */
  ghost predicate OrderCondition(
    env: Environment, lines: seq<string>, keys: set<string>, parseSize: string -> Option<nat>)
  {
    Admitted(env, lines) && HasRipeRow(lines, parseSize) ==> forall key :: key in keys ==> Uniform(lines, key)
  }

  lemma ConditionSuffices(env: Environment, lines: seq<string>, keys: set<string>, parseSize: string -> Option<nat>,
                          verdicts: Verdicts, t: seq<string>, c: RuntimeContract)
    requires OrderCondition(env, lines, keys, parseSize)
    requires ReadsOnly(verdicts, keys) && multiset(t) == multiset(lines)
    ensures var lib := Library(verdicts, parseSize); Apply(env, t, lib, c) == Apply(env, lines, lib, c)
  {
    hide Admitted, Apply, HasRipeRow, ReadsOnly, Uniform;
    var lib := Library(verdicts, parseSize);
    if !Admitted(env, lines) {
      NotAdmittedKeeps(env, lines, t, lib, c);
      NotAdmittedKeeps(env, lines, lines, lib, c);
    } else if !HasRipeRow(lines, parseSize) {
      NoRipeRowKeeps(env, lines, t, lib, c);
      NoRipeRowKeeps(env, lines, lines, lib, c);
    } else {
      UniformSuffices(env, lines, t, keys, lib, c);
    }
  }

  lemma OrderFreeAt(env: Environment, lines: seq<string>, keys: set<string>, parseSize: string -> Option<nat>,
                    verdicts: Verdicts, t: seq<string>, c: RuntimeContract)
    requires OrderFree(env, lines, keys, parseSize)
    requires ReadsOnly(verdicts, keys) && multiset(t) == multiset(lines)
    ensures var lib := Library(verdicts, parseSize); Apply(env, t, lib, c) == Apply(env, lines, lib, c)
  {
    hide Apply, ReadsOnly;
  }

  lemma ConditionIsNeeded(env: Environment, lines: seq<string>, keys: set<string>, parseSize: string -> Option<nat>)
    requires OrderFree(env, lines, keys, parseSize) && Admitted(env, lines) && HasRipeRow(lines, parseSize)
    ensures forall key :: key in keys ==> Uniform(lines, key)
  {
    hide Admitted, Apply, ReadsOnly, Ripe, Telling, OrderFree;
    forall key | key in keys ensures Uniform(lines, key) {
      if !Uniform(lines, key) {
        var x, y :| x in lines && y in lines && Gives(x, key) && Gives(y, key) && x != y;
        var i :| 0 <= i < |lines| && Ripe(lines, parseSize, lines[i]);
        var s, t, lib, c := TwoValuesMatter(env, lines, parseSize, i, key, x, y);
        TellingReadsOnly(key, x[|key| + 1..], keys);
        OrderFreeAt(env, lines, keys, parseSize, lib.validated, s, c);
        OrderFreeAt(env, lines, keys, parseSize, lib.validated, t, c);
      }
    }
  }

  /**
    The order of the lines does not matter, for all validators over these keys, contracts and
    permutations, exactly when the file is not admitted, or has no row that could apply, or
    gives none of the keys two values.
   */
  lemma ApplyIgnoresOrder(env: Environment, lines: seq<string>, keys: set<string>, parseSize: string -> Option<nat>)
    ensures OrderFree(env, lines, keys, parseSize) <==> OrderCondition(env, lines, keys, parseSize)
  {
    hide Admitted, Apply, ReadsOnly, HasRipeRow, Uniform;
    if OrderCondition(env, lines, keys, parseSize) {
      forall verdicts: Verdicts, t: seq<string>, c: RuntimeContract
        | ReadsOnly(verdicts, keys) && multiset(t) == multiset(lines)
        ensures Apply(env, t, Library(verdicts, parseSize), c) == Apply(env, lines, Library(verdicts, parseSize), c)
      {
        ConditionSuffices(env, lines, keys, parseSize, verdicts, t, c);
      }
    } else {
      if OrderFree(env, lines, keys, parseSize) {
        ConditionIsNeeded(env, lines, keys, parseSize);
      }
    }
  }

  // ---- guarded keys ----

  /** The duplicate checks of an admitted file cover the key. */
  predicate Guarded(key: string) {
    '=' !in key && (key in IDENTITY_KEYS || Sensitive(key))
  }

  lemma KeyOfGiven(line: string, key: string)
    requires '=' !in key && Gives(line, key)
    ensures HasKey(line) && KeyOf(line) == key
  {
    var n := |key|;
    assert line[n] == (key + "=")[n] == '=';
    forall k | 0 <= k < n ensures line[k] != '=' {
      assert line[k] == (key + "=")[k] == key[k];
    }
    assert IndexOf(line, '=') == n;
    assert line[..n] == key;
  }

  lemma {:induction false} TwoPlacesCount(lines: seq<string>, key: string, a: nat, b: nat)
    requires a < b < |lines| && Gives(lines[a], key) && Gives(lines[b], key)
    ensures KeyCount(lines, key) >= 2
    decreases a
  {
    if a == 0 {
      CountedIfPresent(lines[1..], key, lines[b]);
    } else {
      TwoPlacesCount(lines[1..], key, a - 1, b - 1);
    }
  }

  lemma NoClashAt(lines: seq<string>, a: nat, b: nat)
    requires UniqueEvidenceKeys(lines) && a < b < |lines|
    ensures !Clash(lines[a], lines[b])
  {
    hide Clash;
  }

  lemma IdentityCount(lines: seq<string>, key: string)
    requires UniqueIdentityKeys(lines) && key in IDENTITY_KEYS
    ensures KeyCount(lines, key) <= 1
  {
    hide KeyCount;
    var k :| 0 <= k < |IDENTITY_KEYS| && IDENTITY_KEYS[k] == key;
    assert KeyCount(lines, IDENTITY_KEYS[k]) <= 1;
  }

  /** An admitted file gives a guarded key one value only. */
  lemma GuardedIsUniform(env: Environment, lines: seq<string>, key: string)
    requires Admitted(env, lines) && Guarded(key)
    ensures Uniform(lines, key)
  {
    hide Sensitive, KeyCount, MatchesRuntime, IdentityOk, UniqueEvidenceKeys, UniqueIdentityKeys;
    forall x, y | x in lines && y in lines && Gives(x, key) && Gives(y, key) ensures x == y {
      var a :| 0 <= a < |lines| && lines[a] == x;
      var b :| 0 <= b < |lines| && lines[b] == y;
      KeyOfGiven(x, key);
      KeyOfGiven(y, key);
      if a != b {
        var lo, hi := if a < b then a else b, if a < b then b else a;
        NoClashAt(lines, lo, hi);
        if !Sensitive(key) {
          IdentityCount(lines, key);
          TwoPlacesCount(lines, key, lo, hi);
        }
      }
    }
  }

  /** Only the keys that no duplicate check covers decide whether the order matters. */
  lemma UnguardedKeysDecide(env: Environment, lines: seq<string>, keys: set<string>, parseSize: string -> Option<nat>)
    ensures OrderFree(env, lines, keys, parseSize)
       <==> (Admitted(env, lines) && HasRipeRow(lines, parseSize) ==>
               forall key :: key in keys && !Guarded(key) ==> Uniform(lines, key))
  {
    hide Admitted, HasRipeRow, Uniform, Guarded, OrderFree;
    ApplyIgnoresOrder(env, lines, keys, parseSize);
    if Admitted(env, lines) {
      forall key | key in keys && Guarded(key) ensures Uniform(lines, key) {
        GuardedIsUniform(env, lines, key);
      }
    }
  }
}
