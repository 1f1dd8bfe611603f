/**
  What applying the bridge's proofs does to each entry of a contract, from the text of the
  ready file: an entry that a row with accepted and proven evidence names is resolved with
  exactly what that row says, and every other entry is unchanged.
 */
module BridgeEffect {
  import opened Common
  import opened Evidence
  import opened Contract
  import opened BridgeProofs
  import opened BridgeLaws
  import opened CommandSinks

  // ---- texts of rows ----

  /** Parts with a bar between them. */
  function Joined(parts: seq<string>): string {
    if parts == [] then ""
    else if |parts| == 1 then parts[0]
    else parts[0] + "|" + Joined(parts[1..])
  }

  predicate NoBars(parts: seq<string>) {
    forall i :: 0 <= i < |parts| ==> '|' !in parts[i]
  }

  /** The value spells these parts; one bar at its end is ignored. */
  predicate Spells(value: string, parts: seq<string>) {
    value == Joined(parts) || value == Joined(parts) + "|"
  }

  lemma SplitIsEmpty(value: string)
    ensures SplitPipe(value) == [] <==> value == ""
  {
  }

  lemma SplitStep(value: string)
    requires value != ""
    ensures var i := IndexOf(value, '|');
            SplitPipe(value) == if i == |value| then [value] else [value[..i]] + SplitPipe(value[i + 1..])
  {
    hide IndexOf;
  }

  lemma BarAt(p: string, rest: string)
    requires '|' !in p
    ensures var v := p + "|" + rest; IndexOf(v, '|') == |p| && v[..|p|] == p && v[|p| + 1..] == rest
  {
    IndexIs(p + "|" + rest, '|', |p|);
  }

  lemma WholeSplits(value: string)
    requires value != "" && '|' !in value
    ensures SplitPipe(value) == [value]
  {
    hide SplitPipe;
    SplitStep(value);
    IndexIs(value, '|', |value|);
  }

  lemma FirstSplits(p: string, rest: string)
    requires '|' !in p
    ensures SplitPipe(p + "|" + rest) == [p] + SplitPipe(rest)
  {
    hide SplitPipe, IndexOf;
    BarAt(p, rest);
    SplitStep(p + "|" + rest);
  }

  /** A value that spells parts without bars splits into them. */
  lemma {:induction false} SpelledSplits(parts: seq<string>, value: string)
    requires parts != [] && NoBars(parts) && parts[|parts| - 1] != "" && Spells(value, parts)
    ensures SplitPipe(value) == parts
    decreases |parts|
  {
    hide SplitPipe;
    var p, tail := parts[0], if value == Joined(parts) then "" else "|";
    if |parts| == 1 {
      assert parts == [p];
      if tail == "" {
        WholeSplits(p);
      } else {
        FirstSplits(p, "");
        assert value == p + "|" + "";
        SplitIsEmpty("");
      }
    } else {
      var rest := parts[1..];
      SpelledSplits(rest, Joined(rest) + tail);
      FirstSplits(p, Joined(rest) + tail);
      assert value == p + "|" + (Joined(rest) + tail);
      assert parts == [p] + rest;
    }
  }

  /** Every value spells the parts it splits into. */
  lemma {:induction false} SplitSpells(value: string)
    requires value != ""
    ensures Spells(value, SplitPipe(value)) && SplitPipe(value) != []
    decreases |value|
  {
    hide SplitPipe, IndexOf;
    SplitStep(value);
    var i := IndexOf(value, '|');
    if i < |value| {
      var p, rest := value[..i], value[i + 1..];
      assert value == p + "|" + rest;
      if rest == "" {
        SplitIsEmpty(rest);
        assert SplitPipe(value) == [p];
      } else {
        SplitSpells(rest);
        assert SplitPipe(value)[1..] == SplitPipe(rest);
        JoinedStep(p, SplitPipe(rest));
      }
    }
  }

  lemma JoinedStep(p: string, rest: seq<string>)
    requires rest != []
    ensures Joined([p] + rest) == p + "|" + Joined(rest)
  {
    assert ([p] + rest)[1..] == rest;
  }

  lemma {:induction false} SplitHasNoBars(value: string)
    ensures NoBars(SplitPipe(value))
    decreases |value|
  {
    hide SplitPipe;
    SplitIsEmpty(value);
    if value == "" {
    } else {
      SplitStep(value);
      var i := IndexOf(value, '|');
      if i < |value| {
        SplitHasNoBars(value[i + 1..]);
      }
    }
  }

  lemma KeySplits(key: string, value: string)
    requires '=' !in key
    ensures var line := key + "=" + value; HasKey(line) && KeyOf(line) == key && ValueOf(line) == value
  {
    var line := key + "=" + value;
    IndexIs(line, '=', |key|);
    assert line[..|key|] == key && line[|key| + 1..] == value;
  }

  lemma LineIsKeyAndValue(line: string)
    requires HasKey(line)
    ensures line == KeyOf(line) + "=" + ValueOf(line) && '=' !in KeyOf(line)
  {
  }

  // ---- rows ----

  function BindingText(name: string, kind: BindingKind, evidence: string): string {
    BINDING_PREFIX + name + "=" + KindText(kind) + "|" + evidence
  }

  function StructureText(name: string, size: string, evidence: string): string {
    STRUCTURE_PREFIX + name + "=" + size + "|" + evidence
  }

  function FieldText(structure: string, field: string, offset: string, size: string, evidence: string): string {
    FIELD_PREFIX + structure + "." + field + "=" + offset + "|" + size + "|" + evidence
  }

  /** The line is this text, or this text with a bar behind it. */
  predicate Reads(line: string, text: string) {
    line == text || line == text + "|"
  }

  /** The proof line the evidence starts with stands in the file and is validated. */
  predicate Backed(lines: seq<string>, lib: Library, evidence: string) {
    ProofLine(evidence) in lines && lib.validated(lines, ProofLine(evidence))
  }

  predicate BindingRowAt(lines: seq<string>, lib: Library, line: string, u: Update)
    requires u.BindingUpdate?
  {
    && AllowedForBinding(u.name, u.kind, u.evidence) && Backed(lines, lib, u.evidence) && '|' !in u.evidence
    && '=' !in u.name
    && Reads(line, BindingText(u.name, u.kind, u.evidence))
  }

  ghost predicate StructureRowAt(lines: seq<string>, lib: Library, line: string, u: Update)
    requires u.StructureUpdate?
  {
    && AllowedForStructure(u.name, u.evidence) && Backed(lines, lib, u.evidence) && '|' !in u.evidence
    && '=' !in u.name && u.size > 0
    && exists size: string :: '|' !in size && lib.parseSize(size) == Some(u.size)
                              && Reads(line, StructureText(u.name, size, u.evidence))
  }

  ghost predicate FieldRowAt(lines: seq<string>, lib: Library, line: string, u: Update)
    requires u.FieldUpdate?
  {
    && AllowedForField(u.structure, u.field, u.evidence) && Backed(lines, lib, u.evidence) && '|' !in u.evidence
    && u.structure != "" && '=' !in u.structure
    && u.field != "" && '.' !in u.field && '=' !in u.field
    && u.size > 0
    && exists offset: string, size: string ::
         && '|' !in offset && '|' !in size
         && lib.parseSize(offset) == Some(u.offset) && lib.parseSize(size) == Some(u.size)
         && Reads(line, FieldText(u.structure, u.field, offset, size, u.evidence))
  }

  ghost predicate RowAt(lines: seq<string>, lib: Library, line: string, u: Update) {
    match u
    case BindingUpdate(_, _, _) => BindingRowAt(lines, lib, line, u)
    case StructureUpdate(_, _, _) => StructureRowAt(lines, lib, line, u)
    case FieldUpdate(_, _, _, _, _) => FieldRowAt(lines, lib, line, u)
  }

  lemma KindTextIsParsed(text: string, kind: BindingKind)
    ensures ParseKind(text) == Some(kind) <==> text == KindText(kind)
  {
  }

  lemma KindTextHasNoBar(kind: BindingKind)
    ensures '|' !in KindText(kind)
  {
  }

  lemma AllowedIsProof(e: string)
    requires Allowed(e)
    ensures ProofLine(e) != "" && e != ""
  {
    hide HasBannedPrefix, IndexOf;
    assert e[0] == 'p';
    assert IndexOf(e, ':') != 0;
  }

  lemma BackedIsProven(lines: seq<string>, lib: Library, e: string)
    requires Allowed(e)
    ensures ProofHolds(lines, lib, e) <==> Backed(lines, lib, e)
  {
    hide Allowed, ProofLine;
    AllowedIsProof(e);
  }

  lemma PrefixesDiffer(key: string)
    ensures BINDING_PREFIX <= key ==> |key| > 9 && key[9] == 'b'
    ensures STRUCTURE_PREFIX <= key ==> |key| > 9 && key[9] == 's'
    ensures FIELD_PREFIX <= key ==> |key| > 9 && key[9] == 'f'
  {
  }

  lemma PrefixesArePlain()
    ensures '=' !in BINDING_PREFIX && '=' !in STRUCTURE_PREFIX && '=' !in FIELD_PREFIX
  {
  }

  /** What the three kinds of rows ask for, by their key. */
  lemma LineUpdateByKey(lines: seq<string>, lib: Library, line: string, name: string)
    requires HasKey(line)
    ensures KeyOf(line) == BINDING_PREFIX + name ==>
              LineUpdate(lines, lib, line) == BindingRow(lines, lib, name, ValueOf(line))
    ensures KeyOf(line) == STRUCTURE_PREFIX + name ==>
              LineUpdate(lines, lib, line) == StructureRow(lines, lib, name, ValueOf(line))
    ensures KeyOf(line) == FIELD_PREFIX + name ==>
              LineUpdate(lines, lib, line) == FieldRow(lines, lib, name, ValueOf(line))
  {
    hide BindingRow, StructureRow, FieldRow, KeyOf, ValueOf, HasKey;
    PrefixesDiffer(KeyOf(line));
    assert (BINDING_PREFIX + name)[|BINDING_PREFIX|..] == name;
    assert (STRUCTURE_PREFIX + name)[|STRUCTURE_PREFIX|..] == name;
    assert (FIELD_PREFIX + name)[|FIELD_PREFIX|..] == name;
  }

  lemma TwoParts(x: string, y: string, value: string)
    requires '|' !in x && '|' !in y && y != ""
    ensures SplitPipe(value) == [x, y] <==> Reads(value, x + "|" + y)
  {
    hide SplitPipe;
    assert Joined([x, y]) == x + "|" + y;
    if Reads(value, x + "|" + y) {
      SpelledSplits([x, y], value);
    }
    if SplitPipe(value) == [x, y] {
      SplitIsEmpty(value);
      SplitSpells(value);
    }
  }

  lemma ThreeParts(x: string, y: string, z: string, value: string)
    requires '|' !in x && '|' !in y && '|' !in z && z != ""
    ensures SplitPipe(value) == [x, y, z] <==> Reads(value, x + "|" + y + "|" + z)
  {
    hide SplitPipe;
    var parts := [x, y, z];
    JoinedStep(y, [z]);
    JoinedStep(x, [y, z]);
    assert [y] + [z] == [y, z] && [x] + [y, z] == parts;
    assert x + "|" + (y + "|" + z) == x + "|" + y + "|" + z;
    if Reads(value, x + "|" + y + "|" + z) {
      SpelledSplits(parts, value);
    }
    if SplitPipe(value) == parts {
      SplitIsEmpty(value);
      SplitSpells(value);
    }
  }

  lemma ReadsValue(key: string, value: string, text: string)
    ensures Reads(key + "=" + value, key + "=" + text) <==> Reads(value, text)
  {
    var line := key + "=" + value;
    assert line[|key| + 1..] == value;
    assert (key + "=" + text)[|key| + 1..] == text;
    assert (key + "=" + text + "|")[|key| + 1..] == text + "|";
  }

  lemma BindingRowMeans(lines: seq<string>, lib: Library, name: string, value: string, kind: BindingKind, e: string)
    ensures BindingRow(lines, lib, name, value) == Some(BindingUpdate(name, kind, e))
       <==> AllowedForBinding(name, kind, e) && Backed(lines, lib, e) && '|' !in e
            && Reads(value, KindText(kind) + "|" + e)
  {
    hide SplitPipe, ParseKind, KindText, ProofHolds, Backed, Allowed, Reads;
    var parts := SplitPipe(value);
    SplitHasNoBars(value);
    if Allowed(e) {
      AllowedIsProof(e);
      BackedIsProven(lines, lib, e);
      KindTextHasNoBar(kind);
      if '|' !in e {
        TwoParts(KindText(kind), e, value);
        KindTextIsParsed(KindText(kind), kind);
      }
    }
    if |parts| == 2 {
      KindTextIsParsed(parts[0], kind);
      assert parts == [parts[0], parts[1]];
    }
  }

  lemma StructureRowMeans(lines: seq<string>, lib: Library, name: string, value: string, n: nat, e: string)
    ensures StructureRow(lines, lib, name, value) == Some(StructureUpdate(name, n, e))
       <==> AllowedForStructure(name, e) && Backed(lines, lib, e) && '|' !in e && n > 0
            && exists size: string :: '|' !in size && lib.parseSize(size) == Some(n) && Reads(value, size + "|" + e)
  {
    hide SplitPipe, ProofHolds, Backed, Allowed, Reads;
    var parts := SplitPipe(value);
    SplitHasNoBars(value);
    if Allowed(e) {
      AllowedIsProof(e);
      BackedIsProven(lines, lib, e);
      if '|' !in e {
        forall size: string | '|' !in size ensures SplitPipe(value) == [size, e] <==> Reads(value, size + "|" + e) {
          TwoParts(size, e, value);
        }
      }
    }
    if |parts| == 2 {
      assert parts == [parts[0], parts[1]];
    }
  }

  lemma FieldRowMeans(lines: seq<string>, lib: Library, name: string, value: string,
                      structure: string, field: string, o: nat, n: nat, e: string)
    requires name == structure + "." + field && '.' !in field
    ensures FieldRow(lines, lib, name, value) == Some(FieldUpdate(structure, field, o, n, e))
       <==> AllowedForField(structure, field, e) && Backed(lines, lib, e) && '|' !in e && n > 0
            && structure != "" && field != ""
            && exists offset: string, size: string ::
                 && '|' !in offset && '|' !in size
                 && lib.parseSize(offset) == Some(o) && lib.parseSize(size) == Some(n)
                 && Reads(value, offset + "|" + size + "|" + e)
  {
    hide SplitPipe, ProofHolds, Backed, Allowed, Reads;
    LastDot(structure, field);
    hide LastIndexOf;
    var parts := SplitPipe(value);
    SplitHasNoBars(value);
    if Allowed(e) {
      AllowedIsProof(e);
      BackedIsProven(lines, lib, e);
      if '|' !in e {
        forall offset: string, size: string | '|' !in offset && '|' !in size
          ensures SplitPipe(value) == [offset, size, e] <==> Reads(value, offset + "|" + size + "|" + e)
        {
          ThreeParts(offset, size, e, value);
        }
      }
    }
    if |parts| == 3 {
      assert parts == [parts[0], parts[1], parts[2]];
    }
  }

  lemma LastDot(structure: string, field: string)
    requires '.' !in field
    ensures var name := structure + "." + field;
            LastIndexOf(name, '.') == |structure| && name[..|structure|] == structure
            && name[|structure| + 1..] == field
  {
    var name := structure + "." + field;
    assert name[|structure|] == '.';
    assert name[|structure| + 1..] == field;
    forall k | |structure| < k < |name| ensures name[k] != '.' {
      assert name[k] == field[k - |structure| - 1];
    }
  }

  lemma BindingLineMeans(lines: seq<string>, lib: Library, line: string, u: Update)
    requires u.BindingUpdate?
    ensures LineUpdate(lines, lib, line) == Some(u) <==> BindingRowAt(lines, lib, line, u)
  {
    hide LineUpdate, BindingRow, HasKey, KeyOf, ValueOf, AllowedForBinding, Backed, KindText, Reads;
    var key, text := BINDING_PREFIX + u.name, KindText(u.kind) + "|" + u.evidence;
    assert BindingText(u.name, u.kind, u.evidence) == key + "=" + text;
    PrefixesArePlain();
    if LineUpdate(lines, lib, line) == Some(u) {
      RowShapes(lines, lib, line);
      LineIsKeyAndValue(line);
      LineUpdateByKey(lines, lib, line, u.name);
      BindingRowMeans(lines, lib, u.name, ValueOf(line), u.kind, u.evidence);
      ReadsValue(key, ValueOf(line), text);
      NoneBehind(BINDING_PREFIX, u.name);
    }
    if BindingRowAt(lines, lib, line, u) {
      var value := ReadValue(line, key, text);
      KeySplits(key, value);
      LineUpdateByKey(lines, lib, line, u.name);
      BindingRowMeans(lines, lib, u.name, value, u.kind, u.evidence);
    }
  }

  lemma NoneBehind(prefix: string, name: string)
    requires '=' !in prefix + name
    ensures '=' !in name
  {
    assert forall i :: 0 <= i < |name| ==> name[i] == (prefix + name)[|prefix| + i];
  }

  /** The value of a line that reads this key and text. */
  lemma ReadValue(line: string, key: string, text: string) returns (value: string)
    requires Reads(line, key + "=" + text)
    ensures line == key + "=" + value && Reads(value, text)
  {
    value := if line == key + "=" + text then text else text + "|";
    assert key + "=" + text + "|" == key + "=" + (text + "|");
  }

  lemma StructureLineMeans(lines: seq<string>, lib: Library, line: string, u: Update)
    requires u.StructureUpdate?
    ensures LineUpdate(lines, lib, line) == Some(u) <==> StructureRowAt(lines, lib, line, u)
  {
    hide LineUpdate, StructureRow, HasKey, KeyOf, ValueOf, AllowedForStructure, Backed, Reads;
    var key := STRUCTURE_PREFIX + u.name;
    PrefixesArePlain();
    if LineUpdate(lines, lib, line) == Some(u) {
      RowShapes(lines, lib, line);
      LineIsKeyAndValue(line);
      LineUpdateByKey(lines, lib, line, u.name);
      StructureRowMeans(lines, lib, u.name, ValueOf(line), u.size, u.evidence);
      NoneBehind(STRUCTURE_PREFIX, u.name);
      var size: string :| '|' !in size && lib.parseSize(size) == Some(u.size)
                          && Reads(ValueOf(line), size + "|" + u.evidence);
      ReadsValue(key, ValueOf(line), size + "|" + u.evidence);
      assert StructureText(u.name, size, u.evidence) == key + "=" + (size + "|" + u.evidence);
    }
    if StructureRowAt(lines, lib, line, u) {
      var size: string :| '|' !in size && lib.parseSize(size) == Some(u.size)
                          && Reads(line, StructureText(u.name, size, u.evidence));
      assert StructureText(u.name, size, u.evidence) == key + "=" + (size + "|" + u.evidence);
      var value := ReadValue(line, key, size + "|" + u.evidence);
      KeySplits(key, value);
      LineUpdateByKey(lines, lib, line, u.name);
      StructureRowMeans(lines, lib, u.name, value, u.size, u.evidence);
    }
  }

  lemma FieldLineMeans(lines: seq<string>, lib: Library, line: string, u: Update)
    requires u.FieldUpdate?
    ensures LineUpdate(lines, lib, line) == Some(u) <==> FieldRowAt(lines, lib, line, u)
  {
    hide LineUpdate, FieldRow, HasKey, KeyOf, ValueOf, AllowedForField, Backed, Reads;
    var name := u.structure + "." + u.field;
    var key := FIELD_PREFIX + name;
    PrefixesArePlain();
    assert key == FIELD_PREFIX + u.structure + "." + u.field;
    if LineUpdate(lines, lib, line) == Some(u) {
      RowShapes(lines, lib, line);
      LineIsKeyAndValue(line);
      LineUpdateByKey(lines, lib, line, name);
      FieldRowMeans(lines, lib, name, ValueOf(line), u.structure, u.field, u.offset, u.size, u.evidence);
      PlainHalves(u.structure, u.field);
      var offset: string, size: string :|
        && '|' !in offset && '|' !in size
        && lib.parseSize(offset) == Some(u.offset) && lib.parseSize(size) == Some(u.size)
        && Reads(ValueOf(line), offset + "|" + size + "|" + u.evidence);
      ReadsValue(key, ValueOf(line), offset + "|" + size + "|" + u.evidence);
      FieldTextIs(u, key, offset, size);
    }
    if FieldRowAt(lines, lib, line, u) {
      var offset: string, size: string :|
        && '|' !in offset && '|' !in size
        && lib.parseSize(offset) == Some(u.offset) && lib.parseSize(size) == Some(u.size)
        && Reads(line, FieldText(u.structure, u.field, offset, size, u.evidence));
      FieldTextIs(u, key, offset, size);
      var value := ReadValue(line, key, offset + "|" + size + "|" + u.evidence);
      KeySplits(key, value);
      LineUpdateByKey(lines, lib, line, name);
      FieldRowMeans(lines, lib, name, value, u.structure, u.field, u.offset, u.size, u.evidence);
    }
  }

  lemma PlainHalves(structure: string, field: string)
    requires '=' !in FIELD_PREFIX + (structure + "." + field)
    ensures '=' !in structure && '=' !in field
  {
    NoneBehind(FIELD_PREFIX, structure + "." + field);
    var name := structure + "." + field;
    assert forall i :: 0 <= i < |structure| ==> structure[i] == name[i];
    assert forall i :: 0 <= i < |field| ==> field[i] == name[|structure| + 1 + i];
  }

  lemma FieldTextIs(u: Update, key: string, offset: string, size: string)
    requires u.FieldUpdate? && key == FIELD_PREFIX + (u.structure + "." + u.field)
    ensures FieldText(u.structure, u.field, offset, size, u.evidence)
         == key + "=" + (offset + "|" + size + "|" + u.evidence)
  {
    assert key == FIELD_PREFIX + u.structure + "." + u.field;
  }

  /** A line asks for an update exactly when it reads as that update's row. */
  lemma LineMeans(lines: seq<string>, lib: Library, line: string, u: Update)
    ensures LineUpdate(lines, lib, line) == Some(u) <==> RowAt(lines, lib, line, u)
  {
    hide LineUpdate, BindingRowAt, StructureRowAt, FieldRowAt;
    match u
    case BindingUpdate(_, _, _) => BindingLineMeans(lines, lib, line, u);
    case StructureUpdate(_, _, _) => StructureLineMeans(lines, lib, line, u);
    case FieldUpdate(_, _, _, _, _) => FieldLineMeans(lines, lib, line, u);
  }

  // ---- bindings ----

  predicate FirstBinding(bs: seq<Binding>, k: nat)
    requires k < |bs|
  {
    forall j :: 0 <= j < k ==> !(bs[j].name == bs[k].name && bs[j].kind == bs[k].kind)
  }

  predicate IsForBinding(u: Option<Update>, b: Binding) {
    u.Some? && u.value.BindingUpdate? && u.value.name == b.name && u.value.kind == b.kind
  }

  lemma OneUpdateOnBinding(c: RuntimeContract, u: Option<Update>, k: nat)
    requires k < |c.bindings|
    ensures var after := PutOption(c, u);
            && |after.bindings| == |c.bindings|
            && (forall j :: 0 <= j < |c.bindings| ==>
                  after.bindings[j].name == c.bindings[j].name && after.bindings[j].kind == c.bindings[j].kind)
            && after.bindings[k]
               == if IsForBinding(u, c.bindings[k]) && FirstBinding(c.bindings, k)
                  then c.bindings[k].(resolved := true, evidence := u.value.evidence) else c.bindings[k]
  {
    hide PutInto;
  }

  lemma {:induction false} BindingUntouched(c: RuntimeContract, us: seq<Option<Update>>, k: nat)
    requires k < |c.bindings|
    requires FirstBinding(c.bindings, k) ==> forall i :: 0 <= i < |us| ==> !IsForBinding(us[i], c.bindings[k])
    ensures |PutAll(c, us).bindings| == |c.bindings| && PutAll(c, us).bindings[k] == c.bindings[k]
    decreases |us|
  {
    hide PutOption, IsForBinding;
    if us == [] {
    } else {
      OneUpdateOnBinding(c, us[0], k);
      SameForBinding(us, c.bindings[k], PutOption(c, us[0]).bindings[k]);
      BindingUntouched(PutOption(c, us[0]), us[1..], k);
    }
  }

  lemma SameForBinding(us: seq<Option<Update>>, b: Binding, b': Binding)
    requires b.name == b'.name && b.kind == b'.kind
    ensures forall i :: 0 <= i < |us| ==> IsForBinding(us[i], b) == IsForBinding(us[i], b')
  {
  }

  lemma ApartAt(us: seq<Option<Update>>, i: nat, j: nat)
    requires i < j < |us| && PairwiseApart(us)
    ensures Apart(us[i], us[j])
  {
    hide Apart;
  }

  lemma OthersNotForBinding(us: seq<Option<Update>>, i: nat, b: Binding)
    requires i < |us| && PairwiseApart(us) && IsForBinding(us[i], b)
    ensures var rest := us[..i] + us[i + 1..];
            forall k :: 0 <= k < |rest| ==> !IsForBinding(rest[k], b)
  {
    var rest := us[..i] + us[i + 1..];
    forall k | 0 <= k < |rest| ensures !IsForBinding(rest[k], b) {
      assert rest[k] == us[if k < i then k else k + 1];
      if k < i {
        ApartAt(us, k, i);
      } else {
        ApartAt(us, i, k + 1);
      }
    }
  }

  lemma BindingTaken(c: RuntimeContract, us: seq<Option<Update>>, i: nat, k: nat)
    requires k < |c.bindings| && i < |us| && PairwiseApart(us)
    requires FirstBinding(c.bindings, k) && IsForBinding(us[i], c.bindings[k])
    ensures |PutAll(c, us).bindings| == |c.bindings|
    ensures PutAll(c, us).bindings[k] == c.bindings[k].(resolved := true, evidence := us[i].value.evidence)
  {
    hide PutOption, PutAll, PairwiseApart;
    PullFront(c, us, i);
    OneUpdateOnBinding(c, us[i], k);
    OthersNotForBinding(us, i, c.bindings[k]);
    BindingUntouched(PutOption(c, us[i]), us[..i] + us[i + 1..], k);
  }

  /** Some line of the file is this update's row. */
  ghost predicate RowIn(lines: seq<string>, lib: Library, u: Update) {
    exists line :: line in lines && RowAt(lines, lib, line, u)
  }

  lemma RowIsUpdate(lines: seq<string>, lib: Library, u: Update) returns (i: nat)
    requires RowIn(lines, lib, u)
    ensures i < |lines| && Updates(lines, lib, lines)[i] == Some(u)
  {
    hide RowAt, LineUpdate;
    var line :| line in lines && RowAt(lines, lib, line, u);
    i :| 0 <= i < |lines| && lines[i] == line;
    LineMeans(lines, lib, line, u);
  }

  lemma UpdateIsRow(lines: seq<string>, lib: Library, i: nat)
    requires i < |lines| && Updates(lines, lib, lines)[i].Some?
    ensures RowIn(lines, lib, Updates(lines, lib, lines)[i].value)
  {
    hide RowAt, LineUpdate;
    LineMeans(lines, lib, lines[i], Updates(lines, lib, lines)[i].value);
  }

  lemma ApplyIs(env: Environment, lines: seq<string>, lib: Library, c: RuntimeContract)
    requires Admitted(env, lines)
    ensures Apply(env, lines, lib, c) == PutAll(c, Updates(lines, lib, lines))
    ensures PairwiseApart(Updates(lines, lib, lines))
  {
    FileUpdatesApart(lines, lib, lines);
    hide LineUpdate, PutAll, PairwiseApart;
  }

  /**
    A binding after the proofs were applied: the first of its name and kind is resolved with
    the evidence of the row that names it; without such a row, and behind the first one, it is
    as it was.
   */
  ghost predicate BindingAfter(lines: seq<string>, lib: Library, c: RuntimeContract, k: nat, b': Binding)
    requires k < |c.bindings|
  {
    var b, first := c.bindings[k], FirstBinding(c.bindings, k);
    && (forall e :: first && RowIn(lines, lib, BindingUpdate(b.name, b.kind, e)) ==>
          b' == b.(resolved := true, evidence := e))
    && ((forall e :: first ==> !RowIn(lines, lib, BindingUpdate(b.name, b.kind, e))) ==> b' == b)
  }

  lemma BindingEffect(env: Environment, lines: seq<string>, lib: Library, c: RuntimeContract, k: nat)
    requires Admitted(env, lines) && k < |c.bindings|
    ensures |Apply(env, lines, lib, c).bindings| == |c.bindings|
    ensures BindingAfter(lines, lib, c, k, Apply(env, lines, lib, c).bindings[k])
  {
    ApplyIs(env, lines, lib, c);
    hide Apply, Admitted, RowIn, PutAll, Updates, PairwiseApart, FirstBinding;
    var us, b := Updates(lines, lib, lines), c.bindings[k];
    if i :| 0 <= i < |us| && IsForBinding(us[i], b) && FirstBinding(c.bindings, k) {
      BindingTaken(c, us, i, k);
      UpdateIsRow(lines, lib, i);
      forall e | RowIn(lines, lib, BindingUpdate(b.name, b.kind, e)) ensures e == us[i].value.evidence {
        var j := RowIsUpdate(lines, lib, BindingUpdate(b.name, b.kind, e));
        OneForBinding(us, i, j, b);
      }
    } else {
      BindingUntouched(c, us, k);
      forall e | FirstBinding(c.bindings, k) ensures !RowIn(lines, lib, BindingUpdate(b.name, b.kind, e)) {
        if RowIn(lines, lib, BindingUpdate(b.name, b.kind, e)) {
          var j := RowIsUpdate(lines, lib, BindingUpdate(b.name, b.kind, e));
        }
      }
    }
  }

  lemma OneForBinding(us: seq<Option<Update>>, i: nat, j: nat, b: Binding)
    requires i < |us| && j < |us| && PairwiseApart(us) && IsForBinding(us[i], b) && IsForBinding(us[j], b)
    ensures i == j
  {
    if i < j {
      ApartAt(us, i, j);
    } else if j < i {
      ApartAt(us, j, i);
    }
  }

  // ---- structures ----

  predicate FirstStructure(ss: seq<Structure>, k: nat)
    requires k < |ss|
  {
    forall j :: 0 <= j < k ==> ss[j].name != ss[k].name
  }

  predicate IsForStructure(u: Option<Update>, name: string) {
    u.Some? && u.value.StructureUpdate? && u.value.name == name
  }

  /** The structure apart from its fields. */
  function Head(s: Structure): Structure {
    s.(fields := [])
  }

  lemma OneUpdateOnStructure(c: RuntimeContract, u: Option<Update>, k: nat)
    requires k < |c.structures|
    ensures var after := PutOption(c, u);
            && |after.structures| == |c.structures|
            && (forall j :: 0 <= j < |c.structures| ==> after.structures[j].name == c.structures[j].name)
            && var s := c.structures[k];
               Head(after.structures[k])
               == if IsForStructure(u, s.name) && FirstStructure(c.structures, k)
                  then Head(s).(size := u.value.size, evidence := u.value.evidence) else Head(s)
  {
    hide PutBinding, PutField;
  }

  lemma {:induction false} StructureUntouched(c: RuntimeContract, us: seq<Option<Update>>, k: nat)
    requires k < |c.structures|
    requires FirstStructure(c.structures, k) ==>
               forall i :: 0 <= i < |us| ==> !IsForStructure(us[i], c.structures[k].name)
    ensures |PutAll(c, us).structures| == |c.structures|
    ensures Head(PutAll(c, us).structures[k]) == Head(c.structures[k])
    decreases |us|
  {
    hide PutOption, IsForStructure, Head;
    if us == [] {
    } else {
      OneUpdateOnStructure(c, us[0], k);
      StructureUntouched(PutOption(c, us[0]), us[1..], k);
    }
  }

  lemma OthersNotForStructure(us: seq<Option<Update>>, i: nat, name: string)
    requires i < |us| && PairwiseApart(us) && IsForStructure(us[i], name)
    ensures var rest := us[..i] + us[i + 1..];
            forall k :: 0 <= k < |rest| ==> !IsForStructure(rest[k], name)
  {
    var rest := us[..i] + us[i + 1..];
    forall k | 0 <= k < |rest| ensures !IsForStructure(rest[k], name) {
      assert rest[k] == us[if k < i then k else k + 1];
      if k < i {
        ApartAt(us, k, i);
      } else {
        ApartAt(us, i, k + 1);
      }
    }
  }

  lemma StructureTaken(c: RuntimeContract, us: seq<Option<Update>>, i: nat, k: nat)
    requires k < |c.structures| && i < |us| && PairwiseApart(us)
    requires FirstStructure(c.structures, k) && IsForStructure(us[i], c.structures[k].name)
    ensures |PutAll(c, us).structures| == |c.structures|
    ensures Head(PutAll(c, us).structures[k])
         == Head(c.structures[k]).(size := us[i].value.size, evidence := us[i].value.evidence)
  {
    hide PutOption, PutAll, PairwiseApart;
    PullFront(c, us, i);
    OneUpdateOnStructure(c, us[i], k);
    OthersNotForStructure(us, i, c.structures[k].name);
    StructureUntouched(PutOption(c, us[i]), us[..i] + us[i + 1..], k);
  }

  lemma OneForStructure(us: seq<Option<Update>>, i: nat, j: nat, name: string)
    requires i < |us| && j < |us| && PairwiseApart(us) && IsForStructure(us[i], name) && IsForStructure(us[j], name)
    ensures i == j
  {
    if i < j {
      ApartAt(us, i, j);
    } else if j < i {
      ApartAt(us, j, i);
    }
  }

  /** A structure after the proofs were applied, apart from its fields: the same for its size. */
  ghost predicate StructureAfter(lines: seq<string>, lib: Library, c: RuntimeContract, k: nat, s': Structure)
    requires k < |c.structures|
  {
    var s, first := c.structures[k], FirstStructure(c.structures, k);
    && (forall n, e :: first && RowIn(lines, lib, StructureUpdate(s.name, n, e)) ==>
          Head(s') == Head(s).(size := n, evidence := e))
    && ((forall n, e :: first ==> !RowIn(lines, lib, StructureUpdate(s.name, n, e))) ==> Head(s') == Head(s))
  }

  lemma StructureEffect(env: Environment, lines: seq<string>, lib: Library, c: RuntimeContract, k: nat)
    requires Admitted(env, lines) && k < |c.structures|
    ensures |Apply(env, lines, lib, c).structures| == |c.structures|
    ensures StructureAfter(lines, lib, c, k, Apply(env, lines, lib, c).structures[k])
  {
    ApplyIs(env, lines, lib, c);
    hide Apply, Admitted, RowIn, PutAll, Updates, PairwiseApart, FirstStructure, Head;
    var us, name := Updates(lines, lib, lines), c.structures[k].name;
    if i :| 0 <= i < |us| && IsForStructure(us[i], name) && FirstStructure(c.structures, k) {
      StructureTaken(c, us, i, k);
      UpdateIsRow(lines, lib, i);
      forall n, e | RowIn(lines, lib, StructureUpdate(name, n, e)) ensures us[i] == Some(StructureUpdate(name, n, e)) {
        var j := RowIsUpdate(lines, lib, StructureUpdate(name, n, e));
        OneForStructure(us, i, j, name);
      }
    } else {
      StructureUntouched(c, us, k);
      forall n, e | FirstStructure(c.structures, k) ensures !RowIn(lines, lib, StructureUpdate(name, n, e)) {
        if RowIn(lines, lib, StructureUpdate(name, n, e)) {
          var j := RowIsUpdate(lines, lib, StructureUpdate(name, n, e));
        }
      }
    }
  }

  // ---- fields ----

  predicate FirstField(fs: seq<Field>, j: nat)
    requires j < |fs|
  {
    forall i :: 0 <= i < j ==> fs[i].name != fs[j].name
  }

  predicate IsForField(u: Option<Update>, structure: string, field: string) {
    u.Some? && u.value.FieldUpdate? && u.value.structure == structure && u.value.field == field
  }

  /** The first field of its name in the first structure of its name. */
  predicate FirstOf(c: RuntimeContract, k: nat, j: nat)
    requires k < |c.structures| && j < |c.structures[k].fields|
  {
    FirstStructure(c.structures, k) && FirstField(c.structures[k].fields, j)
  }

  lemma OneUpdateOnField(c: RuntimeContract, u: Option<Update>, k: nat, j: nat)
    requires k < |c.structures| && j < |c.structures[k].fields|
    ensures var after := PutOption(c, u);
            && |after.structures| == |c.structures| && |after.structures[k].fields| == |c.structures[k].fields|
            && (forall i :: 0 <= i < |c.structures| ==> after.structures[i].name == c.structures[i].name)
            && (forall i :: 0 <= i < |c.structures[k].fields| ==>
                  after.structures[k].fields[i].name == c.structures[k].fields[i].name)
            && var s, f := c.structures[k], c.structures[k].fields[j];
               after.structures[k].fields[j]
               == if IsForField(u, s.name, f.name) && FirstOf(c, k, j)
                  then
                    f.(resolved := true, offset := u.value.offset, size := u.value.size,
                       evidence := u.value.evidence)
                  else f
  {
    hide PutBinding;
  }

  lemma {:induction false} FieldUntouched(c: RuntimeContract, us: seq<Option<Update>>, k: nat, j: nat)
    requires k < |c.structures| && j < |c.structures[k].fields|
    requires FirstOf(c, k, j) ==>
               forall i :: 0 <= i < |us| ==> !IsForField(us[i], c.structures[k].name, c.structures[k].fields[j].name)
    ensures var c' := PutAll(c, us);
            && |c'.structures| == |c.structures| && |c'.structures[k].fields| == |c.structures[k].fields|
            && c'.structures[k].fields[j] == c.structures[k].fields[j]
    decreases |us|
  {
    hide PutOption, IsForField;
    if us == [] {
    } else {
      OneUpdateOnField(c, us[0], k, j);
      FieldUntouched(PutOption(c, us[0]), us[1..], k, j);
    }
  }

  lemma OthersNotForField(us: seq<Option<Update>>, i: nat, structure: string, field: string)
    requires i < |us| && PairwiseApart(us) && IsForField(us[i], structure, field)
    ensures var rest := us[..i] + us[i + 1..];
            forall k :: 0 <= k < |rest| ==> !IsForField(rest[k], structure, field)
  {
    var rest := us[..i] + us[i + 1..];
    forall k | 0 <= k < |rest| ensures !IsForField(rest[k], structure, field) {
      assert rest[k] == us[if k < i then k else k + 1];
      if k < i {
        ApartAt(us, k, i);
      } else {
        ApartAt(us, i, k + 1);
      }
    }
  }

  lemma FieldTaken(c: RuntimeContract, us: seq<Option<Update>>, i: nat, k: nat, j: nat)
    requires k < |c.structures| && j < |c.structures[k].fields| && i < |us| && PairwiseApart(us) && FirstOf(c, k, j)
    requires IsForField(us[i], c.structures[k].name, c.structures[k].fields[j].name)
    ensures var c', u := PutAll(c, us), us[i].value;
            && |c'.structures| == |c.structures| && |c'.structures[k].fields| == |c.structures[k].fields|
            && c'.structures[k].fields[j]
               == c.structures[k].fields[j].(resolved := true, offset := u.offset, size := u.size,
                                             evidence := u.evidence)
  {
    hide PutOption, PutAll, PairwiseApart;
    PullFront(c, us, i);
    OneUpdateOnField(c, us[i], k, j);
    OthersNotForField(us, i, c.structures[k].name, c.structures[k].fields[j].name);
    FieldUntouched(PutOption(c, us[i]), us[..i] + us[i + 1..], k, j);
  }

  lemma OneForField(us: seq<Option<Update>>, i: nat, j: nat, structure: string, field: string)
    requires i < |us| && j < |us| && PairwiseApart(us)
    requires IsForField(us[i], structure, field) && IsForField(us[j], structure, field)
    ensures i == j
  {
    if i < j {
      ApartAt(us, i, j);
    } else if j < i {
      ApartAt(us, j, i);
    }
  }

  /**
    A field after the proofs were applied: the first of its name in the first structure of its
    name is resolved with the offset, the size and the evidence of the row that names it;
    without such a row, and behind the first one, it is as it was.
   */
  ghost predicate FieldAfter(lines: seq<string>, lib: Library, c: RuntimeContract, k: nat, j: nat, f': Field)
    requires k < |c.structures| && j < |c.structures[k].fields|
  {
    var s, f, first := c.structures[k], c.structures[k].fields[j], FirstOf(c, k, j);
    && (forall o, n, e :: first && RowIn(lines, lib, FieldUpdate(s.name, f.name, o, n, e)) ==>
          f' == f.(resolved := true, offset := o, size := n, evidence := e))
    && ((forall o, n, e :: first ==> !RowIn(lines, lib, FieldUpdate(s.name, f.name, o, n, e))) ==> f' == f)
  }

  lemma FieldEffect(env: Environment, lines: seq<string>, lib: Library, c: RuntimeContract, k: nat, j: nat)
    requires Admitted(env, lines) && k < |c.structures| && j < |c.structures[k].fields|
    ensures var c' := Apply(env, lines, lib, c);
            |c'.structures| == |c.structures| && |c'.structures[k].fields| == |c.structures[k].fields|
    ensures FieldAfter(lines, lib, c, k, j, Apply(env, lines, lib, c).structures[k].fields[j])
  {
    ApplyIs(env, lines, lib, c);
    hide Apply, Admitted, RowIn, PutAll, Updates, PairwiseApart, FirstOf;
    var us, structure, field := Updates(lines, lib, lines), c.structures[k].name, c.structures[k].fields[j].name;
    if i :| 0 <= i < |us| && IsForField(us[i], structure, field) && FirstOf(c, k, j) {
      FieldTaken(c, us, i, k, j);
      UpdateIsRow(lines, lib, i);
      forall o, n, e | RowIn(lines, lib, FieldUpdate(structure, field, o, n, e))
        ensures us[i] == Some(FieldUpdate(structure, field, o, n, e))
      {
        var m := RowIsUpdate(lines, lib, FieldUpdate(structure, field, o, n, e));
        OneForField(us, i, m, structure, field);
      }
    } else {
      FieldUntouched(c, us, k, j);
      forall o, n, e | FirstOf(c, k, j) ensures !RowIn(lines, lib, FieldUpdate(structure, field, o, n, e)) {
        if RowIn(lines, lib, FieldUpdate(structure, field, o, n, e)) {
          var m := RowIsUpdate(lines, lib, FieldUpdate(structure, field, o, n, e));
        }
      }
    }
  }

  // ---- whole contracts ----

  /** What the proofs of an admitted file make of a contract, entry by entry. */
  ghost predicate ContractAfter(lines: seq<string>, lib: Library, c: RuntimeContract, c': RuntimeContract) {
    && c' == c.(bindings := c'.bindings, structures := c'.structures)
    && |c'.bindings| == |c.bindings| && |c'.structures| == |c.structures|
    && (forall k :: 0 <= k < |c.bindings| ==> BindingAfter(lines, lib, c, k, c'.bindings[k]))
    && (forall k :: 0 <= k < |c.structures| ==>
          && StructureAfter(lines, lib, c, k, c'.structures[k])
          && FieldsAfter(lines, lib, c, k, c'.structures[k].fields))
  }

  ghost predicate FieldsAfter(lines: seq<string>, lib: Library, c: RuntimeContract, k: nat, fs: seq<Field>)
    requires k < |c.structures|
  {
    && |fs| == |c.structures[k].fields|
    && forall j :: 0 <= j < |fs| ==> FieldAfter(lines, lib, c, k, j, fs[j])
  }

  lemma {:induction false} ShapeStays(c: RuntimeContract, us: seq<Option<Update>>)
    ensures var c' := PutAll(c, us);
            && c' == c.(bindings := c'.bindings, structures := c'.structures)
            && |c'.bindings| == |c.bindings| && |c'.structures| == |c.structures|
            && forall k :: 0 <= k < |c.structures| ==> |c'.structures[k].fields| == |c.structures[k].fields|
    decreases |us|
  {
    hide PutBinding, PutField;
    if us == [] {
    } else {
      ShapeStays(PutOption(c, us[0]), us[1..]);
    }
  }

  /** Applying an admitted file does to every entry exactly what the file's rows say. */
  lemma ApplyTakesEffect(env: Environment, lines: seq<string>, lib: Library, c: RuntimeContract)
    requires Admitted(env, lines)
    ensures ContractAfter(lines, lib, c, Apply(env, lines, lib, c))
  {
    hide BindingAfter, StructureAfter, FieldAfter, PutAll, LineUpdate, Admitted, Apply;
    var c' := Apply(env, lines, lib, c);
    ApplyIs(env, lines, lib, c);
    ShapeStays(c, Updates(lines, lib, lines));
    forall k | 0 <= k < |c.bindings| ensures BindingAfter(lines, lib, c, k, c'.bindings[k]) {
      BindingEffect(env, lines, lib, c, k);
    }
    forall k | 0 <= k < |c.structures| ensures StructureAfter(lines, lib, c, k, c'.structures[k]) {
      StructureEffect(env, lines, lib, c, k);
    }
    forall k, j | 0 <= k < |c.structures| && 0 <= j < |c.structures[k].fields|
      ensures FieldAfter(lines, lib, c, k, j, c'.structures[k].fields[j])
    {
      FieldEffect(env, lines, lib, c, k, j);
    }
  }
}
