/**
  Live command evidence.  A status of live-proven comes only from a ready-file row for that
  very command whose command-specific proof line and snapshot were validated; one bad row
  voids all rows of its prefix.
 */
module LiveEvidence {
  import opened Common
  import opened CommandSurface
  import E = Evidence
  import B = BridgeProofs

  const UNIT_PREFIX := "command_surface.live_unit_command."
  const ACTION_PREFIX := "command_surface.live_game_action."

  /** What the checks outside the row say: per kind the preflight, the process and the ready
      file's context; per command its snapshot's path, metadata and payload. */
  datatype Context = Context(
    supports: string -> bool,
    snapshotValid: (string, string) -> bool)

  function CommandProofLine(name: string): string {
    "proof.issue_commands.command." + name + "=passed"
  }

  /** commandEvidenceProofIsProven. */
  predicate CommandProven(lines: seq<string>, ctx: Context, kind: string, e: CommandEvidence) {
    && ctx.supports(kind)
    && e.detail == CommandProofLine(e.name) && CommandProofLine(e.name) in lines
    && ctx.snapshotValid(e.name, kind)
  }

  // ---- manifests ----

  const STATIC_DETAIL := "static-manifest-live-proof-requires-validated-resident-proof"

  function Downgraded(e: CommandEvidence): CommandEvidence {
    if e.status != LiveProven then e
    else
      CommandEvidence(e.name, DocumentedScenario,
                      if e.detail == "" then STATIC_DETAIL else e.detail + ":" + STATIC_DETAIL)
  }

  function DowngradedAll(evidence: seq<CommandEvidence>): (r: seq<CommandEvidence>)
    ensures |r| == |evidence|
  {
    seq(|evidence|, i requires 0 <= i < |evidence| => Downgraded(evidence[i]))
  }

  /** staticManifestCommandEvidence. */
  method StaticManifestEvidence(evidence: seq<CommandEvidence>) returns (entries: seq<CommandEvidence>)
    ensures entries == DowngradedAll(evidence)
  {
    entries := evidence;
    for i := 0 to |entries|
      invariant |entries| == |evidence|
      invariant forall k :: 0 <= k < i ==> entries[k] == Downgraded(evidence[k])
      invariant forall k :: i <= k < |entries| ==> entries[k] == evidence[k]
    {
      if entries[i].status != LiveProven {
        continue;
      }
      entries := entries[i := Downgraded(entries[i])];
    }
  }

  /** A manifest's own evidence keeps its names and its other statuses, and never counts as live. */
  lemma ManifestIsNeverLive(evidence: seq<CommandEvidence>)
    ensures Names(DowngradedAll(evidence)) == Names(evidence) && NoneLive(DowngradedAll(evidence))
    ensures forall i :: 0 <= i < |evidence| ==>
              if evidence[i].status == LiveProven then DowngradedAll(evidence)[i].status == DocumentedScenario
              else DowngradedAll(evidence)[i] == evidence[i]
  {
  }

  // ---- rows of the ready file ----

  predicate AllDigits(s: string) {
    s != "" && forall i :: 0 <= i < |s| ==> '0' <= s[i] <= '9'
  }

  function ParseStatus(text: string): Option<EvidenceStatus> {
    if text == "live-proven" then Some(LiveProven)
    else if text == "mock-tested" then Some(MockTested)
    else if text == "documented-scenario" then Some(DocumentedScenario)
    else if text == "fail-closed" then Some(FailClosed)
    else if text == "adapter-local" then Some(AdapterLocal)
    else None
  }

  /** parseBridgeLiveCommandEvidenceValue: name|status|detail with exactly two bars. */
  function ParseRow(value: string): Option<CommandEvidence> {
    var first := E.IndexOf(value, '|');
    if first == |value| then None
    else
      var rest := value[first + 1..];
      var second := E.IndexOf(rest, '|');
      if second == |rest| || '|' in rest[second + 1..] then None
      else
        var name, detail := value[..first], rest[second + 1..];
        match ParseStatus(rest[..second])
        case None => None
        case Some(status) => if name == "" || detail == "" then None else Some(CommandEvidence(name, status, detail))
  }

  predicate IsRow(line: string, prefix: string) {
    B.HasKey(line) && prefix <= B.KeyOf(line)
  }

  datatype Source = Source(lines: seq<string>, ctx: Context, prefix: string, kind: string, expected: seq<string>)

  /** What a row proves on its own, duplicates aside. */
  function RowEvidence(src: Source, line: string): Option<CommandEvidence>
    requires IsRow(line, src.prefix)
  {
    if !AllDigits(B.KeyOf(line)[|src.prefix|..]) then None
    else
      match ParseRow(B.ValueOf(line))
      case None => None
      case Some(e) =>
        if e.status == LiveProven && e.name in src.expected && CommandProven(src.lines, src.ctx, src.kind, e)
        then Some(e) else None
  }

  function HasName(entries: seq<CommandEvidence>, name: string): bool {
    exists i :: 0 <= i < |entries| && entries[i].name == name
  }

  /** The rows among the first n lines, or None once a row was bad or named twice. */
  function RowsBelow(src: Source, n: nat): Option<seq<CommandEvidence>>
    requires n <= |src.lines|
  {
    if n == 0 then Some([])
    else
      match RowsBelow(src, n - 1)
      case None => None
      case Some(entries) =>
        var line := src.lines[n - 1];
        if !IsRow(line, src.prefix) then Some(entries)
        else
          match RowEvidence(src, line)
          case None => None
          case Some(e) => if HasName(entries, e.name) then None else Some(entries + [e])
  }

  function LiveRows(src: Source): seq<CommandEvidence> {
    match RowsBelow(src, |src.lines|)
    case None => []
    case Some(entries) => entries
  }

  /** readProofBackedLiveCommandEvidence. */
  method ReadLiveEvidence(src: Source) returns (entries: seq<CommandEvidence>)
    ensures entries == LiveRows(src)
  {
    hide IsRow, RowEvidence;
    entries := [];
    var seen: set<string> := {};
    for i := 0 to |src.lines|
      invariant RowsBelow(src, i) == Some(entries)
      invariant forall name :: name in seen <==> HasName(entries, name)
    {
      var line := src.lines[i];
      if !IsRow(line, src.prefix) {
        continue;
      }
      var evidence := RowEvidence(src, line);
      if evidence.None? || evidence.value.name in seen {
        VoidStays(src, i + 1, |src.lines|);
        return [];
      }
      NameAdded(entries, evidence.value);
      seen := seen + {evidence.value.name};
      entries := entries + [evidence.value];
    }
  }

  lemma NameAdded(entries: seq<CommandEvidence>, e: CommandEvidence)
    ensures forall name :: HasName(entries + [e], name) <==> HasName(entries, name) || name == e.name
  {
    forall name ensures HasName(entries + [e], name) <==> HasName(entries, name) || name == e.name {
      var longer := entries + [e];
      assert longer[|entries|] == e;
      assert forall i :: 0 <= i < |entries| ==> longer[i] == entries[i];
    }
  }

  lemma {:induction false} VoidStays(src: Source, n: nat, m: nat)
    requires n <= m <= |src.lines| && RowsBelow(src, n).None?
    ensures RowsBelow(src, m).None?
    decreases m
  {
    hide IsRow, RowEvidence;
    if n >= m {
    } else {
      VoidStays(src, n, m - 1);
    }
  }

  // ---- provenance of rows ----

  /** A row of the file that proves this entry. */
  ghost predicate ProvenBy(src: Source, e: CommandEvidence, i: nat) {
    i < |src.lines| && IsRow(src.lines[i], src.prefix) && RowEvidence(src, src.lines[i]) == Some(e)
  }

  /** Every row among the first n lines is good, and no two name the same command. */
  ghost predicate GoodRows(src: Source, n: nat)
    requires n <= |src.lines|
  {
    && (forall i :: 0 <= i < n && IsRow(src.lines[i], src.prefix) ==> RowEvidence(src, src.lines[i]).Some?)
    && (forall i, j :: 0 <= i < j < n && IsRow(src.lines[i], src.prefix) && IsRow(src.lines[j], src.prefix) ==>
          RowEvidence(src, src.lines[i]).value.name != RowEvidence(src, src.lines[j]).value.name)
  }

  ghost predicate Collected(src: Source, n: nat, entries: seq<CommandEvidence>)
    requires n <= |src.lines|
  {
    && (forall e :: e in entries ==> exists i: nat :: i < n && ProvenBy(src, e, i))
    && (forall i, e :: 0 <= i < n && ProvenBy(src, e, i) ==> e in entries)
  }

  /** All or nothing: the entries are all rows if every row is good, and otherwise none. */
  lemma {:induction false} RowsAreAllOrNothing(src: Source, n: nat)
    requires n <= |src.lines|
    ensures RowsBelow(src, n).Some? <==> GoodRows(src, n)
    ensures RowsBelow(src, n).Some? ==> Collected(src, n, RowsBelow(src, n).value)
  {
    hide IsRow, RowEvidence;
    if n == 0 {
    } else {
      RowsAreAllOrNothing(src, n - 1);
      if RowsBelow(src, n - 1).Some? {
        RowAdded(src, n - 1, RowsBelow(src, n - 1).value);
      }
    }
  }

  lemma RowAdded(src: Source, n: nat, entries: seq<CommandEvidence>)
    requires n < |src.lines| && GoodRows(src, n) && Collected(src, n, entries)
    ensures var line := src.lines[n];
            if !IsRow(line, src.prefix) then GoodRows(src, n + 1) && Collected(src, n + 1, entries)
            else if RowEvidence(src, line).Some? && !HasName(entries, RowEvidence(src, line).value.name)
            then GoodRows(src, n + 1) && Collected(src, n + 1, entries + [RowEvidence(src, line).value])
            else !GoodRows(src, n + 1)
  {
    hide IsRow, RowEvidence;
    var line := src.lines[n];
    if IsRow(line, src.prefix) && RowEvidence(src, line).Some? {
      var e := RowEvidence(src, line).value;
      assert ProvenBy(src, e, n);
      if HasName(entries, e.name) {
        var k :| 0 <= k < |entries| && entries[k].name == e.name;
        assert entries[k] in entries;
        var i: nat :| i < n && ProvenBy(src, entries[k], i);
      } else {
        forall i | 0 <= i < n && IsRow(src.lines[i], src.prefix)
          ensures RowEvidence(src, src.lines[i]).value.name != e.name
        {
          var f := RowEvidence(src, src.lines[i]).value;
          assert ProvenBy(src, f, i);
          assert f in entries;
        }
      }
    }
  }

  /** Every entry read is live-proven, expected, and backed by its own proof line and snapshot. */
  lemma LiveRowsAreProven(src: Source, e: CommandEvidence)
    requires e in LiveRows(src)
    ensures e.status == LiveProven && e.name in src.expected
    ensures CommandProven(src.lines, src.ctx, src.kind, e)
    ensures exists i: nat :: ProvenBy(src, e, i)
  {
    hide RowsBelow;
    RowsAreAllOrNothing(src, |src.lines|);
    var i: nat :| i < |src.lines| && ProvenBy(src, e, i);
    hide IsRow, ParseRow, CommandProven;
  }

  /** One bad or repeated row voids every row of its prefix. */
  lemma OneBadRowVoidsAll(src: Source)
    requires !GoodRows(src, |src.lines|)
    ensures LiveRows(src) == []
  {
    RowsAreAllOrNothing(src, |src.lines|);
    hide RowsBelow, GoodRows;
  }

  // ---- texts of rows ----

  lemma StatusText(text: string)
    ensures ParseStatus(text) == Some(LiveProven) <==> text == "live-proven"
  {
  }

  lemma Bars(a: string, b: string, c: string)
    requires '|' !in a && '|' !in b
    ensures var v, rest := a + "|" + (b + "|" + c), b + "|" + c;
            && E.IndexOf(v, '|') == |a| && v[..|a|] == a && v[|a| + 1..] == rest
            && E.IndexOf(rest, '|') == |b| && rest[..|b|] == b && rest[|b| + 1..] == c
  {
    E.IndexIs(a + "|" + (b + "|" + c), '|', |a|);
    E.IndexIs(b + "|" + c, '|', |b|);
  }

  lemma LiveRowParses(name: string, detail: string)
    requires name != "" && detail != "" && '|' !in name && '|' !in detail
    ensures ParseRow(name + "|" + ("live-proven" + "|" + detail)) == Some(CommandEvidence(name, LiveProven, detail))
  {
    NoBarInStatus();
    Bars(name, "live-proven", detail);
    StatusText("live-proven");
    hide E.IndexOf, ParseStatus;
  }

  lemma NoBarInStatus()
    ensures '|' !in "live-proven"
  {
  }

  lemma ParsedRowIs(value: string)
    requires ParseRow(value).Some? && ParseRow(value).value.status == LiveProven
    ensures var e := ParseRow(value).value;
            && e.name != "" && e.detail != "" && '|' !in e.name && '|' !in e.detail
            && value == e.name + "|" + ("live-proven" + "|" + e.detail)
  {
    hide E.IndexOf, ParseStatus;
    var first := E.IndexOf(value, '|');
    var rest := value[first + 1..];
    var second := E.IndexOf(rest, '|');
    StatusText(rest[..second]);
    assert value == value[..first] + "|" + rest;
    assert rest == rest[..second] + "|" + rest[second + 1..];
  }

  /** The row's text: a numbered key, the command's name, its status and its own proof line. */
  predicate RowText(prefix: string, digits: string, line: string, name: string) {
    && AllDigits(digits) && name != "" && '|' !in name
    && line == (prefix + digits) + "="
               + (name + "|" + ("live-proven" + "|" + ("proof.issue_commands.command." + name + "=passed")))
  }

  /** What a row for this command needs besides its text. */
  predicate CommandBacked(src: Source, name: string) {
    && name in src.expected
    && "proof.issue_commands.command." + name + "=passed" in src.lines
    && src.ctx.supports(src.kind) && src.ctx.snapshotValid(name, src.kind)
  }

  lemma KeySplits(key: string, value: string)
    requires '=' !in key
    ensures var line := key + "=" + value; B.HasKey(line) && B.KeyOf(line) == key && B.ValueOf(line) == value
  {
    var line := key + "=" + value;
    E.IndexIs(line, '=', |key|);
    assert line[..|key|] == key && line[|key| + 1..] == value;
  }

  lemma ProofLineHasNoBar(name: string)
    requires '|' !in name
    ensures '|' !in CommandProofLine(name) && CommandProofLine(name) != ""
  {
    assert '|' !in "proof.issue_commands.command." && '|' !in "=passed";
  }

  /**
    A row proves an entry exactly when it spells the entry's command with its own proof line,
    the command is expected, that line stands in the file, and the snapshot was validated.
   */
  lemma RowMeans(src: Source, line: string, e: CommandEvidence)
    requires '=' !in src.prefix
    ensures IsRow(line, src.prefix) && RowEvidence(src, line) == Some(e)
            <==> && e == CommandEvidence(e.name, LiveProven, "proof.issue_commands.command." + e.name + "=passed")
                 && CommandBacked(src, e.name) && exists digits :: RowText(src.prefix, digits, line, e.name)
  {
    hide ParseRow, AllDigits, B.HasKey, B.KeyOf, B.ValueOf;
    if IsRow(line, src.prefix) && RowEvidence(src, line) == Some(e) {
      RowSpells(src, line, e);
    }
    if digits :| RowText(src.prefix, digits, line, e.name)
                 && e == CommandEvidence(e.name, LiveProven, CommandProofLine(e.name)) && CommandBacked(src, e.name)
    {
      SpelledRowProves(src, line, e, digits);
    }
  }

  lemma LineSplits(line: string)
    requires B.HasKey(line)
    ensures line == B.KeyOf(line) + "=" + B.ValueOf(line)
  {
  }

  lemma RowTextIs(line: string, prefix: string, name: string)
    requires B.HasKey(line) && prefix <= B.KeyOf(line) && AllDigits(B.KeyOf(line)[|prefix|..])
    requires B.ValueOf(line) == name + "|" + ("live-proven" + "|" + CommandProofLine(name))
    requires name != "" && '|' !in name
    ensures exists digits :: RowText(prefix, digits, line, name)
  {
    LineSplits(line);
    hide AllDigits, B.HasKey, B.KeyOf, B.ValueOf;
    var digits := B.KeyOf(line)[|prefix|..];
    assert B.KeyOf(line) == prefix + digits;
    assert RowText(prefix, digits, line, name);
  }

  lemma RowParts(src: Source, line: string, e: CommandEvidence)
    requires IsRow(line, src.prefix) && RowEvidence(src, line) == Some(e)
    ensures AllDigits(B.KeyOf(line)[|src.prefix|..]) && ParseRow(B.ValueOf(line)) == Some(e)
    ensures e.status == LiveProven && e.name in src.expected && CommandProven(src.lines, src.ctx, src.kind, e)
  {
    hide ParseRow, AllDigits, B.HasKey, B.KeyOf, B.ValueOf, CommandProven;
  }

  lemma ProvenIsBacked(src: Source, e: CommandEvidence)
    requires e.status == LiveProven && e.name in src.expected && CommandProven(src.lines, src.ctx, src.kind, e)
    ensures e == CommandEvidence(e.name, LiveProven, CommandProofLine(e.name)) && CommandBacked(src, e.name)
  {
  }

  lemma RowSpells(src: Source, line: string, e: CommandEvidence)
    requires IsRow(line, src.prefix) && RowEvidence(src, line) == Some(e)
    ensures e == CommandEvidence(e.name, LiveProven, CommandProofLine(e.name))
    ensures CommandBacked(src, e.name) && exists digits :: RowText(src.prefix, digits, line, e.name)
  {
    RowParts(src, line, e);
    ProvenIsBacked(src, e);
    hide ParseRow, AllDigits, B.HasKey, B.KeyOf, B.ValueOf, RowEvidence, CommandProven, CommandBacked, RowText;
    hide CommandProofLine;
    ParsedRowIs(B.ValueOf(line));
    RowTextIs(line, src.prefix, e.name);
  }

  lemma SpelledRowProves(src: Source, line: string, e: CommandEvidence, digits: string)
    requires '=' !in src.prefix && RowText(src.prefix, digits, line, e.name)
    requires e == CommandEvidence(e.name, LiveProven, CommandProofLine(e.name)) && CommandBacked(src, e.name)
    ensures IsRow(line, src.prefix) && RowEvidence(src, line) == Some(e)
  {
    var key := src.prefix + digits;
    assert key[|src.prefix|..] == digits;
    var detail := CommandProofLine(e.name);
    var value := e.name + "|" + ("live-proven" + "|" + detail);
    KeySplits(key, value);
    ProofLineHasNoBar(e.name);
    LiveRowParses(e.name, detail);
    hide ParseRow, AllDigits, B.HasKey, B.KeyOf, B.ValueOf;
    assert line == key + "=" + value;
  }

  // ---- merging ----

  function FirstNamed(target: seq<CommandEvidence>, name: string): (i: nat)
    ensures i <= |target|
    ensures i < |target| ==> target[i].name == name
    ensures forall k :: 0 <= k < i ==> target[k].name != name
  {
    if target == [] || target[0].name == name then 0 else 1 + FirstNamed(target[1..], name)
  }

  function MergeOne(target: seq<CommandEvidence>, e: CommandEvidence): (r: seq<CommandEvidence>)
    ensures |r| == |target|
  {
    var i := FirstNamed(target, e.name);
    if i == |target| then target else target[i := e]
  }

  function Merge(target: seq<CommandEvidence>, live: seq<CommandEvidence>): (r: seq<CommandEvidence>)
    decreases |live|
    ensures |r| == |target|
  {
    if live == [] then target else Merge(MergeOne(target, live[0]), live[1..])
  }

  /** mergeLiveCommandEvidence: the first entry of each name is replaced in place. */
  class EvidenceList {
    var entries: seq<CommandEvidence>

    constructor (entries: seq<CommandEvidence>)
      ensures this.entries == entries
    {
      this.entries := entries;
    }

    method MergeLive(live: seq<CommandEvidence>)
      modifies this
      ensures entries == Merge(old(entries), live)
    {
      for i := 0 to |live|
        invariant Merge(entries, live[i..]) == Merge(old(entries), live)
      {
        assert live[i..][0] == live[i] && live[i..][1..] == live[i + 1..];
        var at := 0;
        while at < |entries| && entries[at].name != live[i].name
          invariant at <= |entries| && FirstNamed(entries, live[i].name) >= at
        {
          at := at + 1;
        }
        if at < |entries| {
          entries := entries[at := live[i]];
        }
      }
    }
  }

  /** Merging keeps the names and their order; entries are the old ones or merged ones. */
  lemma {:induction false} MergeKeepsNames(target: seq<CommandEvidence>, live: seq<CommandEvidence>)
    ensures Names(Merge(target, live)) == Names(target)
    ensures forall i :: 0 <= i < |target| ==>
              Merge(target, live)[i] == target[i] || Merge(target, live)[i] in live
    decreases |live|
  {
    hide FirstNamed;
    if live == [] {
    } else {
      var once := MergeOne(target, live[0]);
      MergeKeepsNames(once, live[1..]);
      assert Names(once) == Names(target);
    }
  }

  /** The first entry of a merged name has the merged evidence. */
  lemma {:induction false} MergeTakesEffect(target: seq<CommandEvidence>, live: seq<CommandEvidence>,
                                            e: CommandEvidence)
    requires e in live && e.name in Names(target)
    requires forall i, j :: 0 <= i < j < |live| ==> live[i].name != live[j].name
    ensures StatusFor(Merge(target, live), e.name) == e.status
    decreases |live|
  {
    var once := MergeOne(target, live[0]);
    MergeKeepsNames(target, [live[0]]);
    assert Merge(target, [live[0]]) == once;
    if live[0] == e {
      StatusAtFirst(target, e);
      MergeLeavesOthers(once, live[1..], e.name);
    } else {
      assert e in live[1..];
      MergeTakesEffect(once, live[1..], e);
    }
  }

  lemma {:induction false} StatusAtFirst(target: seq<CommandEvidence>, e: CommandEvidence)
    requires e.name in Names(target)
    ensures StatusFor(MergeOne(target, e), e.name) == e.status
  {
    if target[0].name == e.name {
    } else {
      assert Names(target) == [target[0].name] + Names(target[1..]);
      StatusAtFirst(target[1..], e);
      assert MergeOne(target, e)[1..] == MergeOne(target[1..], e);
    }
  }

  lemma {:induction false} MergeLeavesOthers(target: seq<CommandEvidence>, live: seq<CommandEvidence>, name: string)
    requires forall i :: 0 <= i < |live| ==> live[i].name != name
    ensures StatusFor(Merge(target, live), name) == StatusFor(target, name)
    decreases |live|
  {
    if live == [] {
    } else {
      OneLeavesOthers(target, live[0], name);
      MergeLeavesOthers(MergeOne(target, live[0]), live[1..], name);
    }
  }

  lemma {:induction false} OneLeavesOthers(target: seq<CommandEvidence>, e: CommandEvidence, name: string)
    requires e.name != name
    ensures StatusFor(MergeOne(target, e), name) == StatusFor(target, name)
  {
    if target == [] || target[0].name == e.name {
    } else {
      OneLeavesOthers(target[1..], e, name);
      assert MergeOne(target, e)[1..] == MergeOne(target[1..], e) || MergeOne(target, e) == target;
      assert MergeOne(target, e)[0] == target[0];
    }
  }

  /**
    After the merge an entry is live-proven only if a ready-file row for that very command
    passed its checks, provided no entry was live before: manifests and the built-in surface
    never bring one.
   */
  lemma LiveOnlyFromRows(target: seq<CommandEvidence>, src: Source, e: CommandEvidence)
    requires NoneLive(target)
    requires e in Merge(target, LiveRows(src)) && e.status == LiveProven
    ensures e.name in src.expected && CommandProven(src.lines, src.ctx, src.kind, e)
    ensures exists i: nat :: ProvenBy(src, e, i)
  {
    MergeKeepsNames(target, LiveRows(src));
    hide Merge, LiveRows, ProvenBy, CommandProven;
    LiveRowsAreProven(src, e);
  }
}
