/**
  What the rows of a ready file must say: for the sinks of commands, the proof of the
  shared-memory transport, and the file's admission as the bridge of this runtime.
 */
module ReadyRows {
  import opened Common
  import opened Evidence
  import opened BridgeProofs
  import opened BridgeLaws
  import opened CommandSinks
  import opened ProductionGate
  import opened GateSurvey

  // ---- one row ----

  /** The first line with this key has this value. */
  ghost predicate FirstRow(lines: seq<string>, key: string, value: string) {
    exists i :: 0 <= i < |lines| && IsFirst(lines, key, i) && lines[i] == key + "=" + value
  }

  ghost predicate IsFirst(lines: seq<string>, key: string, i: nat) {
    && i < |lines| && key + "=" <= lines[i]
    && forall j :: 0 <= j < i ==> !(key + "=" <= lines[j])
  }

  lemma {:induction false} FirstValueAt(lines: seq<string>, key: string, i: nat)
    requires IsFirst(lines, key, i)
    ensures FirstValue(lines, key) == lines[i][|key| + 1..]
  {
    if i == 0 {
    } else {
      assert !(key + "=" <= lines[0]);
      FirstValueAt(lines[1..], key, i - 1);
    }
  }

  lemma {:induction false} FirstValueHasRow(lines: seq<string>, key: string) returns (i: nat)
    requires FirstValue(lines, key) != ""
    ensures IsFirst(lines, key, i)
  {
    if key + "=" <= lines[0] {
      i := 0;
    } else {
      var k := FirstValueHasRow(lines[1..], key);
      i := k + 1;
    }
  }

  lemma FirstValueMeans(lines: seq<string>, key: string, value: string)
    requires value != ""
    ensures FirstValue(lines, key) == value <==> FirstRow(lines, key, value)
  {
    hide FirstValue;
    if FirstValue(lines, key) == value {
      var i := FirstValueHasRow(lines, key);
      FirstValueAt(lines, key, i);
      assert lines[i] == key + "=" + lines[i][|key| + 1..];
    }
    if i :| 0 <= i < |lines| && IsFirst(lines, key, i) && lines[i] == key + "=" + value {
      FirstValueAt(lines, key, i);
    }
  }

  // ---- bindings that a proof backs ----

  /** The binding's first row gives its kind and evidence of a proof line that holds. */
  ghost predicate RowBacks(lines: seq<string>, lib: Library, name: string, kindText: string, line: string,
                           evidence: string)
  {
    && FirstRow(lines, "contract.binding." + name, kindText + "|" + evidence)
    && Backs(evidence, line) && line in lines && lib.validated(lines, line)
  }

  lemma ProvenEvidenceMeans(lines: seq<string>, lib: Library, name: string, kind: BindingKind, line: string,
                            evidence: string)
    requires ProvesBinding(name, kind, line) && IsProofText(line)
    ensures ProvenEvidence(lines, lib, name, kind) == Some(evidence)
            <==> RowBacks(lines, lib, name, KindText(kind), line, evidence)
  {
    ValueMeans(lines, name, KindText(kind), evidence);
    BindingEvidenceMeans(name, kind, evidence);
    ExpectedProves(name, kind);
    LineMeans(evidence, line);
    hide FirstValue, FirstRow, AllowedForBinding, KindText, Allowed, Backs, ProofLine, ProvesBinding;
  }

  lemma ValueMeans(lines: seq<string>, name: string, kindText: string, evidence: string)
    ensures var value := FirstValue(lines, BINDING_PREFIX + name);
            kindText + "|" <= value && value[|kindText| + 1..] == evidence
            <==> FirstRow(lines, "contract.binding." + name, kindText + "|" + evidence)
  {
    hide FirstValue, FirstRow;
    var value := FirstValue(lines, BINDING_PREFIX + name);
    FirstValueMeans(lines, BINDING_PREFIX + name, kindText + "|" + evidence);
    if kindText + "|" <= value {
      assert value == kindText + "|" + value[|kindText| + 1..];
    }
  }

  // ---- sinks ----

  predicate IsQueueBinding(name: string) {
    name == "BW::BWDATA::sgdwBytesInCmdQueue" || name == "BW::BWDATA::TurnBuffer"
  }

  ghost predicate QueueRow(lines: seq<string>, lib: Library, name: string, evidence: string) {
    RowBacks(lines, lib, name, "command-queue", "proof.issue_commands=passed", evidence)
  }

  /** The text behind the last colon of the row's evidence is this address. */
  ghost predicate TellsAddress(lines: seq<string>, lib: Library, parse: string -> Option<nat>, name: string,
                               address: nat)
  {
    exists before, digits ::
      QueueRow(lines, lib, name, before + ":" + digits) && IsAddressText(digits, parse, address)
  }

  predicate IsAddressText(digits: string, parse: string -> Option<nat>, address: nat) {
    digits != "" && ':' !in digits && parse(digits) == Some(address)
  }

  lemma QueueEvidenceMeans(lines: seq<string>, lib: Library, name: string, evidence: string)
    requires IsQueueBinding(name)
    ensures ProvenEvidence(lines, lib, name, CommandQueue) == Some(evidence) <==> QueueRow(lines, lib, name, evidence)
  {
    hide ProvenEvidence, RowBacks, IsProofText;
    OtherProofTexts();
    ProvenEvidenceMeans(lines, lib, name, CommandQueue, ISSUE_COMMANDS, evidence);
  }

  lemma AddressMeans(lines: seq<string>, lib: Library, parse: string -> Option<nat>, name: string, address: nat)
    requires IsQueueBinding(name)
    ensures BindingAddress(lines, lib, parse, name) == Some(address) <==> TellsAddress(lines, lib, parse, name, address)
  {
    hide ProvenEvidence, QueueRow, IsQueueBinding, LastIndexOf;
    if BindingAddress(lines, lib, parse, name) == Some(address) {
      var e := ProvenEvidence(lines, lib, name, CommandQueue).value;
      var colon := LastIndexOf(e, ':');
      QueueEvidenceMeans(lines, lib, name, e);
      assert e == e[..colon] + ":" + e[colon + 1..];
      assert IsAddressText(e[colon + 1..], parse, address);
    }
    if before, digits :|
      QueueRow(lines, lib, name, before + ":" + digits) && IsAddressText(digits, parse, address)
    {
      var e := before + ":" + digits;
      QueueEvidenceMeans(lines, lib, name, e);
      LastColon(before, digits);
    }
  }

  lemma LastColon(before: string, digits: string)
    requires ':' !in digits
    ensures var e := before + ":" + digits;
            LastIndexOf(e, ':') == |before| && e[|before| + 1..] == digits
  {
    var e := before + ":" + digits;
    assert e[|before|] == ':';
    assert forall k :: |before| < k < |e| ==> e[k] == digits[k - |before| - 1];
  }

  ghost predicate TellsTurnBuffer(lines: seq<string>, lib: Library, parse: string -> Option<nat>,
                                  count: nat, buffer: nat)
  {
    && TellsAddress(lines, lib, parse, "BW::BWDATA::sgdwBytesInCmdQueue", count)
    && TellsAddress(lines, lib, parse, "BW::BWDATA::TurnBuffer", buffer)
  }

  /** The turn buffer is known exactly when both rows tell an address, each its own. */
  lemma DirectSinkMeans(lines: seq<string>, lib: Library, parse: string -> Option<nat>, count: nat, buffer: nat)
    ensures DirectSink(lines, lib, parse) == Some((count, buffer))
            <==> TellsTurnBuffer(lines, lib, parse, count, buffer)
  {
    hide BindingAddress, TellsAddress;
    AddressMeans(lines, lib, parse, COUNT_BINDING, count);
    AddressMeans(lines, lib, parse, BUFFER_BINDING, buffer);
  }

  /** An active receiver: two lines and both queue bindings backed by the issue-commands proof. */
  ghost predicate ActiveReceiver(lines: seq<string>, lib: Library) {
    && "command.receiver=active" in lines && "command.sink=runtime-command-queue-v1" in lines
    && (exists e :: QueueRow(lines, lib, "BW::BWDATA::sgdwBytesInCmdQueue", e))
    && (exists e :: QueueRow(lines, lib, "BW::BWDATA::TurnBuffer", e))
  }

  lemma ActiveSinkMeans(lines: seq<string>, lib: Library)
    ensures ActiveSink(lines, lib) <==> ActiveReceiver(lines, lib)
  {
    hide ProvenEvidence, QueueRow;
    BackedMeans(lines, lib, COUNT_BINDING);
    BackedMeans(lines, lib, BUFFER_BINDING);
  }

  lemma BackedMeans(lines: seq<string>, lib: Library, name: string)
    requires IsQueueBinding(name)
    ensures ProofBackedBinding(lines, lib, name, CommandQueue) <==> exists e :: QueueRow(lines, lib, name, e)
  {
    hide ProvenEvidence, QueueRow, IsQueueBinding;
    forall e ensures ProvenEvidence(lines, lib, name, CommandQueue) == Some(e) <==> QueueRow(lines, lib, name, e) {
      QueueEvidenceMeans(lines, lib, name, e);
    }
  }

  ghost predicate TransportRow(lines: seq<string>, lib: Library, evidence: string) {
    RowBacks(lines, lib, "shared-memory-client-transport", "transport", "proof.attach=passed", evidence)
  }

  lemma TransportEvidenceMeans(lines: seq<string>, lib: Library, evidence: string)
    ensures ProvenEvidence(lines, lib, TRANSPORT_BINDING, Transport) == Some(evidence)
            <==> TransportRow(lines, lib, evidence)
  {
    hide ProvenEvidence, RowBacks, IsProofText;
    OtherProofTexts();
    ProvenEvidenceMeans(lines, lib, TRANSPORT_BINDING, Transport, ATTACH, evidence);
  }

  /** The shared-memory transport counts as proven by the attach proof, judged without resident state. */
  lemma TransportMeans(w: World)
    ensures TransportProven(w)
            <==> "proof.attach=passed" in w.lines && exists e :: TransportRow(w.lines, w.bareLib, e)
  {
    hide ProvenEvidence, TransportRow;
    forall e ensures ProvenEvidence(w.lines, w.bareLib, TRANSPORT_BINDING, Transport) == Some(e)
                     <==> TransportRow(w.lines, w.bareLib, e)
    {
      TransportEvidenceMeans(w.lines, w.bareLib, e);
    }
  }

  // ---- admission ----

  /** At most one line has this key. */
  ghost predicate AtMostOnce(lines: seq<string>, key: string) {
    forall i, j :: 0 <= i < j < |lines| ==> !(key + "=" <= lines[i] && key + "=" <= lines[j])
  }

  lemma {:induction false} CountMeans(lines: seq<string>, key: string)
    ensures KeyCount(lines, key) == 0 <==> forall i :: 0 <= i < |lines| ==> !(key + "=" <= lines[i])
    ensures KeyCount(lines, key) <= 1 <==> AtMostOnce(lines, key)
  {
    if lines != [] {
      CountMeans(lines[1..], key);
      assert forall i :: 1 <= i < |lines| ==> lines[i] == lines[1..][i - 1];
    }
  }

  /** A key that stands once has the value of its one line. */
  lemma OnlyRow(lines: seq<string>, key: string, value: string)
    requires AtMostOnce(lines, key) && value != ""
    ensures FirstValue(lines, key) == value <==> key + "=" + value in lines
  {
    FirstValueMeans(lines, key, value);
    hide FirstValue;
    if key + "=" + value in lines {
      var i :| 0 <= i < |lines| && lines[i] == key + "=" + value;
      assert key + "=" <= lines[i];
      assert IsFirst(lines, key, i);
    }
  }

  /** The file names the process, when there is one, and an executable that is the target's. */
  ghost predicate NamesProcess(env: Environment, lines: seq<string>) {
    && (env.processId > 0 && env.processText != "" ==> "process_id=" + env.processText in lines)
    && (env.executable != "" ==>
          exists path :: path != "" && "executable=" + path in lines && env.samePath(path, env.executable))
  }

  predicate IsIdentityKey(key: string) {
    || key == "protocol" || key == "product" || key == "version"
    || key == "mode" || key == "process_id" || key == "executable"
  }

  lemma IdentityKeysMean(lines: seq<string>)
    ensures UniqueIdentityKeys(lines) <==> forall key :: IsIdentityKey(key) ==> AtMostOnce(lines, key)
  {
    hide KeyCount, AtMostOnce;
    forall key ensures KeyCount(lines, key) <= 1 <==> AtMostOnce(lines, key) {
      CountMeans(lines, key);
    }
    assert forall i :: 0 <= i < 6 ==> IsIdentityKey(IDENTITY_KEYS[i]);
    assert IDENTITY_KEYS[0] == "protocol" && IDENTITY_KEYS[1] == "product" && IDENTITY_KEYS[2] == "version";
    assert IDENTITY_KEYS[3] == "mode" && IDENTITY_KEYS[4] == "process_id" && IDENTITY_KEYS[5] == "executable";
  }

  lemma IdentityMeans(env: Environment, lines: seq<string>)
    requires AtMostOnce(lines, "process_id") && AtMostOnce(lines, "executable")
    requires env.processText != ""
    ensures IdentityOk(env, lines) <==> NamesProcess(env, lines)
  {
    hide AtMostOnce, FirstValue;
    OnlyRow(lines, "process_id", env.processText);
    assert "process_id" + "=" == "process_id=";
    assert "executable" + "=" == "executable=";
    forall path | path != "" ensures FirstValue(lines, "executable") == path <==> "executable=" + path in lines {
      OnlyRow(lines, "executable", path);
    }
  }

  /**
    The files whose proofs are applied: those of an open, configured bridge that name each
    identity key at most once, repeat no evidence key, and carry this runtime's protocol,
    product, version, mode, process and executable.
   */
  lemma AdmissionMeans(env: Environment, lines: seq<string>)
    requires env.processText != ""
    ensures Admitted(env, lines)
            <==> && env.bridgeConfigured && env.processId > 0 && env.readyExists && env.processOpens
                 && (forall key :: IsIdentityKey(key) ==> AtMostOnce(lines, key))
                 && UniqueEvidenceKeys(lines)
                 && "protocol=starcraft-api-file-bridge-v1" in lines
                 && "product=" + env.product in lines
                 && (env.version != "" ==> "version=" + env.version in lines)
                 && "mode=validated-runtime-adapter" in lines
                 && NamesProcess(env, lines)
  {
    hide UniqueIdentityKeys, UniqueEvidenceKeys, IdentityOk, NamesProcess, AtMostOnce, FirstValue;
    IdentityKeysMean(lines);
    ProtocolLineIs();
    if UniqueIdentityKeys(lines) {
      assert IsIdentityKey("mode") && IsIdentityKey("process_id") && IsIdentityKey("executable");
      IdentityMeans(env, lines);
      ModeMeans(lines);
    }
  }

  lemma ProtocolLineIs()
    ensures PROTOCOL_LINE == "protocol=starcraft-api-file-bridge-v1"
  {
  }

  lemma ModeMeans(lines: seq<string>)
    requires AtMostOnce(lines, "mode")
    ensures FirstValue(lines, "mode") == VALIDATED_MODE <==> "mode=validated-runtime-adapter" in lines
  {
    hide AtMostOnce, FirstValue;
    OnlyRow(lines, "mode", VALIDATED_MODE);
    assert "mode" + "=" + VALIDATED_MODE == "mode=validated-runtime-adapter";
  }
}
