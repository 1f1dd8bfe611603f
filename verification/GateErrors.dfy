/**
  The errors of a preflight, each with the finding it stands for: a message is reported
  exactly when what it says was found.
 */
module GateErrors {
  import opened Common
  import opened Contract
  import opened Evidence
  import opened BridgeLaws
  import opened BridgeProofs
  import opened GateCapabilities
  import opened GateLaws
  import opened GateSurvey
  import opened ProductionGate

  // ---- before the bridge ----

  /** Contract, platform, target and process. */
  predicate Finds(w: World, backed: RuntimeContract, m: GateMessage) {
    match m
    case ContractError(message) => message in ValidationErrors(backed)
    case PlatformUnsupported => !w.platformSupported
    case ProductUnsupported => !w.productSupported
    case TargetPathEmpty => w.env.executable == ""
    case TargetUninspectable => w.env.executable != "" && w.target.Uninspectable?
    case TargetMissing => w.env.executable != "" && w.target.Missing?
    case ProcessNotOpened => !w.env.processOpens
    case _ => false
  }

  lemma ContractErrorsMean(messages: seq<Message>, m: GateMessage)
    ensures m in ContractErrors(messages) <==> m.ContractError? && m.message in messages
  {
    if m.ContractError? && m.message in messages {
      var i :| 0 <= i < |messages| && messages[i] == m.message;
      assert ContractErrors(messages)[i] == m;
    }
  }

  lemma BeforeBridgeFinds(w: World, c: RuntimeContract, m: GateMessage)
    ensures m in BeforeBridge(w, c).errors <==> Finds(w, Apply(w.env, w.lines, w.lib, c), m)
  {
    ContractErrorsMean(ValidationErrors(Apply(w.env, w.lines, w.lib, c)), m);
    hide Apply, ValidationErrors, ContractErrors, Valid, NeedsMemory;
  }

  // ---- the first obstacle ----

  /** The check of the bridge that a message belongs to, in the order of the checks. */
  function Rank(m: GateMessage): nat {
    match m
    case BridgeMissing => 1
    case BridgeUninspectable => 1
    case BridgeNotDirectory => 2
    case DirectoryUninspectable => 2
    case ReadyMissing => 3
    case ReadyUninspectable => 3
    case BadProtocol => 4
    case DuplicateIdentityKey => 5
    case DuplicateEvidenceKey => 6
    case ProductMismatch => 7
    case VersionMismatch => 8
    case IdentityMismatch => 9
    case ResidentDetail(_) => 10
    case HeartbeatStale => 11
    case _ => 0
  }

  /** The check of the bridge fails. */
  ghost predicate Fails(w: World, rank: nat) {
    match rank
    case 1 => !w.bridge.Found?
    case 2 => !w.directory.Found?
    case 3 => !w.env.readyExists
    case 4 => "protocol=starcraft-api-file-bridge-v1" !in w.lines
    case 5 => !UniqueIdentityKeys(w.lines)
    case 6 => !UniqueEvidenceKeys(w.lines)
    case 7 => "product=" + w.env.product !in w.lines
    case 8 => w.env.version != "" && "version=" + w.env.version !in w.lines
    case 9 => !IdentityOk(w.env, w.lines)
    case 10 => w.resident.present && !w.resident.valid
    case 11 => !w.heartbeatAdvances
    case _ => false
  }

  /** Which of the messages of a failing check fits. */
  predicate Fits(w: World, m: GateMessage) {
    match m
    case BridgeMissing => w.bridge.Missing?
    case BridgeUninspectable => w.bridge.Uninspectable?
    case BridgeNotDirectory => w.directory.Missing?
    case DirectoryUninspectable => w.directory.Uninspectable?
    case ReadyMissing => !w.readyFault
    case ReadyUninspectable => w.readyFault
    case ResidentDetail(text) => text in w.resident.details
    case _ => true
  }

  /** The message belongs to the first check that fails. */
  ghost predicate FirstStop(w: World, m: GateMessage) {
    Fails(w, Rank(m)) && Fits(w, m) && forall k :: 0 <= k < Rank(m) ==> !Fails(w, k)
  }

  lemma ResidentDetailsMean(texts: seq<string>, m: GateMessage)
    ensures m in ResidentDetails(texts) <==> m.ResidentDetail? && m.text in texts
  {
    if m.ResidentDetail? && m.text in texts {
      var i :| 0 <= i < |texts| && texts[i] == m.text;
      assert ResidentDetails(texts)[i] == m;
    }
  }

  /** The first failing check from one rank on; 0 if there is none. */
  ghost function FirstFailing(w: World, from: nat): (k: nat)
    ensures k == 0 || (from <= k <= 11 && Fails(w, k))
    ensures forall j :: from <= j && (k == 0 || j < k) ==> !Fails(w, j)
    decreases 12 - from
  {
    if from > 11 then 0 else if Fails(w, from) then from else FirstFailing(w, from + 1)
  }

  lemma PathObstacle(w: World, k: nat, m: GateMessage)
    requires 1 <= k <= 3 && Fails(w, k) && forall j :: 1 <= j < k ==> !Fails(w, j)
    ensures Obstacle(w).Some? && (m in Obstacle(w).value <==> Rank(m) == k && Fits(w, m))
  {
    hide UniqueIdentityKeys, UniqueEvidenceKeys, IdentityOk, ResidentDetails;
    assert k > 1 ==> !Fails(w, 1);
    assert k > 2 ==> !Fails(w, 2);
  }

  /** The paths are there. */
  predicate PathsFound(w: World) {
    w.bridge.Found? && w.directory.Found? && w.env.readyExists
  }

  lemma FileObstacle(w: World, k: nat, m: GateMessage)
    requires PathsFound(w) && 4 <= k <= 7 && Fails(w, k) && forall j :: 4 <= j < k ==> !Fails(w, j)
    ensures Obstacle(w).Some? && (m in Obstacle(w).value <==> Rank(m) == k && Fits(w, m))
  {
    hide UniqueIdentityKeys, UniqueEvidenceKeys, IdentityOk, ResidentDetails;
    ProtocolIs();
    assert k > 4 ==> !Fails(w, 4);
    assert k > 5 ==> !Fails(w, 5);
    assert k > 6 ==> !Fails(w, 6);
  }

  /** The file speaks the protocol for this product and repeats no key. */
  ghost predicate FileFits(w: World) {
    && PROTOCOL_LINE in w.lines && UniqueIdentityKeys(w.lines) && UniqueEvidenceKeys(w.lines)
    && "product=" + w.env.product in w.lines
  }

  lemma RuntimeObstacle(w: World, k: nat, m: GateMessage)
    requires PathsFound(w) && FileFits(w) && 8 <= k <= 11 && Fails(w, k) && forall j :: 8 <= j < k ==> !Fails(w, j)
    ensures Obstacle(w).Some? && (m in Obstacle(w).value <==> Rank(m) == k && Fits(w, m))
  {
    hide UniqueIdentityKeys, UniqueEvidenceKeys, IdentityOk, ResidentDetails;
    ResidentDetailsMean(w.resident.details, m);
    assert k > 8 ==> !Fails(w, 8);
    assert k > 9 ==> !Fails(w, 9);
    assert k > 10 ==> !Fails(w, 10);
  }

  lemma FileFitsNow(w: World)
    requires !Fails(w, 4) && !Fails(w, 5) && !Fails(w, 6) && !Fails(w, 7)
    ensures FileFits(w)
  {
    hide UniqueIdentityKeys, UniqueEvidenceKeys;
    ProtocolIs();
  }

  lemma NoObstacleLeft(w: World)
    requires forall j :: 1 <= j ==> !Fails(w, j)
    ensures Obstacle(w).None?
  {
    hide UniqueIdentityKeys, UniqueEvidenceKeys, IdentityOk;
    ProtocolIs();
    assert !Fails(w, 1) && !Fails(w, 2) && !Fails(w, 3) && !Fails(w, 4) && !Fails(w, 5) && !Fails(w, 6);
    assert !Fails(w, 7) && !Fails(w, 8) && !Fails(w, 9) && !Fails(w, 10) && !Fails(w, 11);
  }

  lemma PathsAreFound(w: World)
    requires !Fails(w, 1) && !Fails(w, 2) && !Fails(w, 3)
    ensures PathsFound(w)
  {
  }

  lemma NothingAtZero(w: World)
    ensures !Fails(w, 0)
  {
  }

  /** The obstacle is what the first failing check has to say. */
  lemma ObstacleMeans(w: World, m: GateMessage)
    ensures (Obstacle(w).Some? && m in Obstacle(w).value) <==> FirstStop(w, m)
  {
    hide Obstacle, Fails, Fits, Rank, PathsFound, FileFits;
    NothingAtZero(w);
    var k := FirstFailing(w, 1);
    if k == 0 {
      NoObstacleLeft(w);
    } else if k <= 3 {
      PathObstacle(w, k, m);
    } else {
      PathsAreFound(w);
      if k <= 7 {
        FileObstacle(w, k, m);
      } else {
        FileFitsNow(w);
        RuntimeObstacle(w, k, m);
      }
    }
  }

  lemma ProtocolIs()
    ensures PROTOCOL_LINE == "protocol=starcraft-api-file-bridge-v1"
  {
  }

  // ---- the proofs ----

  /** What a survey has to say. */
  predicate SurveyFinds(w: World, m: GateMessage) {
    match m
    case NotValidated(line) =>
      line in ProofLines() && line in w.lines && ConditionMet(w, line) && !Validated(w, line)
    case GameStateUnproven => GAME_STATE in w.lines && !w.state.gameStateValid
    case ActiveMatchUnproven => ACTIVE_MATCH in w.lines && !w.state.activeMatchValid
    case SinkMissing => ISSUE_COMMANDS in w.lines && !ConditionMet(w, ISSUE_COMMANDS)
    case StateDetail(text) => StateFails(w) && text in w.state.details
    case _ => false
  }

  lemma {:induction false} DetailsMembers(ms: seq<GateMessage>, text: string)
    ensures text in Details(ms) <==> StateDetail(text) in ms
  {
    if ms != [] {
      DetailsMembers(ms[1..], text);
      assert ms == [ms[0]] + ms[1..];
    }
  }

  lemma SurveyErrorsMean(w: World, added: seq<GateMessage>, m: GateMessage)
    requires SurveyErrors(w, added)
    ensures m in added <==> SurveyFinds(w, m)
  {
    hide ProofLines, ConditionMet, Validated, Details;
    if m.StateDetail? {
      DetailsMembers(added, m.text);
    }
  }

  /** What the decision on the mode has to say. */
  predicate ModeFinds(w: World, m: GateMessage) {
    var mode := FirstValue(w.lines, "mode");
    match m
    case BootstrapOnly => mode == "launch-attach-bootstrap"
    case NotValidatedMode => mode != "launch-attach-bootstrap" && mode != "validated-runtime-adapter"
    case ProofMissing(line) => mode == "validated-runtime-adapter" && line in ProofLines() && !LineProven(w, line)
    case _ => false
  }

  lemma MissingErrorsMean(lines: seq<string>, m: GateMessage)
    ensures m in MissingErrors(lines) <==> m.ProofMissing? && m.line in lines
  {
    if m.ProofMissing? && m.line in lines {
      var i :| 0 <= i < |lines| && lines[i] == m.line;
      assert MissingErrors(lines)[i] == m;
    }
  }

  lemma ModeErrorsMean(w: World, proven: seq<Capability>, missing: seq<string>, m: GateMessage)
    requires SurveyLists(w, proven, missing)
    ensures m in ModeErrors(FirstValue(w.lines, "mode"), missing) <==> ModeFinds(w, m)
  {
    hide FirstValue, ProofLines, LineProven, MissingErrors, IsSubsequence, NoDuplicates, CapabilityProven;
    MissingErrorsMean(missing, m);
    ModesDiffer();
  }

  // ---- process and memory ----

  /** What the conclusion has to say once the mode is validated. */
  predicate ConclusionFinds(w: World, c: RuntimeContract, m: GateMessage) {
    && FirstValue(w.lines, "mode") == "validated-runtime-adapter"
    && match m
       case ProcessStale => !w.env.processOpens
       case MemoryDenied => w.env.processOpens && NeedsMemory(c) && !w.memoryOpens && !TransportProven(w)
       case _ => false
  }

  lemma ConcludedErrors(w: World, r: Report, memoryRequired: bool, m: GateMessage)
    ensures var after := Concluded(w, r, memoryRequired);
            m in after.errors <==>
              || m in r.errors
              || (m.ProcessStale? && !r.processIdentified)
              || (m.MemoryDenied? && r.processIdentified && memoryRequired && !r.memoryAccessible
                  && !TransportProven(w))
  {
    hide TransportProven;
  }

  lemma ProductionErrors(w: World, r: Report, m: GateMessage)
    ensures var (s, passed) := ProductionProof(w, r, false);
            m in s.errors <==> m in r.errors || SurveyFinds(w, m) || ModeFinds(w, m)
    ensures ProductionProof(w, r, false).1 <==> FirstValue(w.lines, "mode") == "validated-runtime-adapter"
  {
    hide ProductionProof, SurveyErrors, SurveyLists, ModeErrors, FirstValue, SurveyFinds, ModeFinds;
    ProductionProofMeans(w, r, false);
    var (s, passed) := ProductionProof(w, r, false);
    var added :| SurveyErrors(w, added) && s.errors == r.errors + added + ModeErrors(s.bridgeMode, s.missing);
    SurveyErrorsMean(w, added, m);
    ModeErrorsMean(w, s.proven, s.missing, m);
  }

  /** What the bridge's checks and proofs have to say. */
  ghost predicate BridgeFinds(w: World, c: RuntimeContract, m: GateMessage) {
    || FirstStop(w, m)
    || (Obstacle(w).None? && (SurveyFinds(w, m) || ModeFinds(w, m) || ConclusionFinds(w, c, m)))
  }

  /**
    A preflight reports a message exactly when what it says was found: about the contract with
    the bridge's proofs, the platform, the target or the process; about the first failing check
    of the bridge; or, past those checks, about a proof, the mode, the process or its memory.
   */
  lemma PreflightErrorsMean(w: World, c: RuntimeContract, m: GateMessage)
    ensures m in Preflight(w, c).errors
            <==> || Finds(w, Apply(w.env, w.lines, w.lib, c), m)
                 || (w.env.bridgeConfigured && BridgeFinds(w, c, m))
  {
    hide Obstacle, ProductionProof, Concluded, FirstStop, SurveyFinds, ModeFinds, Finds, BeforeBridge, Apply;
    hide RequiredLines, NeedsMemory, FirstValue, TransportProven;
    BeforeBridgeFinds(w, c, m);
    ObstacleMeans(w, m);
    BeforeBridgeFlags(w, c);
    var r := BeforeBridge(w, c);
    ProductionErrors(w, r, m);
    ConcludedErrors(w, ProductionProof(w, r, false).0, NeedsMemory(c), m);
    ProductionFlags(w, r);
  }

  lemma BeforeBridgeFlags(w: World, c: RuntimeContract)
    ensures var r := BeforeBridge(w, c);
            && r.processIdentified == w.env.processOpens
            && r.memoryAccessible == (w.env.processOpens && NeedsMemory(c) && w.memoryOpens)
  {
    BeforeBridgeIsExact(w, c);
    hide BeforeBridge, NeedsMemory, Apply, Valid;
  }

  lemma ProductionFlags(w: World, r: Report)
    ensures var s := ProductionProof(w, r, false).0;
            s.processIdentified == r.processIdentified && s.memoryAccessible == r.memoryAccessible
  {
    DecisionIsExact(w, r);
    hide ProductionProof, ValidatedMode, AllProven;
  }
}
