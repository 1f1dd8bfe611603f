/**
  The executor preflight.  It applies the bridge's proofs to the contract, looks at the
  target, the process and the ready file, and walks the required behavior proofs; what it
  finds goes into one report.  File-system answers, the resident adapter's own validation
  and the proof validators are part of the World.
 */
module ProductionGate {
  import opened Common
  import opened Evidence
  import opened Contract
  import opened BridgeProofs
  import opened BridgeEffect
  import opened BridgeLaws
  import opened CommandSinks
  import opened GateCapabilities
  import opened GateSurvey

  // ---- the bridge ----

  /** The errors of the checks before the production proof, or None when all of them pass. */
  ghost function Obstacle(w: World): Option<seq<GateMessage>> {
    if w.bridge.Missing? then Some([BridgeMissing])
    else if w.bridge.Uninspectable? then Some([BridgeUninspectable])
    else if w.directory.Missing? then Some([BridgeNotDirectory])
    else if w.directory.Uninspectable? then Some([DirectoryUninspectable])
    else if !w.env.readyExists then Some([if w.readyFault then ReadyUninspectable else ReadyMissing])
    else if PROTOCOL_LINE !in w.lines then Some([BadProtocol])
    else if !UniqueIdentityKeys(w.lines) then Some([DuplicateIdentityKey])
    else if !UniqueEvidenceKeys(w.lines) then Some([DuplicateEvidenceKey])
    else if "product=" + w.env.product !in w.lines then Some([ProductMismatch])
    else if w.env.version != "" && "version=" + w.env.version !in w.lines then Some([VersionMismatch])
    else if !IdentityOk(w.env, w.lines) then Some([IdentityMismatch])
    else if w.resident.present && !w.resident.valid then Some(ResidentDetails(w.resident.details))
    else if !w.heartbeatAdvances then Some([HeartbeatStale])
    else None
  }

  predicate TransportProven(w: World) {
    ATTACH in w.lines && ProofBackedBinding(w.lines, w.bareLib, TRANSPORT_BINDING, Transport)
  }

  /** After a passed production proof: the process and its memory. */
  function Concluded(w: World, r: Report, memoryRequired: bool): Report {
    if !r.processIdentified then r.(errors := r.errors + [ProcessStale])
    else
      var m := if memoryRequired && !r.memoryAccessible && TransportProven(w) then r.(memoryAccessible := true) else r;
      if memoryRequired && !m.memoryAccessible then m.(errors := m.errors + [MemoryDenied])
      else m.(executorAvailable := true)
  }

  /** preflightExecutorBridge for a configured bridge. */
  ghost function BridgePreflight(w: World, r: Report, memoryRequired: bool): Report {
    match Obstacle(w)
    case Some(errors) => r.(errors := r.errors + errors)
    case None =>
      var (s, passed) := ProductionProof(w, r, false);
      if passed then Concluded(w, s, memoryRequired) else s
  }

  // ---- the whole preflight ----

  predicate NeedsMemory(c: RuntimeContract) {
    SharedMemoryClient in c.capabilities
  }

  function TargetErrors(w: World): seq<GateMessage> {
    if w.env.executable == "" then [TargetPathEmpty]
    else match w.target
         case Uninspectable => [TargetUninspectable]
         case Missing => [TargetMissing]
         case Found => []
  }

  ghost function BeforeBridge(w: World, c: RuntimeContract): Report {
    var backed := Apply(w.env, w.lines, w.lib, c);
    EMPTY_REPORT.(
      contractValid := Valid(backed),
      targetLocated := w.env.executable != "" && w.target.Found?,
      processIdentified := w.env.processOpens,
      memoryAccessible := w.env.processOpens && NeedsMemory(backed) && w.memoryOpens,
      errors := ContractErrors(ValidationErrors(backed))
                + (if w.platformSupported then [] else [PlatformUnsupported])
                + (if w.productSupported then [] else [ProductUnsupported])
                + TargetErrors(w)
                + (if w.env.processOpens then [] else [ProcessNotOpened]))
  }

  function RequiredLines(): seq<string> {
    seq(|Required()|, i requires 0 <= i < |Required()| => Required()[i].line)
  }

  /** preflightRuntimeExecutor. */
  ghost function Preflight(w: World, c: RuntimeContract): Report {
    var r := BeforeBridge(w, c);
    if w.env.bridgeConfigured then BridgePreflight(w, r, NeedsMemory(c)) else r.(missing := RequiredLines())
  }

  /** What the decision on the mode adds to the errors. */
  function ModeErrors(mode: string, missing: seq<string>): seq<GateMessage> {
    if mode == VALIDATED_MODE then MissingErrors(missing)
    else if mode == BOOTSTRAP_MODE then [BootstrapOnly] else [NotValidatedMode]
  }

  lemma ModesDiffer()
    ensures BOOTSTRAP_MODE != VALIDATED_MODE
  {
  }

  lemma SurveyKeepsMode(w: World, r: Report)
    ensures Surveyed(w, r).bridgeMode == FirstValue(w.lines, "mode")
  {
    hide FirstValue, Required, Extras;
    var cleared := r.(bridgeMode := FirstValue(w.lines, "mode"), missing := [], proven := []);
    WalkKeepsMode(w, cleared, Required(), false);
    ExtrasKeepMode(w, WalkProofs(w, cleared, Required(), false), Extras());
  }

  lemma {:induction false} WalkKeepsMode(w: World, r: Report, ps: seq<BehaviorProof>, reported: bool)
    ensures WalkProofs(w, r, ps, reported).bridgeMode == r.bridgeMode
    decreases |ps|
  {
    hide Judge, ProofMessages, AddCapability;
    if ps == [] {
    } else {
      WalkKeepsMode(w, NoteProof(w, r, ps[0], reported), ps[1..], reported || ReportsDetails(Judge(w, ps[0])));
    }
  }

  lemma {:induction false} ExtrasKeepMode(w: World, r: Report, extras: seq<(string, Capability)>)
    ensures AddExtras(w, r, extras).bridgeMode == r.bridgeMode
    decreases |extras|
  {
    hide AddCapability;
    if extras == [] {
    } else {
      var r' := if w.lib.validated(w.lines, extras[0].0) then r.(proven := AddCapability(r.proven, extras[0].1)) else r;
      ExtrasKeepMode(w, r', extras[1..]);
    }
  }

  /**
    What validating the production proof leaves: the lists and errors of the survey, the mode,
    one error for the mode or for each missing line, and whether the proof passed.
   */
  ghost predicate ProofReport(w: World, before: seq<GateMessage>, r: Report, requireAll: bool, passed: bool) {
    && SurveyLists(w, r.proven, r.missing)
    && r.bridgeMode == FirstValue(w.lines, "mode")
    && (passed <==> r.bridgeMode == VALIDATED_MODE && (requireAll ==> r.missing == []))
    && exists added :: SurveyErrors(w, added) && r.errors == before + added + ModeErrors(r.bridgeMode, r.missing)
  }

  lemma ProductionProofMeans(w: World, r: Report, requireAll: bool)
    ensures var (s, passed) := ProductionProof(w, r, requireAll); ProofReport(w, r.errors, s, requireAll, passed)
  {
    hide Surveyed, MissingErrors, SurveyLists, SurveyErrors, FirstValue;
    var s := Surveyed(w, r);
    SurveyReports(w, r);
    SurveyAddsErrors(w, r);
    SurveyKeepsMode(w, r);
    ModesDiffer();
    var added := s.errors[|r.errors|..];
    assert s.errors == r.errors + added;
    assert ProductionProof(w, r, requireAll).0.errors
        == r.errors + added + ModeErrors(s.bridgeMode, s.missing);
  }

  // ---- the report object ----

  class PreflightResult {
    var contractValid: bool
    var processIdentified: bool
    var memoryAccessible: bool
    var targetLocated: bool
    var executorAvailable: bool
    var bridgeMode: string
    var proven: seq<Capability>
    var missing: seq<string>
    var errors: seq<GateMessage>

    constructor ()
      ensures View() == EMPTY_REPORT
    {
      contractValid, processIdentified, memoryAccessible := false, false, false;
      targetLocated, executorAvailable, bridgeMode := false, false, "";
      proven, missing, errors := [], [], [];
    }

    ghost function View(): Report
      reads this
    {
      Report(contractValid, processIdentified, memoryAccessible, targetLocated, executorAvailable,
             bridgeMode, proven, missing, errors)
    }

    /** Contract, platform, target and process: everything before the bridge. */
    method Prepare(w: World, c: RuntimeContract, backed: RuntimeContract)
      requires View() == EMPTY_REPORT && backed == Apply(w.env, w.lines, w.lib, c)
      modifies this
      ensures View() == BeforeBridge(w, c)
    {
      hide Apply, ValidationErrors, ContractErrors, TargetErrors, NeedsMemory;
      var valid, messages := ValidateRuntimeContract(backed);
      contractValid := valid;
      errors := ContractErrors(messages);
      NotePlatform(w);
      LocateTarget(w);
      NoteProcess(w, NeedsMemory(backed));
    }

    method NoteProcess(w: World, memoryRequired: bool)
      modifies this`processIdentified, this`memoryAccessible, this`errors
      ensures processIdentified == w.env.processOpens
      ensures memoryAccessible == if w.env.processOpens && memoryRequired then w.memoryOpens else old(memoryAccessible)
      ensures errors == old(errors) + (if w.env.processOpens then [] else [ProcessNotOpened])
    {
      processIdentified := w.env.processOpens;
      if !w.env.processOpens {
        errors := errors + [ProcessNotOpened];
      } else if memoryRequired {
        memoryAccessible := w.memoryOpens;
      }
    }

    method NotePlatform(w: World)
      modifies this`errors
      ensures errors == old(errors) + (if w.platformSupported then [] else [PlatformUnsupported])
                                    + (if w.productSupported then [] else [ProductUnsupported])
    {
      if !w.platformSupported {
        errors := errors + [PlatformUnsupported];
      }
      if !w.productSupported {
        errors := errors + [ProductUnsupported];
      }
    }

    method LocateTarget(w: World)
      modifies this`targetLocated, this`errors
      ensures targetLocated == (w.env.executable != "" && w.target.Found?) || w.env.executable == ""
      ensures w.env.executable == "" ==> targetLocated == old(targetLocated)
      ensures errors == old(errors) + TargetErrors(w)
    {
      if w.env.executable == "" {
        errors := errors + [TargetPathEmpty];
        return;
      }
      targetLocated := w.target.Found?;
      if w.target.Uninspectable? {
        errors := errors + [TargetUninspectable];
      } else if !targetLocated {
        errors := errors + [TargetMissing];
      }
    }

    method AddCapabilityIfMissing(c: Capability)
      modifies this`proven
      ensures proven == AddCapability(old(proven), c)
    {
      if c !in proven {
        proven := proven + [c];
      }
    }

    method NoteBehaviorProof(w: World, p: BehaviorProof, reported: bool) returns (reportedNow: bool)
      modifies this
      ensures View() == NoteProof(w, old(View()), p, reported)
      ensures reportedNow == (reported || ReportsDetails(Judge(w, p)))
    {
      hide HasRuntimeSink;
      reportedNow := reported;
      if p.line !in w.lines {
        missing := missing + [p.line];
        return;
      }
      if p.id == "read-game-state" && !w.state.gameStateValid {
        missing := missing + [p.line];
        errors := errors + ([GameStateUnproven] + if reported then [] else StateDetails(w.state.details));
        return true;
      }
      if p.id == "active-match-state" && !w.state.activeMatchValid {
        missing := missing + [p.line];
        errors := errors + ([ActiveMatchUnproven] + if reported then [] else StateDetails(w.state.details));
        return true;
      }
      if p.id == "issue-commands" && !HasRuntimeSink(w) {
        missing := missing + [p.line];
        errors := errors + [SinkMissing];
        return;
      }
      if !w.lib.validated(w.lines, p.line) {
        missing := missing + [p.line];
        errors := errors + [NotValidated(p.line)];
        return;
      }
      AddCapabilityIfMissing(p.capability);
    }

    method WalkBehaviorProofs(w: World, ps: seq<BehaviorProof>)
      modifies this
      ensures View() == WalkProofs(w, old(View()), ps, false)
    {
      hide NoteProof, Judge;
      var reported := false;
      for i := 0 to |ps|
        invariant WalkProofs(w, View(), ps[i..], reported) == WalkProofs(w, old(View()), ps, false)
      {
        assert ps[i..][0] == ps[i] && ps[i..][1..] == ps[i + 1..];
        reported := NoteBehaviorProof(w, ps[i], reported);
      }
    }

    method AddExtraCapabilities(w: World, extras: seq<(string, Capability)>)
      modifies this
      ensures View() == AddExtras(w, old(View()), extras)
    {
      for i := 0 to |extras|
        invariant AddExtras(w, View(), extras[i..]) == AddExtras(w, old(View()), extras)
      {
        assert extras[i..][0] == extras[i] && extras[i..][1..] == extras[i + 1..];
        if w.lib.validated(w.lines, extras[i].0) {
          AddCapabilityIfMissing(extras[i].1);
        }
      }
    }

    method SurveyProofs(w: World)
      modifies this
      ensures View() == Surveyed(w, old(View()))
    {
      hide Required, Extras, WalkProofs, AddExtras, FirstValue;
      bridgeMode := FirstValue(w.lines, "mode");
      missing, proven := [], [];
      WalkBehaviorProofs(w, Required());
      AddExtraCapabilities(w, Extras());
    }

    method ReportMissing() returns (valid: bool)
      modifies this`errors
      ensures errors == old(errors) + MissingErrors(missing)
      ensures valid <==> missing == []
    {
      valid := true;
      for i := 0 to |missing|
        invariant errors == old(errors) + MissingErrors(missing[..i])
        invariant valid == (i == 0)
      {
        assert MissingErrors(missing[..i + 1]) == MissingErrors(missing[..i]) + [ProofMissing(missing[i])];
        errors := errors + [ProofMissing(missing[i])];
        valid := false;
      }
      assert missing[..|missing|] == missing;
    }

    method ValidateProductionBridgeProof(w: World, requireAll: bool) returns (passed: bool)
      modifies this
      ensures (View(), passed) == ProductionProof(w, old(View()), requireAll)
      ensures ProofReport(w, old(errors), View(), requireAll, passed)
    {
      hide Surveyed, MissingErrors, ProofReport;
      ProductionProofMeans(w, View(), requireAll);
      SurveyProofs(w);
      if bridgeMode == BOOTSTRAP_MODE {
        errors := errors + [BootstrapOnly];
        return false;
      }
      if bridgeMode != VALIDATED_MODE {
        errors := errors + [NotValidatedMode];
        return false;
      }
      var valid := ReportMissing();
      return if requireAll then valid else true;
    }

    method PreflightBridge(w: World, memoryRequired: bool, obstacle: Option<seq<GateMessage>>)
      requires obstacle == Obstacle(w)
      modifies this
      ensures View() == BridgePreflight(w, old(View()), memoryRequired)
    {
      hide ProductionProof, Obstacle, TransportProven;
      if obstacle.Some? {
        errors := errors + obstacle.value;
        return;
      }
      var passed := ValidateProductionBridgeProof(w, false);
      if !passed {
        return;
      }
      if !processIdentified {
        errors := errors + [ProcessStale];
        return;
      }
      if memoryRequired && !memoryAccessible && TransportProven(w) {
        memoryAccessible := true;
      }
      if memoryRequired && !memoryAccessible {
        errors := errors + [MemoryDenied];
        return;
      }
      executorAvailable := true;
    }
  }

  /**
    applyRuntimeExecutorBridgeContractProofs: early returns, then the loop over the lines.
    Every entry of the contract becomes what the rows of an admitted file say.
   */
  method ApplyBridgeProofs(env: Environment, lines: seq<string>, lib: Library, c: RuntimeContract)
    returns (backed: RuntimeContract)
    ensures backed == Apply(env, lines, lib, c)
    ensures if Admitted(env, lines) then ContractAfter(lines, lib, c, backed) else backed == c
  {
    hide UniqueIdentityKeys, UniqueEvidenceKeys, IdentityOk, MatchesRuntime, ApplyLines, ContractAfter;
    if !env.bridgeConfigured || env.processId <= 0 || !env.readyExists || !UniqueIdentityKeys(lines) {
      return c;
    }
    var duplicate, _ := FindDuplicateEvidenceKey(lines);
    if duplicate || !MatchesRuntime(env, lines) || !IdentityOk(env, lines) || !env.processOpens {
      return c;
    }
    var work := new ContractInProgress(c);
    work.ApplyReadyFile(lines, lib);
    ApplyTakesEffect(env, lines, lib, c);
    return work.contract;
  }

  method PreflightRuntimeExecutor(w: World, c: RuntimeContract) returns (result: PreflightResult)
    ensures fresh(result) && result.View() == Preflight(w, c)
  {
    hide Apply, BeforeBridge, BridgePreflight, Obstacle, Required;
    result := new PreflightResult();
    var backed := ApplyBridgeProofs(w.env, w.lines, w.lib, c);
    ApplyKeepsCapabilities(w.env, w.lines, w.lib, c);
    result.Prepare(w, c, backed);
    if w.env.bridgeConfigured {
      var obstacle := FindObstacle(w);
      result.PreflightBridge(w, NeedsMemory(backed), obstacle);
    } else {
      RequiredLinesUnseen(w, c);
      result.missing := RequiredLines();
    }
  }

  lemma RequiredLinesUnseen(w: World, c: RuntimeContract)
    ensures BeforeBridge(w, c).missing == [] && !BeforeBridge(w, c).executorAvailable
  {
    hide Apply, ValidationErrors;
  }

  lemma {:induction false} PutAllKeepsCapabilities(c: RuntimeContract, us: seq<Option<Update>>)
    ensures PutAll(c, us).capabilities == c.capabilities
    decreases |us|
  {
    hide PutBinding, PutInto;
    if us == [] {
    } else {
      PutAllKeepsCapabilities(PutOption(c, us[0]), us[1..]);
    }
  }

  lemma ApplyKeepsCapabilities(env: Environment, lines: seq<string>, lib: Library, c: RuntimeContract)
    ensures Apply(env, lines, lib, c).capabilities == c.capabilities
  {
    hide PutAll, LineUpdate, Admitted;
    PutAllKeepsCapabilities(c, Updates(lines, lib, lines));
  }

  /** The early returns of preflightExecutorBridge, in their order. */
  method FindObstacle(w: World) returns (obstacle: Option<seq<GateMessage>>)
    ensures obstacle == Obstacle(w)
  {
    hide UniqueIdentityKeys, UniqueEvidenceKeys, IdentityOk;
    if w.bridge.Missing? {
      return Some([BridgeMissing]);
    }
    if w.bridge.Uninspectable? {
      return Some([BridgeUninspectable]);
    }
    if w.directory.Missing? {
      return Some([BridgeNotDirectory]);
    }
    if w.directory.Uninspectable? {
      return Some([DirectoryUninspectable]);
    }
    if !w.env.readyExists {
      return Some([if w.readyFault then ReadyUninspectable else ReadyMissing]);
    }
    if PROTOCOL_LINE !in w.lines {
      return Some([BadProtocol]);
    }
    if !UniqueIdentityKeys(w.lines) {
      return Some([DuplicateIdentityKey]);
    }
    var duplicate, _ := FindDuplicateEvidenceKey(w.lines);
    if duplicate {
      return Some([DuplicateEvidenceKey]);
    }
    if "product=" + w.env.product !in w.lines {
      return Some([ProductMismatch]);
    }
    if w.env.version != "" && "version=" + w.env.version !in w.lines {
      return Some([VersionMismatch]);
    }
    if !IdentityOk(w.env, w.lines) {
      return Some([IdentityMismatch]);
    }
    if w.resident.present && !w.resident.valid {
      return Some(ResidentDetails(w.resident.details));
    }
    if !w.heartbeatAdvances {
      return Some([HeartbeatStale]);
    }
    return None;
  }
}
