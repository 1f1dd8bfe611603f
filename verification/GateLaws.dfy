/**
  What a clean preflight means.  An available executor with an empty error list is exactly
  the conjunction of all checks; with the shipped issue-commands validator, which always
  refuses, it never happens.
 */
module GateLaws {
  import opened Common
  import opened Evidence
  import opened Contract
  import opened BridgeProofs
  import opened BridgeLaws
  import opened CommandSinks
  import opened GateCapabilities
  import opened ProductionGate
  import opened GateSurvey

  // ---- the walk ----

  ghost predicate AllProven(w: World, ps: seq<BehaviorProof>) {
    forall i :: 0 <= i < |ps| ==> Judge(w, ps[i]).Proven?
  }

  /** Only the lists of a report grow. */
  ghost predicate Grown(r: Report, r': Report) {
    && r' == r.(proven := r'.proven, missing := r'.missing, errors := r'.errors)
    && |r'.errors| >= |r.errors| && |r'.missing| >= |r.missing|
  }

  lemma NoteGrows(w: World, r: Report, p: BehaviorProof, reported: bool)
    ensures Grown(r, NoteProof(w, r, p, reported))
    ensures Judge(w, p).Proven? ==>
              NoteProof(w, r, p, reported).missing == r.missing && NoteProof(w, r, p, reported).errors == r.errors
    ensures !Judge(w, p).Proven? ==> NoteProof(w, r, p, reported).missing != []
  {
    hide Judge, ProofMessages, AddCapability;
  }

  lemma {:induction false} WalkKeepsFlags(w: World, r: Report, ps: seq<BehaviorProof>, reported: bool)
    ensures Grown(r, WalkProofs(w, r, ps, reported))
    decreases |ps|
  {
    hide Judge, NoteProof;
    if ps == [] {
    } else {
      NoteGrows(w, r, ps[0], reported);
      WalkKeepsFlags(w, NoteProof(w, r, ps[0], reported), ps[1..], reported || ReportsDetails(Judge(w, ps[0])));
    }
  }

  /** Nothing is missing exactly when every proof passes, and then there are no errors. */
  lemma {:induction false} WalkMissesNothing(w: World, r: Report, ps: seq<BehaviorProof>, reported: bool)
    requires r.missing == []
    ensures WalkProofs(w, r, ps, reported).missing == [] <==> AllProven(w, ps)
    ensures AllProven(w, ps) ==> WalkProofs(w, r, ps, reported).errors == r.errors
    decreases |ps|
  {
    hide Judge, NoteProof;
    if ps == [] {
    } else {
      var r' := NoteProof(w, r, ps[0], reported);
      NoteGrows(w, r, ps[0], reported);
      var flag := reported || ReportsDetails(Judge(w, ps[0]));
      if Judge(w, ps[0]).Proven? {
        WalkMissesNothing(w, r', ps[1..], flag);
        assert forall i :: 1 <= i < |ps| ==> ps[i] == ps[1..][i - 1];
      } else {
        WalkKeepsFlags(w, r', ps[1..], flag);
      }
    }
  }

  lemma {:induction false} ExtrasKeep(w: World, r: Report, extras: seq<(string, Capability)>)
    ensures var r' := AddExtras(w, r, extras); r' == r.(proven := r'.proven)
    decreases |extras|
  {
    if extras == [] {
    } else {
      var r' := if w.lib.validated(w.lines, extras[0].0) then r.(proven := AddCapability(r.proven, extras[0].1)) else r;
      ExtrasKeep(w, r', extras[1..]);
    }
  }

  lemma SurveyMeaning(w: World, r: Report)
    ensures var s := Surveyed(w, r);
            && s == r.(bridgeMode := FirstValue(w.lines, "mode"), missing := s.missing, proven := s.proven,
                      errors := s.errors)
            && |s.errors| >= |r.errors|
            && (s.missing == [] <==> AllProven(w, Required()))
            && (AllProven(w, Required()) ==> s.errors == r.errors)
  {
    hide WalkProofs, AddExtras, AllProven, FirstValue, Required, Extras;
    var cleared := r.(bridgeMode := FirstValue(w.lines, "mode"), missing := [], proven := []);
    WalkKeepsFlags(w, cleared, Required(), false);
    WalkMissesNothing(w, cleared, Required(), false);
    ExtrasKeep(w, WalkProofs(w, cleared, Required(), false), Extras());
  }

  // ---- the obstacles ----

  predicate ValidatedMode(w: World) {
    FirstValue(w.lines, "mode") == VALIDATED_MODE
  }

  /** The bridge directory is there, and its adapter, if any, is valid and alive. */
  predicate BridgeAlive(w: World) {
    && w.bridge.Found? && w.directory.Found?
    && (w.resident.present ==> w.resident.valid)
    && w.heartbeatAdvances
  }

  /** No obstacle: exactly when the bridge is alive and its ready file passes every check. */
  lemma NoObstacleMeans(w: World)
    ensures Obstacle(w).None?
       <==> BridgeAlive(w) && w.env.readyExists
            && PROTOCOL_LINE in w.lines && "product=" + w.env.product in w.lines
            && (w.env.version == "" || "version=" + w.env.version in w.lines)
            && UniqueIdentityKeys(w.lines) && UniqueEvidenceKeys(w.lines) && IdentityOk(w.env, w.lines)
  {
    hide IdentityOk, UniqueIdentityKeys, UniqueEvidenceKeys;
  }

  /**
    The gate and the contract's proofs judge the ready file alike: in validated mode and with
    an opened process, the gate meets no obstacle exactly when the bridge is alive and the
    file is one whose proofs are applied to the contract.
   */
  lemma NoObstacleIsAdmission(w: World)
    requires w.env.bridgeConfigured && w.env.processId > 0 && w.env.processOpens && ValidatedMode(w)
    ensures Obstacle(w).None? <==> BridgeAlive(w) && Admitted(w.env, w.lines)
  {
    NoObstacleMeans(w);
    hide Obstacle, IdentityOk, UniqueIdentityKeys, UniqueEvidenceKeys, FirstValue, BridgeAlive;
  }

  // ---- the bridge ----

  predicate MemoryReady(w: World, r: Report, memoryRequired: bool) {
    memoryRequired ==> r.memoryAccessible || TransportProven(w)
  }

  /** The production proof passes in validated mode, and is clean when every proof passes. */
  lemma DecisionIsExact(w: World, r: Report)
    ensures var (s, passed) := ProductionProof(w, r, false);
            && (passed <==> ValidatedMode(w))
            && (passed ==> (s.errors == [] <==> r.errors == [] && AllProven(w, Required())))
            && (passed ==> s.bridgeMode == VALIDATED_MODE && (s.errors == [] ==> s.missing == []))
            && s == r.(bridgeMode := s.bridgeMode, proven := s.proven, missing := s.missing, errors := s.errors)
            && |s.errors| >= |r.errors|
  {
    hide Surveyed, AllProven, Required, FirstValue;
    SurveyMeaning(w, r);
  }

  lemma ConclusionIsExact(w: World, r: Report, memoryRequired: bool)
    requires !r.executorAvailable
    ensures var after := Concluded(w, r, memoryRequired);
            && (after.executorAvailable <==> r.processIdentified && MemoryReady(w, r, memoryRequired))
            && |after.errors| >= |r.errors|
            && (after.executorAvailable ==> after.errors == r.errors && (memoryRequired ==> after.memoryAccessible))
            && after == r.(errors := after.errors, memoryAccessible := after.memoryAccessible,
                           executorAvailable := after.executorAvailable)
  {
    hide TransportProven;
  }

  /** From a clean report the bridge ends available and clean exactly when every check passes. */
  lemma BridgeIsExact(w: World, r: Report, memoryRequired: bool)
    requires !r.executorAvailable
    ensures var after := BridgePreflight(w, r, memoryRequired);
            after.executorAvailable && after.errors == []
            <==> r.errors == [] && Obstacle(w).None? && ValidatedMode(w) && AllProven(w, Required())
                 && r.processIdentified && MemoryReady(w, r, memoryRequired)
    ensures |BridgePreflight(w, r, memoryRequired).errors| >= |r.errors|
    ensures var after := BridgePreflight(w, r, memoryRequired);
            after.executorAvailable && after.errors == [] ==>
              && after.processIdentified && after.missing == [] && after.bridgeMode == VALIDATED_MODE
              && after.targetLocated == r.targetLocated && (memoryRequired ==> after.memoryAccessible)
    ensures BridgePreflight(w, r, memoryRequired).executorAvailable ==>
              Obstacle(w).None? && ValidatedMode(w) && r.processIdentified && MemoryReady(w, r, memoryRequired)
  {
    hide Obstacle, ProductionProof, Concluded, AllProven, Required, FirstValue, TransportProven;
    var (s, passed) := ProductionProof(w, r, false);
    DecisionIsExact(w, r);
    if Obstacle(w).None? && passed {
      ConclusionIsExact(w, s, memoryRequired);
    }
  }

  // ---- the whole preflight ----

  /** Everything the preflight checks, as one condition. */
  ghost predicate AllChecksPass(w: World, c: RuntimeContract) {
    && Valid(Apply(w.env, w.lines, w.lib, c))
    && w.platformSupported && w.productSupported
    && w.env.executable != "" && w.target.Found?
    && w.env.processOpens
    && w.env.bridgeConfigured && Obstacle(w).None? && ValidatedMode(w)
    && AllProven(w, Required())
    && (NeedsMemory(c) ==> w.memoryOpens || TransportProven(w))
  }

  lemma BeforeBridgeIsExact(w: World, c: RuntimeContract)
    ensures var r := BeforeBridge(w, c);
            && !r.executorAvailable
            && r.processIdentified == w.env.processOpens
            && r.memoryAccessible == (w.env.processOpens && NeedsMemory(c) && w.memoryOpens)
            && (r.errors == [] <==>
                  Valid(Apply(w.env, w.lines, w.lib, c)) && w.platformSupported && w.productSupported
                  && w.env.executable != "" && w.target.Found? && w.env.processOpens)
  {
    ApplyKeepsCapabilities(w.env, w.lines, w.lib, c);
    hide Apply, ValidationErrors;
  }

  /** Available with no errors: exactly when all checks pass. */
  lemma CleanPreflightIsExact(w: World, c: RuntimeContract)
    ensures Preflight(w, c).executorAvailable && Preflight(w, c).errors == [] <==> AllChecksPass(w, c)
  {
    BeforeBridgeIsExact(w, c);
    BridgeIsExact(w, BeforeBridge(w, c), NeedsMemory(c));
    hide BeforeBridge, BridgePreflight, Obstacle, AllProven, Required, RequiredLines;
    hide Apply, Valid, TransportProven, ValidatedMode;
  }

  /** The other fields of an available and clean report. */
  lemma CleanPreflightFields(w: World, c: RuntimeContract)
    requires Preflight(w, c).executorAvailable && Preflight(w, c).errors == []
    ensures var r := Preflight(w, c);
            && r.processIdentified && r.targetLocated && r.missing == []
            && r.bridgeMode == VALIDATED_MODE && (NeedsMemory(c) ==> r.memoryAccessible)
  {
    BeforeBridgeIsExact(w, c);
    BridgeIsExact(w, BeforeBridge(w, c), NeedsMemory(c));
    hide BridgePreflight, Obstacle, AllProven, Required, RequiredLines;
    hide Apply, Valid, ValidationErrors, TransportProven, ValidatedMode;
  }

  /** For any ready file and any validators: every required proof line is present and validated. */
  lemma CleanPreflightProvesEverything(w: World, c: RuntimeContract)
    requires Preflight(w, c).executorAvailable && Preflight(w, c).errors == []
    ensures forall p :: p in Required() ==> p.line in w.lines && w.lib.validated(w.lines, p.line)
    ensures w.state.gameStateValid && w.state.activeMatchValid && HasRuntimeSink(w)
    ensures Valid(Apply(w.env, w.lines, w.lib, c))
  {
    CleanPreflightIsExact(w, c);
    hide Preflight, Obstacle, Apply, Valid, TransportProven, HasRuntimeSink;
    forall p | p in Required() ensures p.line in w.lines && w.lib.validated(w.lines, p.line) {
      var i :| 0 <= i < |Required()| && Required()[i] == p;
      assert Judge(w, Required()[i]).Proven?;
    }
    assert Judge(w, Required()[1]).Proven? && Judge(w, Required()[2]).Proven? && Judge(w, Required()[5]).Proven?;
  }

  lemma ConclusionKeepsLists(w: World, r: Report, memoryRequired: bool)
    ensures var after := Concluded(w, r, memoryRequired);
            after.proven == r.proven && after.missing == r.missing && after.bridgeMode == r.bridgeMode
  {
    hide TransportProven;
  }

  lemma BridgeListsAreExact(w: World, r: Report, memoryRequired: bool)
    requires Obstacle(w).None?
    ensures var after := BridgePreflight(w, r, memoryRequired);
            after.bridgeMode == FirstValue(w.lines, "mode") && SurveyLists(w, after.proven, after.missing)
  {
    hide Obstacle, ProductionProof, Concluded, SurveyLists, FirstValue, ModeErrors;
    ProductionProofMeans(w, r, false);
    ConclusionKeepsLists(w, ProductionProof(w, r, false).0, memoryRequired);
  }

  /**
    What a preflight reports as proven and as missing, whatever else it finds: when the bridge
    meets no obstacle, exactly what the ready file, the validators and the resident state
    bear out.  Validated mode is reported only then.
   */
  lemma PreflightListsAreExact(w: World, c: RuntimeContract)
    ensures var r := Preflight(w, c);
            && (w.env.bridgeConfigured && Obstacle(w).None? ==>
                  r.bridgeMode == FirstValue(w.lines, "mode") && SurveyLists(w, r.proven, r.missing))
            && (!(w.env.bridgeConfigured && Obstacle(w).None?) ==> r.bridgeMode == "" && r.proven == [])
  {
    hide BridgePreflight, Obstacle, SurveyLists, FirstValue, RequiredLines, Apply, ValidationErrors, ContractErrors;
    if w.env.bridgeConfigured && Obstacle(w).None? {
      BridgeListsAreExact(w, BeforeBridge(w, c), NeedsMemory(c));
    } else if w.env.bridgeConfigured {
      ObstacleStops(w, BeforeBridge(w, c), NeedsMemory(c));
    }
  }

  lemma ObstacleStops(w: World, r: Report, memoryRequired: bool)
    requires Obstacle(w).Some?
    ensures BridgePreflight(w, r, memoryRequired) == r.(errors := r.errors + Obstacle(w).value)
  {
    hide Obstacle;
  }

  /** A clean preflight judged the contract with the proofs of the same ready file applied. */
  lemma CleanPreflightAppliesProofs(w: World, c: RuntimeContract)
    requires Preflight(w, c).executorAvailable && Preflight(w, c).errors == [] && w.env.processId > 0
    ensures BridgeAlive(w) && Admitted(w.env, w.lines)
    ensures Valid(ApplyLines(w.lines, w.lib, c))
  {
    CleanPreflightIsExact(w, c);
    NoObstacleIsAdmission(w);
    hide Preflight, Obstacle, Admitted, Valid, TransportProven, AllProven, Required, BridgeAlive;
  }

  // ---- the shipped validators ----

  /**
    readyFileHasValidatedProductionProof as shipped.  The resident state decides the game
    state and the active match; issue-commands is refused; the other known lines have
    validators of their own, and unknown lines are refused.
   */
  function ShippedValidation(
    checks: (seq<string>, string) -> bool, state: Option<StateProof>, file: seq<string>, line: string): bool
  {
    if line == GAME_STATE then state.None? || state.value.gameStateValid
    else if line == ACTIVE_MATCH then state.None? || state.value.activeMatchValid
    else if line == ISSUE_COMMANDS then false
    else if line in {ATTACH, UNITS, PLAYER_DATA, MAP_DATA, BULLET_DATA, REGION_DATA, DRAW_OVERLAYS,
                     DISPATCH_EVENTS, REPLAY_ANALYSIS, MULTIPLAYER_SYNC, BATTLE_NET, LOAD_AI_MODULES}
    then checks(file, line)
    else false
  }

  function ShippedLibrary(
    checks: (seq<string>, string) -> bool, state: Option<StateProof>, parseSize: string -> Option<nat>): Library
  {
    Library((file, line) => ShippedValidation(checks, state, file, line), parseSize)
  }

  /** A world whose proofs are judged by the shipped validators. */
  ghost predicate Shipped(w: World) {
    && (exists checks :: w.lib == ShippedLibrary(checks, Some(w.state), w.lib.parseSize))
    && (exists checks :: w.bareLib == ShippedLibrary(checks, None, w.bareLib.parseSize))
  }

  lemma ShippedRefusesIssueCommands(w: World)
    requires Shipped(w)
    ensures !w.lib.validated(w.lines, ISSUE_COMMANDS) && !w.bareLib.validated(w.lines, ISSUE_COMMANDS)
  {
  }

  /** As shipped, the preflight is never both available and clean. */
  lemma ShippedGateStaysClosed(w: World, c: RuntimeContract)
    requires Shipped(w)
    ensures !(Preflight(w, c).executorAvailable && Preflight(w, c).errors == [])
    ensures !HasRuntimeSink(w)
  {
    ShippedRefusesIssueCommands(w);
    if HasRuntimeSink(w) {
      SinksNeedIssueCommands(w.lines, w.lib, w.parseAddress);
    }
    if Preflight(w, c).executorAvailable && Preflight(w, c).errors == [] {
      CleanPreflightProvesEverything(w, c);
    }
  }
}
