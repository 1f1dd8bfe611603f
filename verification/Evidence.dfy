/**
  The two independent judges of contract evidence.  The executor filters ready-file rows
  before it applies them; the contract checker later reports evidence it does not accept.
  Both look at the same strings through differently written tables.
 */
module Evidence {
  import opened Common

  datatype BindingKind =
    | DataAddress | FunctionAddress | ImportedFunction | StructureLayout
    | HookPoint | CommandQueue | Transport

  function IndexOf(s: string, c: char): (i: nat)
    ensures i <= |s|
    ensures forall k :: 0 <= k < i ==> s[k] != c
    ensures i < |s| ==> s[i] == c
  {
    if s == "" || s[0] == c then 0 else 1 + IndexOf(s[1..], c)
  }

  lemma IndexIs(s: string, c: char, i: nat)
    requires i <= |s| && (forall k :: 0 <= k < i ==> s[k] != c) && (i < |s| ==> s[i] == c)
    ensures IndexOf(s, c) == i
  {
  }

  /** The proof line an evidence string starts with; empty when it is not a proof. */
  function ProofLine(evidence: string): string {
    if "proof." <= evidence then evidence[..IndexOf(evidence, ':')] else ""
  }

  const GAME_STATE := "proof.read_game_state=passed"
  const PLAYER_DATA := "proof.read_player_data=passed"
  const UNITS := "proof.read_units=passed"
  const BULLET_DATA := "proof.read_bullet_data=passed"
  const MAP_DATA := "proof.read_map_data=passed"
  const REGION_DATA := "proof.read_region_data=passed"
  const DISPATCH_EVENTS := "proof.dispatch_events=passed"
  const MULTIPLAYER_SYNC := "proof.multiplayer_sync=passed"
  const DRAW_OVERLAYS := "proof.draw_overlays=passed"
  const ISSUE_COMMANDS := "proof.issue_commands=passed"
  const LOAD_AI_MODULES := "proof.load_ai_modules=passed"
  const ATTACH := "proof.attach=passed"
  const REPLAY_ANALYSIS := "proof.replay_analysis=passed"
  const ACTIVE_MATCH := "proof.active_match_state=passed"
  const BATTLE_NET := "proof.battle_net_policy=passed"

  // ---- the executor's filter ----

  predicate HasBannedPrefix(e: string) {
    || "fixture:" <= e || "unit-test:" <= e || "mock:" <= e || "self-fixture:" <= e
    || "diagnostic." <= e || "static-anchor:" <= e || "scr-platform-anchor:" <= e
    || "static-layout:" <= e
  }

  predicate Allowed(e: string) {
    e != "" && !HasBannedPrefix(e) && "proof." <= e
  }

  predicate LineIs(e: string, line: string) {
    ProofLine(e) == line
  }

  predicate AllowedForBinding(name: string, kind: BindingKind, e: string) {
    && Allowed(e)
    && match kind
       case DataAddress =>
         if name == "BW::BWDATA::Game" then LineIs(e, GAME_STATE)
         else if name == "BW::BWDATA::Players" then LineIs(e, PLAYER_DATA)
         else if name == "BW::BWDATA::UnitNodeTable" then LineIs(e, UNITS)
         else if name == "BW::BWDATA::BulletNodeTable" then LineIs(e, BULLET_DATA)
         else if name == "BW::BWDATA::MapTileArray" then LineIs(e, MAP_DATA)
         else false
       case FunctionAddress => name == "BW::BWFXN_ExecuteGameTriggers" && LineIs(e, DISPATCH_EVENTS)
       case ImportedFunction =>
         (name == "Storm::SNetReceiveMessage" || name == "Storm::SNetSendTurn") && LineIs(e, MULTIPLAYER_SYNC)
       case HookPoint => name == "draw-game-layer-hook" && LineIs(e, DRAW_OVERLAYS)
       case CommandQueue =>
         (name == "BW::BWDATA::sgdwBytesInCmdQueue" || name == "BW::BWDATA::TurnBuffer")
         && LineIs(e, ISSUE_COMMANDS)
       case Transport =>
         if name == "ai-module-loader" then LineIs(e, LOAD_AI_MODULES)
         else if name == "shared-memory-client-transport" then LineIs(e, ATTACH)
         else false
       case StructureLayout => false
  }

  predicate AllowedForStructure(name: string, e: string) {
    && Allowed(e)
    && if name == "BW::BWGame" then LineIs(e, GAME_STATE)
       else if name == "BW::CUnit" then LineIs(e, UNITS)
       else if name == "BW::CBullet" then LineIs(e, BULLET_DATA)
       else if name == "BW::PlayerInfo" then LineIs(e, PLAYER_DATA)
       else if name == "BW::ReplayHeader" then LineIs(e, REPLAY_ANALYSIS)
       else false
  }

  predicate AllowedForField(structure: string, field: string, e: string) {
    && Allowed(e)
    && if structure == "BW::BWGame" then
         if field == "players" || field == "alliance" then LineIs(e, PLAYER_DATA)
         else if field == "elapsedFrames" then LineIs(e, GAME_STATE)
         else false
       else if structure == "BW::CUnit" then LineIs(e, UNITS)
       else if structure == "BW::CBullet" then LineIs(e, BULLET_DATA)
       else if structure == "BW::PlayerInfo" then LineIs(e, PLAYER_DATA)
       else if structure == "BW::ReplayHeader" then LineIs(e, REPLAY_ANALYSIS)
       else false
  }

  // ---- the contract's checker ----

  predicate IsNonProduction(e: string) {
    || e == "fixture" || "fixture:" <= e
    || e == "unit-test" || "unit-test:" <= e
    || e == "mock" || "mock:" <= e
    || e == "self-fixture" || "self-fixture:" <= e
    || e == "diagnostic" || "diagnostic." <= e
    || e == "static-anchor" || "static-anchor:" <= e
    || e == "scr-platform-anchor" || "scr-platform-anchor:" <= e
    || e == "static-layout" || "static-layout:" <= e
  }

  function ExpectedForBinding(name: string, kind: BindingKind): string {
    match kind
    case DataAddress =>
      if name == "BW::BWDATA::Game" then GAME_STATE
      else if name == "BW::BWDATA::Players" then PLAYER_DATA
      else if name == "BW::BWDATA::UnitNodeTable" then UNITS
      else if name == "BW::BWDATA::BulletNodeTable" then BULLET_DATA
      else if name == "BW::BWDATA::MapTileArray" then MAP_DATA
      else ""
    case FunctionAddress => if name == "BW::BWFXN_ExecuteGameTriggers" then DISPATCH_EVENTS else ""
    case ImportedFunction =>
      if name == "Storm::SNetReceiveMessage" || name == "Storm::SNetSendTurn" then MULTIPLAYER_SYNC else ""
    case HookPoint => if name == "draw-game-layer-hook" then DRAW_OVERLAYS else ""
    case CommandQueue =>
      if name == "BW::BWDATA::sgdwBytesInCmdQueue" || name == "BW::BWDATA::TurnBuffer"
      then ISSUE_COMMANDS else ""
    case Transport =>
      if name == "ai-module-loader" then LOAD_AI_MODULES
      else if name == "shared-memory-client-transport" then ATTACH
      else ""
    case StructureLayout => ""
  }

  function ExpectedForStructure(name: string): string {
    if name == "BW::BWGame" then GAME_STATE
    else if name == "BW::CUnit" then UNITS
    else if name == "BW::CBullet" then BULLET_DATA
    else if name == "BW::PlayerInfo" then PLAYER_DATA
    else if name == "BW::ReplayHeader" then REPLAY_ANALYSIS
    else ""
  }

  function ExpectedForField(structure: string, field: string): string {
    if structure == "BW::BWGame" then
      if field == "players" || field == "alliance" then PLAYER_DATA
      else if field == "elapsedFrames" then GAME_STATE
      else ""
    else if structure == "BW::CUnit" then UNITS
    else if structure == "BW::CBullet" then BULLET_DATA
    else if structure == "BW::PlayerInfo" then PLAYER_DATA
    else if structure == "BW::ReplayHeader" then REPLAY_ANALYSIS
    else ""
  }

  datatype EvidenceFault = Missing | NonProduction | NotAProof | NoMapping | WrongProof

  /** addProductionEvidenceError: the error it pushes, if any. */
  function FaultOf(e: string, expected: string): Option<EvidenceFault> {
    if e == "" then Some(Missing)
    else if IsNonProduction(e) then Some(NonProduction)
    else if !("proof." <= e) then Some(NotAProof)
    else if expected == "" then Some(NoMapping)
    else if ProofLine(e) != expected then Some(WrongProof)
    else None
  }

  // ---- agreement ----

  lemma ProofsAreProduction(e: string)
    requires "proof." <= e
    ensures e != "" && !IsNonProduction(e) && !HasBannedPrefix(e)
  {
    assert e[0] == 'p';
  }

  lemma NoFaultMeansAllowed(e: string, expected: string)
    ensures FaultOf(e, expected).None? <==> Allowed(e) && expected != "" && LineIs(e, expected)
  {
    if "proof." <= e {
      ProofsAreProduction(e);
    }
  }

  /** The filter and the checker accept the same evidence for every binding. */
  lemma BindingJudgesAgree(name: string, kind: BindingKind, e: string)
    ensures AllowedForBinding(name, kind, e) <==> FaultOf(e, ExpectedForBinding(name, kind)).None?
  {
    hide FaultOf, Allowed, LineIs;
    NoFaultMeansAllowed(e, ExpectedForBinding(name, kind));
  }

  lemma StructureJudgesAgree(name: string, e: string)
    ensures AllowedForStructure(name, e) <==> FaultOf(e, ExpectedForStructure(name)).None?
  {
    hide FaultOf, Allowed, LineIs;
    NoFaultMeansAllowed(e, ExpectedForStructure(name));
  }

  lemma FieldJudgesAgree(structure: string, field: string, e: string)
    ensures AllowedForField(structure, field, e) <==> FaultOf(e, ExpectedForField(structure, field)).None?
  {
    hide FaultOf, Allowed, LineIs;
    NoFaultMeansAllowed(e, ExpectedForField(structure, field));
  }

  // ---- the accepted evidence ----

  /** The evidence is this proof line, or the line with more text after a colon. */
  predicate Backs(e: string, line: string) {
    e == line || line + ":" <= e
  }

  /** The proof line that can resolve a binding. */
  predicate ProvesBinding(name: string, kind: BindingKind, line: string) {
    match kind
    case DataAddress =>
      || (name == "BW::BWDATA::Game" && line == "proof.read_game_state=passed")
      || (name == "BW::BWDATA::Players" && line == "proof.read_player_data=passed")
      || (name == "BW::BWDATA::UnitNodeTable" && line == "proof.read_units=passed")
      || (name == "BW::BWDATA::BulletNodeTable" && line == "proof.read_bullet_data=passed")
      || (name == "BW::BWDATA::MapTileArray" && line == "proof.read_map_data=passed")
    case FunctionAddress => name == "BW::BWFXN_ExecuteGameTriggers" && line == "proof.dispatch_events=passed"
    case ImportedFunction =>
      name in ["Storm::SNetReceiveMessage", "Storm::SNetSendTurn"] && line == "proof.multiplayer_sync=passed"
    case HookPoint => name == "draw-game-layer-hook" && line == "proof.draw_overlays=passed"
    case CommandQueue =>
      name in ["BW::BWDATA::sgdwBytesInCmdQueue", "BW::BWDATA::TurnBuffer"] && line == "proof.issue_commands=passed"
    case Transport =>
      || (name == "ai-module-loader" && line == "proof.load_ai_modules=passed")
      || (name == "shared-memory-client-transport" && line == "proof.attach=passed")
    case StructureLayout => false
  }

  /** The proof line that can size a structure. */
  predicate ProvesStructure(name: string, line: string) {
    || (name == "BW::BWGame" && line == "proof.read_game_state=passed")
    || (name == "BW::CUnit" && line == "proof.read_units=passed")
    || (name == "BW::CBullet" && line == "proof.read_bullet_data=passed")
    || (name == "BW::PlayerInfo" && line == "proof.read_player_data=passed")
    || (name == "BW::ReplayHeader" && line == "proof.replay_analysis=passed")
  }

  /** The proof line that can place a field: its structure's, except in the game structure. */
  predicate ProvesField(structure: string, field: string, line: string) {
    if structure == "BW::BWGame" then
      || (field in ["players", "alliance"] && line == "proof.read_player_data=passed")
      || (field == "elapsedFrames" && line == "proof.read_game_state=passed")
    else ProvesStructure(structure, line)
  }

  predicate IsProofText(line: string) {
    "proof." <= line && ':' !in line
  }

  /** Evidence is filed under a proof line exactly when it is that line, alone or with more after a colon. */
  lemma LineMeans(e: string, line: string)
    requires IsProofText(line)
    ensures Allowed(e) && LineIs(e, line) <==> Backs(e, line)
  {
    if Backs(e, line) {
      assert "proof." <= e;
      ProofsAreProduction(e);
      IndexIs(e, ':', |line|);
      assert e[..|line|] == line;
    }
  }

  lemma ReadProofTexts()
    ensures IsProofText(GAME_STATE) && IsProofText(PLAYER_DATA)
    ensures IsProofText(UNITS) && IsProofText(BULLET_DATA) && IsProofText(MAP_DATA)
  {
  }

  lemma EventProofTexts()
    ensures IsProofText(DISPATCH_EVENTS) && IsProofText(MULTIPLAYER_SYNC)
    ensures IsProofText(DRAW_OVERLAYS)
  {
  }

  lemma OtherProofTexts()
    ensures IsProofText(ISSUE_COMMANDS) && IsProofText(LOAD_AI_MODULES)
    ensures IsProofText(ATTACH) && IsProofText(REPLAY_ANALYSIS)
  {
  }

  lemma ProofTextsAre()
    ensures IsProofText(GAME_STATE) && IsProofText(PLAYER_DATA) && IsProofText(UNITS) && IsProofText(BULLET_DATA)
    ensures IsProofText(MAP_DATA) && IsProofText(DISPATCH_EVENTS) && IsProofText(MULTIPLAYER_SYNC)
    ensures IsProofText(DRAW_OVERLAYS) && IsProofText(ISSUE_COMMANDS) && IsProofText(LOAD_AI_MODULES)
    ensures IsProofText(ATTACH) && IsProofText(REPLAY_ANALYSIS)
  {
    hide IsProofText;
    ReadProofTexts();
    EventProofTexts();
    OtherProofTexts();
  }

  /** What the filter accepts for a binding: the binding's own proof line, with or without more text. */
  lemma BindingEvidenceMeans(name: string, kind: BindingKind, e: string)
    ensures AllowedForBinding(name, kind, e) <==> exists line :: ProvesBinding(name, kind, line) && Backs(e, line)
  {
    hide Allowed, LineIs, Backs;
    var expected := ExpectedForBinding(name, kind);
    AllowedIsExpected(name, kind, e);
    ExpectedProves(name, kind);
    ProofTextsAre();
    if expected != "" {
      LineMeans(e, expected);
    }
  }

  lemma AllowedIsExpected(name: string, kind: BindingKind, e: string)
    ensures AllowedForBinding(name, kind, e)
            <==> var x := ExpectedForBinding(name, kind); x != "" && Allowed(e) && LineIs(e, x)
  {
    hide Allowed, LineIs;
  }

  lemma ExpectedProves(name: string, kind: BindingKind)
    ensures forall line :: ProvesBinding(name, kind, line) <==> line == ExpectedForBinding(name, kind) && line != ""
  {
  }

  lemma StructureEvidenceMeans(name: string, e: string)
    ensures AllowedForStructure(name, e) <==> exists line :: ProvesStructure(name, line) && Backs(e, line)
  {
    hide Allowed, LineIs, Backs;
    var expected := ExpectedForStructure(name);
    ProofTextsAre();
    assert forall line :: ProvesStructure(name, line) <==> line == expected && line != "";
    if expected != "" {
      LineMeans(e, expected);
    }
  }

  lemma FieldEvidenceMeans(structure: string, field: string, e: string)
    ensures AllowedForField(structure, field, e)
            <==> exists line :: ProvesField(structure, field, line) && Backs(e, line)
  {
    hide Allowed, LineIs, Backs;
    var expected := ExpectedForField(structure, field);
    ProofTextsAre();
    assert forall line :: ProvesField(structure, field, line) <==> line == expected && line != "";
    if expected != "" {
      LineMeans(e, expected);
    }
  }

  /** What each fault of the checker says about the evidence. */
  lemma FaultMeans(e: string, expected: string)
    requires expected == "" || IsProofText(expected)
    ensures FaultOf(e, expected) == Some(Missing) <==> e == ""
    ensures FaultOf(e, expected) == Some(NonProduction) <==> IsNonProduction(e)
    ensures FaultOf(e, expected) == Some(NotAProof) <==> e != "" && !IsNonProduction(e) && !("proof." <= e)
    ensures FaultOf(e, expected) == Some(NoMapping) <==> "proof." <= e && expected == ""
    ensures FaultOf(e, expected) == Some(WrongProof) <==> "proof." <= e && expected != "" && !Backs(e, expected)
  {
    if "proof." <= e {
      ProofsAreProduction(e);
    }
    if expected != "" {
      LineMeans(e, expected);
    }
    NonProductionIsText(e);
    hide IsNonProduction, Backs, ProofLine;
  }

  lemma NonProductionIsText(e: string)
    ensures IsNonProduction(e) ==> e != ""
  {
  }
}
