/**
  The survey of behavior proofs: twelve required proofs are judged one after the other, some
  capabilities are added for other validated lines, and the ready file's mode decides.
  File-system answers, the resident adapter's own validation and the proof validators are
  part of the World.
 */
module GateSurvey {
  import opened Common
  import opened Evidence
  import opened Contract
  import opened BridgeProofs
  import opened BridgeLaws
  import opened CommandSinks

  datatype BehaviorProof = BehaviorProof(id: string, capability: Capability, line: string)

  /** requiredRuntimeExecutorBehaviorProofs. */
  function Required(): (ps: seq<BehaviorProof>)
    ensures |ps| == 12
  {
    [
      BehaviorProof("attach", SharedMemoryClient, ATTACH),
      BehaviorProof("read-game-state", ReadGameState, GAME_STATE),
      BehaviorProof("active-match-state", ReadGameState, ACTIVE_MATCH),
      BehaviorProof("read-units", ReadUnitData, UNITS),
      BehaviorProof("read-region-data", ReadRegionData, REGION_DATA),
      BehaviorProof("issue-commands", IssueCommands, ISSUE_COMMANDS),
      BehaviorProof("draw-overlays", DrawOverlays, DRAW_OVERLAYS),
      BehaviorProof("dispatch-events", DispatchEvents, DISPATCH_EVENTS),
      BehaviorProof("replay-analysis", ReplayAnalysis, REPLAY_ANALYSIS),
      BehaviorProof("multiplayer-sync", MultiplayerSync, MULTIPLAYER_SYNC),
      BehaviorProof("battle-net-policy", BattleNet, BATTLE_NET),
      BehaviorProof("load-ai-modules", LoadAIModules, LOAD_AI_MODULES)
    ]
  }

  /** Capabilities added after the walk when a proof validates, whether or not its line is there. */
  function Extras(): seq<(string, Capability)> {
    [
      (MAP_DATA, ReadMapData), (PLAYER_DATA, ReadPlayerData), (BULLET_DATA, ReadBulletData),
      (REGION_DATA, ReadRegionData), (LOAD_AI_MODULES, LoadAIModules)
    ]
  }

  const BOOTSTRAP_MODE := "launch-attach-bootstrap"

  datatype Resident = Resident(present: bool, valid: bool, active: bool, details: seq<string>)

  datatype StateProof = StateProof(gameStateValid: bool, activeMatchValid: bool, details: seq<string>)

  datatype FileState = Missing | Uninspectable | Found

  datatype World = World(
    env: Environment,
    lines: seq<string>,                     // the ready file
    lib: Library,                           // validators given the resident state proof
    bareLib: Library,                       // validators without it
    parseAddress: string -> Option<nat>,
    bridge: FileState,                      // the bridge path
    directory: FileState,                   // Missing: not a directory
    readyFault: bool,
    target: FileState,                      // the executable
    platformSupported: bool,
    productSupported: bool,
    memoryOpens: bool,
    resident: Resident,
    state: StateProof,
    heartbeatAdvances: bool)

  datatype GateMessage =
    | ContractError(message: Message)
    | PlatformUnsupported | ProductUnsupported
    | TargetPathEmpty | TargetUninspectable | TargetMissing
    | ProcessNotOpened
    | BridgeMissing | BridgeUninspectable | BridgeNotDirectory | DirectoryUninspectable
    | ReadyMissing | ReadyUninspectable | BadProtocol
    | DuplicateIdentityKey | DuplicateEvidenceKey
    | ProductMismatch | VersionMismatch | IdentityMismatch
    | ResidentDetail(text: string) | HeartbeatStale
    | GameStateUnproven | ActiveMatchUnproven | StateDetail(text: string)
    | SinkMissing | NotValidated(line: string)
    | BootstrapOnly | NotValidatedMode | ProofMissing(line: string)
    | ProcessStale | MemoryDenied

  datatype Report = Report(
    contractValid: bool,
    processIdentified: bool,
    memoryAccessible: bool,
    targetLocated: bool,
    executorAvailable: bool,
    bridgeMode: string,
    proven: seq<Capability>,
    missing: seq<string>,
    errors: seq<GateMessage>)

  const EMPTY_REPORT := Report(false, false, false, false, false, "", [], [], [])

  // ---- one behavior proof ----

  datatype Verdict = Proven | LineAbsent | BadGameState | BadActiveMatch | NoSink | Unvalidated

  predicate HasRuntimeSink(w: World) {
    ActiveSink(w.lines, w.lib) || DirectSink(w.lines, w.lib, w.parseAddress).Some?
  }

  function Judge(w: World, p: BehaviorProof): Verdict {
    if p.line !in w.lines then LineAbsent
    else if p.id == "read-game-state" && !w.state.gameStateValid then BadGameState
    else if p.id == "active-match-state" && !w.state.activeMatchValid then BadActiveMatch
    else if p.id == "issue-commands" && !HasRuntimeSink(w) then NoSink
    else if !w.lib.validated(w.lines, p.line) then Unvalidated
    else Proven
  }

  function StateDetails(texts: seq<string>): (r: seq<GateMessage>)
    ensures |r| == |texts|
  {
    seq(|texts|, i requires 0 <= i < |texts| => StateDetail(texts[i]))
  }

  function ResidentDetails(texts: seq<string>): (r: seq<GateMessage>)
    ensures |r| == |texts|
  {
    seq(|texts|, i requires 0 <= i < |texts| => ResidentDetail(texts[i]))
  }

  function ContractErrors(messages: seq<Message>): (r: seq<GateMessage>)
    ensures |r| == |messages|
  {
    seq(|messages|, i requires 0 <= i < |messages| => ContractError(messages[i]))
  }

  function MissingErrors(lines: seq<string>): (r: seq<GateMessage>)
    ensures |r| == |lines|
  {
    seq(|lines|, i requires 0 <= i < |lines| => ProofMissing(lines[i]))
  }

  function AddCapability(cs: seq<Capability>, c: Capability): seq<Capability> {
    if c in cs then cs else cs + [c]
  }

  predicate ReportsDetails(v: Verdict) {
    v.BadGameState? || v.BadActiveMatch?
  }

  /** The messages of one proof; the resident details are reported once only. */
  function ProofMessages(w: World, p: BehaviorProof, reported: bool): seq<GateMessage> {
    match Judge(w, p)
    case Proven => []
    case LineAbsent => []
    case BadGameState => [GameStateUnproven] + if reported then [] else StateDetails(w.state.details)
    case BadActiveMatch => [ActiveMatchUnproven] + if reported then [] else StateDetails(w.state.details)
    case NoSink => [SinkMissing]
    case Unvalidated => [NotValidated(p.line)]
  }

  function NoteProof(w: World, r: Report, p: BehaviorProof, reported: bool): Report {
    if Judge(w, p).Proven? then r.(proven := AddCapability(r.proven, p.capability))
    else r.(missing := r.missing + [p.line], errors := r.errors + ProofMessages(w, p, reported))
  }

  function WalkProofs(w: World, r: Report, ps: seq<BehaviorProof>, reported: bool): Report
    decreases |ps|
  {
    if ps == [] then r
    else WalkProofs(w, NoteProof(w, r, ps[0], reported), ps[1..], reported || ReportsDetails(Judge(w, ps[0])))
  }

  function AddExtras(w: World, r: Report, extras: seq<(string, Capability)>): Report
    decreases |extras|
  {
    if extras == [] then r
    else
      var r' := if w.lib.validated(w.lines, extras[0].0) then r.(proven := AddCapability(r.proven, extras[0].1)) else r;
      AddExtras(w, r', extras[1..])
  }

  /** validateProductionBridgeProof, up to its decision. */
  function Surveyed(w: World, r: Report): Report {
    var cleared := r.(bridgeMode := FirstValue(w.lines, "mode"), missing := [], proven := []);
    AddExtras(w, WalkProofs(w, cleared, Required(), false), Extras())
  }

  function ProductionProof(w: World, r: Report, requireAll: bool): (Report, bool) {
    var s := Surveyed(w, r);
    if s.bridgeMode == BOOTSTRAP_MODE then (s.(errors := s.errors + [BootstrapOnly]), false)
    else if s.bridgeMode != VALIDATED_MODE then (s.(errors := s.errors + [NotValidatedMode]), false)
    else (s.(errors := s.errors + MissingErrors(s.missing)), if requireAll then s.missing == [] else true)
  }
}
