/**
  Submitting commands.  A chain of checks decides whether and where the commands go: into
  the game's turn buffer, into the resident command queue, or into the command file.  The
  ready file and the queue files do not change during the call.
 */
module Submission {
  import opened Common
  import opened Evidence
  import opened Contract
  import opened BridgeProofs
  import opened BridgeLaws
  import opened CommandSinks
  import opened CommandForms
  import opened CommandReading
  import opened CommandSurface
  import opened CommandText
  import opened GateSurvey
  import opened RuntimeCommandQueue
  import H = Heartbeat
  import T = TurnBuffer
  import W = CommandWire

  const COMMAND_SURFACE_LINE := "proof.command_surface=runtime-command-surface-v1"
  const QUEUE_PATH_KEY := "resident.queue.command.path"

  /** What loading the runtime manifest gives. */
  datatype ManifestFile = ManifestFile(
    loaded: bool, productMatches: bool, versionMatches: bool, contract: RuntimeContract,
    unitCommands: seq<string>, gameActions: seq<string>)

  /** The surroundings of one submission. */
  datatype Setting = Setting(
    world: World,
    remastered: bool,
    manifest: Option<ManifestFile>,       // None: no manifest path
    bridgeUsable: bool,                   // the bridge path is a directory
    pathInside: string -> bool,           // resolves to a file inside the bridge directory
    queueValid: string -> bool,           // the queue file there is a valid command queue
    heartbeat: H.Check,
    appends: nat -> bool,                 // whether the n-th record reaches the resident queue
    fileOpens: bool,                      // the command file can be opened
    fates: T.Fates,                       // what process memory does
    auditOpens: nat -> bool)

  datatype Reason =
    | NotQueued(fault: QueueFault)
    | ManifestRequired | ManifestNotLoaded | ManifestWrongProduct | ManifestWrongVersion | ManifestInvalid
    | UnitCommandUndeclared | GameActionUndeclared
    | PathEmpty | BridgeUnavailable
    | AtGate(message: GateMessage)
    | ProcessUnverified | ResidentInvalid | HeartbeatRejected
    | ProofNeeded(line: string) | IssueCommandsUnvalidated | SinkNeeded
    | DirectFailed(stage: T.Stage) | AppendFailed | FileUnavailable

  datatype Route = ToTurnBuffer(count: nat, buffer: nat) | ToResidentQueue | ToCommandFile

  // ---- the checks ----

  function Undeclared(commands: seq<Request>, units: seq<string>, actions: seq<string>): Option<Reason> {
    if commands == [] then None
    else
      var r := commands[0];
      if r.kind == UnitCommand && r.name !in units then Some(UnitCommandUndeclared)
      else if r.kind == GameAction && r.name !in actions then Some(GameActionUndeclared)
      else Undeclared(commands[1..], units, actions)
  }

  /** validateCommandsAgainstBridgeSurface, apart from the names. */
  predicate BridgeSurfaceProven(s: Setting) {
    var w := s.world;
    && w.env.bridgeConfigured && w.env.readyExists
    && MatchesRuntime(w.env, w.lines) && IdentityOk(w.env, w.lines)
    && COMMAND_SURFACE_LINE in w.lines
  }

  /** validateCommandsAgainstManifest. */
  function ManifestProblem(s: Setting, commands: seq<Request>): Option<Reason> {
    match s.manifest
    case None =>
      if !s.remastered then None
      else if !BridgeSurfaceProven(s) then Some(ManifestRequired)
      else if Undeclared(commands, UnitCommands(), GameActions()).Some? then Some(ManifestRequired)
      else None
    case Some(m) =>
      if !m.loaded then Some(ManifestNotLoaded)
      else if !m.productMatches then Some(ManifestWrongProduct)
      else if s.world.env.version != "" && !m.versionMatches then Some(ManifestWrongVersion)
      else if !Valid(m.contract) then Some(ManifestInvalid)
      else Undeclared(commands, m.unitCommands, m.gameActions)
  }

  /** The surface declares the command. */
  predicate Declared(r: Request, units: seq<string>, actions: seq<string>) {
    && (r.kind.UnitCommand? ==> r.name in units)
    && (r.kind.GameAction? ==> r.name in actions)
  }

  predicate AllDeclared(commands: seq<Request>, units: seq<string>, actions: seq<string>) {
    forall i :: 0 <= i < |commands| ==> Declared(commands[i], units, actions)
  }

  /** The manifest is the one of this runtime and its contract is valid. */
  predicate ManifestFits(s: Setting, m: ManifestFile) {
    && m.loaded && m.productMatches && Valid(m.contract)
    && (s.world.env.version == "" || m.versionMatches)
  }

  lemma {:induction false} NoneUndeclaredMeans(commands: seq<Request>, units: seq<string>, actions: seq<string>)
    ensures Undeclared(commands, units, actions).None? <==> AllDeclared(commands, units, actions)
    decreases |commands|
  {
    if commands == [] {
    } else {
      NoneUndeclaredMeans(commands[1..], units, actions);
      assert forall i :: 1 <= i < |commands| ==> commands[i] == commands[1..][i - 1];
    }
  }

  /** Queued commands are on the built-in surface. */
  lemma QueuedAreDeclared(commands: seq<Request>)
    requires AllQueued(commands)
    ensures AllDeclared(commands, UnitCommands(), GameActions())
  {
    hide UnitCommands, GameActions;
    forall i | 0 <= i < |commands| ensures Declared(commands[i], UnitCommands(), GameActions()) {
      assert FaultOfRequest(commands[i]).None?;
    }
  }

  /**
    No manifest problem for queued commands: with a manifest, exactly when it fits and
    declares every command; without one, exactly when the runtime is not Remastered or its
    bridge proves the command surface.  The surface's names then never refuse a command.
   */
  lemma NoManifestProblemMeans(s: Setting, commands: seq<Request>)
    ensures s.manifest.Some? ==>
              (ManifestProblem(s, commands).None?
               <==> ManifestFits(s, s.manifest.value)
                    && AllDeclared(commands, s.manifest.value.unitCommands, s.manifest.value.gameActions))
    ensures s.manifest.None? ==>
              (ManifestProblem(s, commands).None?
               <==> (s.remastered ==> BridgeSurfaceProven(s) && AllDeclared(commands, UnitCommands(), GameActions())))
    ensures s.manifest.None? && AllQueued(commands) ==>
              (ManifestProblem(s, commands).None? <==> (s.remastered ==> BridgeSurfaceProven(s)))
  {
    hide Valid, BridgeSurfaceProven, UnitCommands, GameActions, Undeclared, AllDeclared, AllQueued;
    NoneUndeclaredMeans(commands, UnitCommands(), GameActions());
    if s.manifest.Some? {
      NoneUndeclaredMeans(commands, s.manifest.value.unitCommands, s.manifest.value.gameActions);
    }
    if AllQueued(commands) {
      QueuedAreDeclared(commands);
    }
  }

  /** The checks of the bridge and its ready file up to the heartbeat. */
  ghost function BridgeProblem(s: Setting): Option<Reason> {
    var w := s.world;
    if !w.env.bridgeConfigured then Some(PathEmpty)
    else if !s.bridgeUsable then Some(BridgeUnavailable)
    else if PROTOCOL_LINE !in w.lines then Some(AtGate(BadProtocol))
    else if !UniqueIdentityKeys(w.lines) then Some(AtGate(DuplicateIdentityKey))
    else if !UniqueEvidenceKeys(w.lines) then Some(AtGate(DuplicateEvidenceKey))
    else if "product=" + w.env.product !in w.lines then Some(AtGate(ProductMismatch))
    else if w.env.version != "" && "version=" + w.env.version !in w.lines then Some(AtGate(VersionMismatch))
    else if !IdentityOk(w.env, w.lines) then Some(AtGate(IdentityMismatch))
    else if !w.env.processOpens then Some(ProcessUnverified)
    else if w.resident.present && !w.resident.valid then Some(ResidentInvalid)
    else None
  }

  /** readResidentCommandQueueSink. */
  predicate ResidentSink(s: Setting) {
    var path := FirstValue(s.world.lines, QUEUE_PATH_KEY);
    && ATTACH in s.world.lines
    && path != "" && s.pathInside(path) && s.queueValid(path)
  }

  predicate ResidentIngress(s: Setting) {
    && s.world.resident.present && s.world.resident.valid && s.world.resident.active
    && s.world.state.activeMatchValid
    && ResidentSink(s)
  }

  /** validateSubmissionBridgeProof. */
  function ProofProblem(s: Setting): Option<Reason> {
    var w := s.world;
    if FirstValue(w.lines, "mode") != VALIDATED_MODE then Some(AtGate(NotValidatedMode))
    else if ATTACH !in w.lines || !w.lib.validated(w.lines, ATTACH) then Some(ProofNeeded(ATTACH))
    else if ISSUE_COMMANDS in w.lines && !w.lib.validated(w.lines, ISSUE_COMMANDS) then Some(IssueCommandsUnvalidated)
    else
      var lineAbsent := ISSUE_COMMANDS !in w.lines;
      var sinkAbsent := !ActiveSink(w.lines, w.lib) && !ResidentIngress(s);
      if lineAbsent then (if !sinkAbsent && ResidentIngress(s) then None else Some(ProofNeeded(ISSUE_COMMANDS)))
      else if sinkAbsent then Some(SinkNeeded)
      else None
  }

  function RouteOf(s: Setting): Route {
    var w := s.world;
    var direct := DirectSink(w.lines, w.lib, w.parseAddress);
    if !ActiveSink(w.lines, w.lib) && direct.Some? then ToTurnBuffer(direct.value.0, direct.value.1)
    else if ResidentSink(s) then ToResidentQueue
    else ToCommandFile
  }

  /** The first problem before the heartbeat is looked at. */
  ghost function EarlyProblem(s: Setting, commands: seq<Request>): Option<Reason> {
    if FirstFault(commands).Some? then Some(NotQueued(FirstFault(commands).value))
    else if ManifestProblem(s, commands).Some? then ManifestProblem(s, commands)
    else BridgeProblem(s)
  }

  /** The first problem of the whole chain: it decides what a refused submission answers. */
  ghost function Problem(s: Setting, commands: seq<Request>, store: H.Store): Option<Reason> {
    if EarlyProblem(s, commands).Some? then EarlyProblem(s, commands)
    else if H.Rejected(store, s.heartbeat) then Some(HeartbeatRejected)
    else ProofProblem(s)
  }

  /** The commands pass all checks. */
  ghost predicate Cleared(s: Setting, commands: seq<Request>, store: H.Store) {
    EarlyProblem(s, commands).None? && !H.Rejected(store, s.heartbeat) && ProofProblem(s).None?
  }

  // ---- where commands can go ----

  /** A cleared submission has a validated attach proof, and one of two kinds of sink. */
  lemma ClearedMeans(s: Setting, commands: seq<Request>, store: H.Store)
    requires Cleared(s, commands, store)
    ensures AllQueued(commands)
    ensures ATTACH in s.world.lines && s.world.lib.validated(s.world.lines, ATTACH)
    ensures ISSUE_COMMANDS in s.world.lines ==> s.world.lib.validated(s.world.lines, ISSUE_COMMANDS)
    ensures ISSUE_COMMANDS !in s.world.lines ==> ResidentIngress(s)
    ensures ActiveSink(s.world.lines, s.world.lib) || ResidentIngress(s)
  {
    hide ActiveSink, ResidentIngress, FirstValue, ManifestProblem, BridgeProblem;
  }

  /**
    The checks of a submission and the contract's proofs judge the ready file alike: a cleared
    submission's file is one whose proofs are applied, and its manifest, if any, declares
    every command.
   */
  lemma ClearedIsAdmitted(s: Setting, commands: seq<Request>, store: H.Store)
    requires Cleared(s, commands, store) && s.world.env.processId > 0 && s.world.env.readyExists
    ensures Admitted(s.world.env, s.world.lines)
    ensures s.manifest.Some? ==>
              && ManifestFits(s, s.manifest.value)
              && AllDeclared(commands, s.manifest.value.unitCommands, s.manifest.value.gameActions)
  {
    NoManifestProblemMeans(s, commands);
    hide ActiveSink, ResidentIngress, FirstValue, ManifestProblem, IdentityOk;
    hide UniqueIdentityKeys, UniqueEvidenceKeys, ManifestFits, AllDeclared;
  }

  /** Anything but the resident queue needs a validated issue-commands proof. */
  lemma OtherRoutesNeedIssueCommands(s: Setting, commands: seq<Request>, store: H.Store)
    requires Cleared(s, commands, store) && !RouteOf(s).ToResidentQueue?
    ensures ISSUE_COMMANDS in s.world.lines && s.world.lib.validated(s.world.lines, ISSUE_COMMANDS)
    ensures RouteOf(s).ToCommandFile? ==> ActiveSink(s.world.lines, s.world.lib) && !ResidentSink(s)
  {
    ClearedMeans(s, commands, store);
    hide ActiveSink, DirectSink, ResidentSink, Cleared;
    if RouteOf(s).ToTurnBuffer? {
      SinksNeedIssueCommands(s.world.lines, s.world.lib, s.world.parseAddress);
    }
  }

  /**
    While the issue-commands proof is never validated, a cleared submission goes to the
    resident queue, under a validated attach, an active adapter and an active match.
   */
  lemma UnprovenGoesResident(s: Setting, commands: seq<Request>, store: H.Store)
    requires Cleared(s, commands, store) && !s.world.lib.validated(s.world.lines, ISSUE_COMMANDS)
    ensures RouteOf(s).ToResidentQueue?
    ensures s.world.lib.validated(s.world.lines, ATTACH) && s.world.resident.active && s.world.state.activeMatchValid
    ensures ISSUE_COMMANDS !in s.world.lines
  {
    ClearedMeans(s, commands, store);
    hide RouteOf, ResidentSink, Cleared, ActiveSink;
    if !RouteOf(s).ToResidentQueue? {
      OtherRoutesNeedIssueCommands(s, commands, store);
    }
  }

  // ---- appending to the resident queue ----

  /** How many of the first n records get through before one fails. */
  function Through(appends: nat -> bool, n: nat): (k: nat)
    ensures k <= n
    ensures forall i: nat :: i < k ==> appends(i)
    ensures k < n ==> !appends(k)
  {
    if n == 0 then 0
    else
      var k := Through(appends, n - 1);
      if k == n - 1 && appends(n - 1) then n else k
  }

  datatype Outcome = Refused(reason: Reason) | Submitted(count: nat, route: Route)

  /** Where submissions leave their traces. */
  datatype Ledger = Ledger(
    residentQueue: seq<string>,
    commandFile: seq<string>,
    directAudit: seq<T.AuditRow>,
    memory: W.Bytes)

  /** What a cleared submission leaves behind on its route. */
  ghost predicate Appended(s: Setting, commands: seq<Request>, outcome: Outcome, before: Ledger, after: Ledger) {
    match RouteOf(s)
    case ToResidentQueue =>
      && after == before.(residentQueue := before.residentQueue + Payloads(commands[..Through(s.appends, |commands|)]))
      && (outcome.Submitted? <==> Through(s.appends, |commands|) == |commands|)
    case ToCommandFile =>
      && after == before.(commandFile := before.commandFile + if s.fileOpens then Payloads(commands) else [])
      && (outcome.Submitted? <==> s.fileOpens)
    case ToTurnBuffer(count, buffer) => Buffered(s, T.Sink(count, buffer), commands, outcome, before, after)
  }

  function DirectResult(outcome: Outcome): T.SubmitResult {
    match outcome
    case Submitted(count, _) => T.Submitted(count)
    case Refused(reason) => T.Rejected(if reason.DirectFailed? then reason.stage else T.NotEncodable)
  }

  /** What the turn-buffer route leaves behind: new audit rows and a changed queue in memory. */
  ghost predicate Buffered(s: Setting, sink: T.Sink, commands: seq<Request>, outcome: Outcome,
                           before: Ledger, after: Ledger)
  {
    && after == before.(directAudit := after.directAudit, memory := after.memory)
    && (outcome.Refused? ==> outcome.reason.DirectFailed? && after.directAudit == before.directAudit)
    && (outcome == Refused(DirectFailed(T.NotEncodable)) <==> !T.AllAccepted(commands))
    && (commands == [] ==> outcome.Submitted? && after == before)
    && before.directAudit <= after.directAudit
    && |after.memory| == |before.memory|
    && (T.Layout(|before.memory|, sink) ==>
          T.Effect(before.memory, after.memory, sink, commands, s.fates, s.auditOpens,
                   DirectResult(outcome), after.directAudit[|before.directAudit|..]))
  }

  class Executor {
    const heartbeats: H.StateFile
    const memory: T.ProcessMemory
    var residentQueue: seq<string>
    var commandFile: seq<string>
    var directAudit: seq<T.AuditRow>

    constructor (heartbeats: H.StateFile, memory: T.ProcessMemory, residentQueue: seq<string>, commandFile: seq<string>)
      ensures this.heartbeats == heartbeats && this.memory == memory
      ensures this.residentQueue == residentQueue && this.commandFile == commandFile && directAudit == []
    {
      this.heartbeats, this.memory := heartbeats, memory;
      this.residentQueue, this.commandFile, directAudit := residentQueue, commandFile, [];
    }

    ghost function View(): Ledger
      reads this, memory.cells
    {
      Ledger(residentQueue, commandFile, directAudit, memory.cells[..])
    }

    /** submitResidentRuntimeCommands: one record per command until one fails. */
    method SubmitResident(commands: seq<Request>, appends: nat -> bool) returns (outcome: Outcome)
      modifies this`residentQueue
      ensures residentQueue == old(residentQueue) + Payloads(commands[..Through(appends, |commands|)])
      ensures outcome == if Through(appends, |commands|) == |commands| then Submitted(|commands|, ToResidentQueue)
                         else Refused(AppendFailed)
    {
      hide Serialize;
      for i := 0 to |commands|
        invariant Through(appends, i) == i
        invariant residentQueue == old(residentQueue) + Payloads(commands[..i])
      {
        var text := SerializeCommand(commands[i]);
        if !appends(i) {
          StopsAt(appends, i, |commands|);
          return Refused(AppendFailed);
        }
        assert Payloads(commands[..i + 1]) == Payloads(commands[..i]) + [text];
        residentQueue := residentQueue + [text];
      }
      return Submitted(|commands|, ToResidentQueue);
    }

    method WriteCommandFile(commands: seq<Request>, opens: bool) returns (outcome: Outcome)
      modifies this`commandFile
      ensures commandFile == old(commandFile) + if opens then Payloads(commands) else []
      ensures outcome == if opens then Submitted(|commands|, ToCommandFile) else Refused(FileUnavailable)
    {
      hide Serialize;
      if !opens {
        return Refused(FileUnavailable);
      }
      for i := 0 to |commands|
        invariant commandFile == old(commandFile) + Payloads(commands[..i])
      {
        var text := SerializeCommand(commands[i]);
        assert Payloads(commands[..i + 1]) == Payloads(commands[..i]) + [text];
        commandFile := commandFile + [text];
      }
      assert commands[..|commands|] == commands;
      return Submitted(|commands|, ToCommandFile);
    }

    method SubmitToTurnBuffer(count: nat, buffer: nat, commands: seq<Request>, s: Setting) returns (outcome: Outcome)
      modifies this`directAudit, memory.cells
      ensures outcome.Submitted? ==> outcome == Submitted(|commands|, ToTurnBuffer(count, buffer))
      ensures Buffered(s, T.Sink(count, buffer), commands, outcome, old(View()), View())
    {
      hide T.Effect, T.AllAccepted;
      var result, audit := T.SubmitDirect(memory, T.Sink(count, buffer), commands, s.fates, s.auditOpens);
      directAudit := directAudit + audit;
      assert directAudit[|old(directAudit)|..] == audit;
      match result {
        case Rejected(stage) => return Refused(DirectFailed(stage));
        case Submitted(n) => return Submitted(n, ToTurnBuffer(count, buffer));
      }
    }

    method Dispatch(s: Setting, commands: seq<Request>) returns (outcome: Outcome)
      modifies this, memory.cells
      ensures Appended(s, commands, outcome, old(View()), View())
      ensures outcome.Submitted? ==> outcome == Submitted(|commands|, RouteOf(s))
    {
      hide ResidentSink, ActiveSink, DirectSink, Payloads, Buffered;
      match RouteOf(s) {
        case ToTurnBuffer(count, buffer) =>
          outcome := SubmitToTurnBuffer(count, buffer, commands, s);
        case ToResidentQueue =>
          outcome := SubmitResident(commands, s.appends);
        case ToCommandFile =>
          outcome := WriteCommandFile(commands, s.fileOpens);
      }
    }

    /** submitRuntimeCommands. */
    method Submit(s: Setting, commands: seq<Request>) returns (outcome: Outcome)
      modifies this, heartbeats, memory.cells
      ensures !Cleared(s, commands, old(heartbeats.store)) ==>
                && outcome.Refused? && Problem(s, commands, old(heartbeats.store)) == Some(outcome.reason)
                && View() == old(View())
      ensures Cleared(s, commands, old(heartbeats.store)) ==>
                Appended(s, commands, outcome, old(View()), View())
      ensures outcome.Submitted? ==> outcome == Submitted(|commands|, RouteOf(s))
      ensures heartbeats.store == if EarlyProblem(s, commands).Some? then old(heartbeats.store)
                                  else H.After(old(heartbeats.store), s.heartbeat)
    {
      hide FirstFault, ManifestProblem, BridgeProblem, ProofProblem, RouteOf;
      var queue, fault := EnqueueAll(commands);
      if fault.Some? {
        return Refused(NotQueued(fault.value));
      }
      var manifestProblem := CheckManifest(s, commands);
      if manifestProblem.Some? {
        return Refused(manifestProblem.value);
      }
      var bridgeProblem := CheckBridge(s);
      if bridgeProblem.Some? {
        return Refused(bridgeProblem.value);
      }
      var beating := heartbeats.Validate(s.heartbeat);
      if !beating {
        return Refused(HeartbeatRejected);
      }
      var proofProblem := CheckProof(s);
      if proofProblem.Some? {
        return Refused(proofProblem.value);
      }
      var drained := queue.Drain();
      outcome := Dispatch(s, drained);
    }
  }

  lemma {:induction false} StopsAt(appends: nat -> bool, i: nat, n: nat)
    requires i < n && Through(appends, i) == i && !appends(i)
    ensures Through(appends, n) == i
    decreases n
  {
    if n <= i + 1 {
    } else {
      StopsAt(appends, i, n - 1);
    }
  }

  method CheckManifest(s: Setting, commands: seq<Request>) returns (problem: Option<Reason>)
    ensures problem == ManifestProblem(s, commands)
  {
    hide UnitCommands, GameActions, BridgeSurfaceProven, Valid;
    match s.manifest {
      case None =>
        if !s.remastered {
          return None;
        }
        if !BridgeSurfaceProven(s) {
          return Some(ManifestRequired);
        }
        var undeclared := FindUndeclared(commands, UnitCommands(), GameActions());
        return if undeclared.Some? then Some(ManifestRequired) else None;
      case Some(m) =>
        if !m.loaded {
          return Some(ManifestNotLoaded);
        }
        if !m.productMatches {
          return Some(ManifestWrongProduct);
        }
        if s.world.env.version != "" && !m.versionMatches {
          return Some(ManifestWrongVersion);
        }
        var valid, _ := ValidateRuntimeContract(m.contract);
        if !valid {
          return Some(ManifestInvalid);
        }
        problem := FindUndeclared(commands, m.unitCommands, m.gameActions);
    }
  }

  method FindUndeclared(commands: seq<Request>, units: seq<string>, actions: seq<string>)
    returns (problem: Option<Reason>)
    ensures problem == Undeclared(commands, units, actions)
  {
    for i := 0 to |commands|
      invariant Undeclared(commands[i..], units, actions) == Undeclared(commands, units, actions)
    {
      assert commands[i..][0] == commands[i] && commands[i..][1..] == commands[i + 1..];
      if commands[i].kind == UnitCommand {
        if commands[i].name !in units {
          return Some(UnitCommandUndeclared);
        }
      } else if commands[i].kind == GameAction {
        if commands[i].name !in actions {
          return Some(GameActionUndeclared);
        }
      }
    }
    return None;
  }

  method CheckBridge(s: Setting) returns (problem: Option<Reason>)
    ensures problem == BridgeProblem(s)
  {
    hide UniqueIdentityKeys, UniqueEvidenceKeys, IdentityOk;
    var w := s.world;
    if !w.env.bridgeConfigured {
      return Some(PathEmpty);
    }
    if !s.bridgeUsable {
      return Some(BridgeUnavailable);
    }
    if PROTOCOL_LINE !in w.lines {
      return Some(AtGate(BadProtocol));
    }
    if !UniqueIdentityKeys(w.lines) {
      return Some(AtGate(DuplicateIdentityKey));
    }
    var duplicate, _ := FindDuplicateEvidenceKey(w.lines);
    if duplicate {
      return Some(AtGate(DuplicateEvidenceKey));
    }
    if "product=" + w.env.product !in w.lines {
      return Some(AtGate(ProductMismatch));
    }
    if w.env.version != "" && "version=" + w.env.version !in w.lines {
      return Some(AtGate(VersionMismatch));
    }
    if !IdentityOk(w.env, w.lines) {
      return Some(AtGate(IdentityMismatch));
    }
    if !w.env.processOpens {
      return Some(ProcessUnverified);
    }
    return if w.resident.present && !w.resident.valid then Some(ResidentInvalid) else None;
  }

  /** The list of missing proofs, as validateSubmissionBridgeProof builds and judges it. */
  method CheckProof(s: Setting) returns (problem: Option<Reason>)
    ensures problem == ProofProblem(s)
  {
    hide ActiveSink, ResidentSink, FirstValue;
    var w := s.world;
    if FirstValue(w.lines, "mode") != VALIDATED_MODE {
      return Some(AtGate(NotValidatedMode));
    }
    if ATTACH !in w.lines || !w.lib.validated(w.lines, ATTACH) {
      return Some(ProofNeeded(ATTACH));
    }
    var present := ISSUE_COMMANDS in w.lines;
    var validated := present && w.lib.validated(w.lines, ISSUE_COMMANDS);
    if present && !validated {
      return Some(IssueCommandsUnvalidated);
    }
    var missing: seq<Reason> := [];
    if !validated {
      missing := missing + [ProofNeeded(ISSUE_COMMANDS)];
    }
    var eligible := w.resident.present && w.resident.valid && w.resident.active && w.state.activeMatchValid;
    var active := ActiveSink(w.lines, w.lib);
    var ingress := eligible && ResidentSink(s);
    if !active && !ingress {
      missing := missing + [SinkNeeded];
    }
    if missing == [] || (missing == [ProofNeeded(ISSUE_COMMANDS)] && !present && ingress) {
      return None;
    }
    return Some(missing[0]);
  }

  // ---- what a submission leaves behind ----

  /** The contract of Submit, as a relation between the ledgers. */
  ghost predicate Outcomes(s: Setting, commands: seq<Request>, store: H.Store, outcome: Outcome,
                           before: Ledger, after: Ledger)
  {
    && (!Cleared(s, commands, store) ==>
          outcome.Refused? && Problem(s, commands, store) == Some(outcome.reason) && after == before)
    && (Cleared(s, commands, store) ==> Appended(s, commands, outcome, before, after))
    && (outcome.Submitted? ==> outcome == Submitted(|commands|, RouteOf(s)))
  }

  /**
    While the issue-commands proof is never validated: whatever happens, the turn buffer and
    the command file stay as they were, and the resident queue gains the records of a prefix
    of the commands, of all of them when the submission succeeds.  The gained records decode
    back to exactly those commands.
   */
  lemma UnprovenLeavesPrefix(s: Setting, commands: seq<Request>, store: H.Store, outcome: Outcome,
                             before: Ledger, after: Ledger) returns (gained: nat)
    requires Outcomes(s, commands, store, outcome, before, after)
    requires !s.world.lib.validated(s.world.lines, ISSUE_COMMANDS)
    ensures gained <= |commands|
    ensures after == before.(residentQueue := before.residentQueue + Payloads(commands[..gained]))
    ensures gained > 0 ==> ParseAll(Payloads(commands[..gained])) == Some(commands[..gained])
    ensures outcome.Submitted? ==>
              && outcome == Submitted(|commands|, ToResidentQueue) && gained == |commands|
              && AllQueued(commands)
              && s.world.lib.validated(s.world.lines, ATTACH)
              && s.world.resident.active && s.world.state.activeMatchValid
  {
    hide ParseAll, FaultOfRequest, RouteOf, Cleared, Serialize;
    gained := 0;
    if Cleared(s, commands, store) {
      ClearedMeans(s, commands, store);
      UnprovenGoesResident(s, commands, store);
      gained := Through(s.appends, |commands|);
      PayloadsReadBack(commands[..gained]);
    }
  }

  /**
    A submission that succeeds on the turn-buffer route refines an append on the game's queue:
    if the game could decode its queue before, it now decodes the same commands followed by
    wire commands that ask for the submitted ones.  The rows the audit gains tell where in
    memory each of them stands.
   */
  lemma SubmittedReachesTheGame(s: Setting, sink: T.Sink, commands: seq<Request>, outcome: Outcome,
                                before: Ledger, after: Ledger)
    requires Buffered(s, sink, commands, outcome, before, after) && outcome.Submitted? && commands != []
    requires T.Layout(|before.memory|, sink) && T.Honest(s.fates.countWrite, 4)
    ensures |after.memory| == |before.memory| && T.AllAccepted(commands)
    ensures T.Visible(before.memory, sink).Some? && T.Visible(after.memory, sink).Some?
    ensures var was, now := T.Visible(before.memory, sink).value, T.Visible(after.memory, sink).value;
            W.DecodeAll(was).Some? ==> W.DecodeAll(now) == Some(W.DecodeAll(was).value + T.Wires(commands))
    ensures forall i :: 0 <= i < |commands| ==> Means(commands[i], T.Wires(commands)[i])
    ensures before.directAudit <= after.directAudit
    ensures T.AuditHolds(after.memory, commands, sink.bufferAddress + T.CountIn(before.memory, sink), s.auditOpens,
                         after.directAudit[|before.directAudit|..])
  {
    hide T.Effect, T.Layout, T.Honest, T.Wires, T.AuditHolds, T.Visible, T.CountIn, T.AllAccepted, W.DecodeAll, Means;
    var audit := after.directAudit[|before.directAudit|..];
    T.EffectReachesTheGame(before.memory, after.memory, sink, commands, s.fates, s.auditOpens,
                           DirectResult(outcome), audit);
    assert after.directAudit == before.directAudit + audit;
  }
}
