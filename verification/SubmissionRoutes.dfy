/**
  When a submission is let through and where it goes, in terms of the rows of the ready
  file, the validators and the state of the resident adapter.
 */
module SubmissionRoutes {
  import opened Common
  import opened BridgeLaws
  import opened BridgeProofs
  import opened CommandForms
  import opened CommandSinks
  import opened CommandSurface
  import opened Contract
  import opened Evidence
  import opened ReadyRows
  import opened RuntimeCommandQueue
  import opened Submission
  import H = Heartbeat

  // ---- the resident queue ----

  /** With the attach line, a row names a file inside the bridge that is a valid command queue. */
  ghost predicate QueueFileNamed(s: Setting) {
    && "proof.attach=passed" in s.world.lines
    && exists path :: IsQueueFile(s, path) && FirstRow(s.world.lines, "resident.queue.command.path", path)
  }

  predicate IsQueueFile(s: Setting, path: string) {
    path != "" && s.pathInside(path) && s.queueValid(path)
  }

  /** A valid, active adapter in an active match. */
  predicate AdapterPlays(s: Setting) {
    s.world.resident.present && s.world.resident.valid && s.world.resident.active && s.world.state.activeMatchValid
  }

  lemma ResidentSinkMeans(s: Setting)
    ensures ResidentSink(s) <==> QueueFileNamed(s)
  {
    hide FirstValue, FirstRow;
    var lines := s.world.lines;
    forall path | path != ""
      ensures FirstValue(lines, QUEUE_PATH_KEY) == path <==> FirstRow(lines, "resident.queue.command.path", path)
    {
      FirstValueMeans(lines, "resident.queue.command.path", path);
    }
    var named := FirstValue(lines, QUEUE_PATH_KEY);
    assert IsQueueFile(s, named) <==> named != "" && s.pathInside(named) && s.queueValid(named);
  }

  // ---- the route ----

  /**
    The route of a submission: the turn buffer when no receiver is active and both rows tell
    its addresses, else the resident queue when a row names one, else the command file.
   */
  lemma RouteMeans(s: Setting)
    ensures var w := s.world;
            && (forall count: nat, buffer: nat ::
                  RouteOf(s) == ToTurnBuffer(count, buffer)
                  <==> !ActiveReceiver(w.lines, w.lib)
                       && TellsTurnBuffer(w.lines, w.lib, w.parseAddress, count, buffer))
            && (RouteOf(s) == ToResidentQueue
                <==> QueueFileNamed(s)
                     && (ActiveReceiver(w.lines, w.lib)
                         || forall count: nat, buffer: nat ::
                              !TellsTurnBuffer(w.lines, w.lib, w.parseAddress, count, buffer)))
  {
    hide ActiveSink, ActiveReceiver, DirectSink, TellsTurnBuffer, ResidentSink, QueueFileNamed;
    var w := s.world;
    ActiveSinkMeans(w.lines, w.lib);
    ResidentSinkMeans(s);
    forall count: nat, buffer: nat
      ensures DirectSink(w.lines, w.lib, w.parseAddress) == Some((count, buffer))
              <==> TellsTurnBuffer(w.lines, w.lib, w.parseAddress, count, buffer)
    {
      DirectSinkMeans(w.lines, w.lib, w.parseAddress, count, buffer);
    }
    var direct := DirectSink(w.lines, w.lib, w.parseAddress);
    if direct.Some? {
      assert direct == Some((direct.value.0, direct.value.1));
    }
  }

  // ---- the proofs ----

  /** The ready file is in validated mode and its proofs let commands through. */
  ghost predicate ProofsSuffice(s: Setting) {
    var w := s.world;
    && FirstRow(w.lines, "mode", "validated-runtime-adapter")
    && "proof.attach=passed" in w.lines && w.lib.validated(w.lines, "proof.attach=passed")
    && if "proof.issue_commands=passed" in w.lines
       then && w.lib.validated(w.lines, "proof.issue_commands=passed")
            && (ActiveReceiver(w.lines, w.lib) || (AdapterPlays(s) && QueueFileNamed(s)))
       else AdapterPlays(s) && QueueFileNamed(s)
  }

  lemma ProofProblemMeans(s: Setting)
    ensures ProofProblem(s).None? <==> ProofsSuffice(s)
  {
    hide ActiveSink, ActiveReceiver, ResidentSink, QueueFileNamed, FirstValue, FirstRow;
    ActiveSinkMeans(s.world.lines, s.world.lib);
    ResidentSinkMeans(s);
    FirstValueMeans(s.world.lines, "mode", "validated-runtime-adapter");
  }

  // ---- the whole chain ----

  /** The bridge is there and its ready file is this runtime's, with no repeated key. */
  ghost predicate BridgeServes(s: Setting) {
    var w := s.world;
    && w.env.bridgeConfigured && s.bridgeUsable && w.env.processOpens
    && "protocol=starcraft-api-file-bridge-v1" in w.lines
    && "product=" + w.env.product in w.lines
    && (w.env.version != "" ==> "version=" + w.env.version in w.lines)
    && (forall key :: IsIdentityKey(key) ==> AtMostOnce(w.lines, key))
    && UniqueEvidenceKeys(w.lines)
    && NamesProcess(w.env, w.lines)
    && (w.resident.present ==> w.resident.valid)
  }

  lemma BridgeProblemMeans(s: Setting)
    requires s.world.env.processText != ""
    ensures BridgeProblem(s).None? <==> BridgeServes(s)
  {
    hide UniqueIdentityKeys, UniqueEvidenceKeys, IdentityOk, NamesProcess, AtMostOnce;
    var w := s.world;
    ProtocolLineIs();
    IdentityKeysMean(w.lines);
    if UniqueIdentityKeys(w.lines) {
      assert IsIdentityKey("process_id") && IsIdentityKey("executable");
      IdentityMeans(w.env, w.lines);
    }
  }

  /** The manifest, or without one the surface, declares every command. */
  ghost predicate SurfaceServes(s: Setting, commands: seq<Request>) {
    match s.manifest
    case Some(m) => ManifestFits(s, m) && AllDeclared(commands, m.unitCommands, m.gameActions)
    case None =>
      s.remastered ==>
        s.world.env.readyExists && "proof.command_surface=runtime-command-surface-v1" in s.world.lines
  }

  /** Once the bridge and the proofs are good, the surface is proven by one line of the ready file. */
  lemma BridgeSurfaceMeans(s: Setting)
    requires BridgeProblem(s).None? && ProofProblem(s).None?
    ensures BridgeSurfaceProven(s)
            <==> s.world.env.readyExists && "proof.command_surface=runtime-command-surface-v1" in s.world.lines
  {
    hide UniqueIdentityKeys, UniqueEvidenceKeys, IdentityOk, ActiveSink, ResidentSink, FirstValue;
  }

  /**
    A submission is let through exactly when every command can be queued, its surface is
    declared, the bridge serves this runtime, the heartbeat is not rejected, and the proofs
    suffice.
   */
  lemma ClearedIsExact(s: Setting, commands: seq<Request>, store: H.Store)
    requires s.world.env.processText != ""
    ensures Cleared(s, commands, store)
            <==> && AllQueued(commands) && SurfaceServes(s, commands) && BridgeServes(s)
                 && !H.Rejected(store, s.heartbeat) && ProofsSuffice(s)
  {
    hide AllQueued, FirstFault, ManifestFits, AllDeclared, BridgeSurfaceProven, ManifestProblem;
    hide BridgeServes, BridgeProblem, ProofProblem, ProofsSuffice, UnitCommands, GameActions;
    var fault := FirstFault(commands);
    NoManifestProblemMeans(s, commands);
    BridgeProblemMeans(s);
    ProofProblemMeans(s);
    if BridgeProblem(s).None? && ProofProblem(s).None? {
      BridgeSurfaceMeans(s);
    }
  }

  // ---- why a submission is refused ----

  /** The first command that cannot be queued has this fault. */
  ghost predicate FirstBad(commands: seq<Request>, fault: QueueFault) {
    exists i :: && 0 <= i < |commands| && FaultOfRequest(commands[i]) == Some(fault)
                && forall j :: 0 <= j < i ==> FaultOfRequest(commands[j]).None?
  }

  ghost predicate SomeUndeclared(commands: seq<Request>, kind: Kind, names: seq<string>) {
    exists i :: 0 <= i < |commands| && commands[i].kind == kind && commands[i].name !in names
  }

  /** What a reason about the manifest says. */
  ghost predicate ManifestRefuses(s: Setting, commands: seq<Request>, reason: Reason) {
    match s.manifest
    case None => reason.ManifestRequired? && s.remastered
    case Some(m) =>
      match reason
      case ManifestNotLoaded => !m.loaded
      case ManifestWrongProduct => !m.productMatches
      case ManifestWrongVersion => s.world.env.version != "" && !m.versionMatches
      case ManifestInvalid => !Valid(m.contract)
      case UnitCommandUndeclared => SomeUndeclared(commands, UnitCommand, m.unitCommands)
      case GameActionUndeclared => SomeUndeclared(commands, GameAction, m.gameActions)
      case _ => false
  }

  /** What a reason about the bridge and its ready file says. */
  ghost predicate BridgeRefuses(s: Setting, reason: Reason) {
    var w := s.world;
    match reason
    case PathEmpty => !w.env.bridgeConfigured
    case BridgeUnavailable => !s.bridgeUsable
    case ProcessUnverified => !w.env.processOpens
    case ResidentInvalid => w.resident.present && !w.resident.valid
    case AtGate(BadProtocol) => "protocol=starcraft-api-file-bridge-v1" !in w.lines
    case AtGate(DuplicateIdentityKey) => exists key :: IsIdentityKey(key) && !AtMostOnce(w.lines, key)
    case AtGate(DuplicateEvidenceKey) => !UniqueEvidenceKeys(w.lines)
    case AtGate(ProductMismatch) => "product=" + w.env.product !in w.lines
    case AtGate(VersionMismatch) => w.env.version != "" && "version=" + w.env.version !in w.lines
    case AtGate(IdentityMismatch) => !NamesProcess(w.env, w.lines)
    case _ => false
  }

  /** What a reason about the proofs says. */
  ghost predicate ProofRefuses(s: Setting, reason: Reason) {
    var w := s.world;
    match reason
    case AtGate(NotValidatedMode) => !FirstRow(w.lines, "mode", "validated-runtime-adapter")
    case ProofNeeded(line) =>
      if line == ATTACH then ATTACH !in w.lines || !w.lib.validated(w.lines, ATTACH)
      else line == ISSUE_COMMANDS && line !in w.lines && !(AdapterPlays(s) && QueueFileNamed(s))
    case IssueCommandsUnvalidated => ISSUE_COMMANDS in w.lines && !w.lib.validated(w.lines, ISSUE_COMMANDS)
    case SinkNeeded =>
      && ISSUE_COMMANDS in w.lines
      && !ActiveReceiver(w.lines, w.lib) && !(AdapterPlays(s) && QueueFileNamed(s))
    case _ => false
  }

  lemma {:induction false} FirstFaultIs(commands: seq<Request>)
    requires FirstFault(commands).Some?
    ensures FirstBad(commands, FirstFault(commands).value)
  {
    hide FaultOfRequest;
    if FaultOfRequest(commands[0]).Some? {
    } else {
      FirstFaultIs(commands[1..]);
      var fault := FirstFault(commands).value;
      var i :| && 0 <= i < |commands| - 1 && FaultOfRequest(commands[1..][i]) == Some(fault)
               && forall j :: 0 <= j < i ==> FaultOfRequest(commands[1..][j]).None?;
      assert FaultOfRequest(commands[i + 1]) == Some(fault);
      assert forall j :: 1 <= j < i + 1 ==> commands[j] == commands[1..][j - 1];
    }
  }

  lemma {:induction false} UndeclaredIs(commands: seq<Request>, units: seq<string>, actions: seq<string>)
    requires Undeclared(commands, units, actions).Some?
    ensures match Undeclared(commands, units, actions).value
            case UnitCommandUndeclared => SomeUndeclared(commands, UnitCommand, units)
            case GameActionUndeclared => SomeUndeclared(commands, GameAction, actions)
            case _ => false
  {
    var r := commands[0];
    if !(r.kind == UnitCommand && r.name !in units) && !(r.kind == GameAction && r.name !in actions) {
      UndeclaredIs(commands[1..], units, actions);
      assert forall i :: 1 <= i < |commands| ==> commands[i] == commands[1..][i - 1];
    }
  }

  lemma ManifestReason(s: Setting, commands: seq<Request>)
    requires ManifestProblem(s, commands).Some?
    ensures ManifestRefuses(s, commands, ManifestProblem(s, commands).value)
  {
    hide Undeclared, BridgeSurfaceProven, Valid, SomeUndeclared, UnitCommands, GameActions;
    if s.manifest.Some? {
      var m := s.manifest.value;
      if Undeclared(commands, m.unitCommands, m.gameActions).Some? {
        UndeclaredIs(commands, m.unitCommands, m.gameActions);
      }
    }
  }

  lemma BridgeReason(s: Setting)
    requires BridgeProblem(s).Some? && s.world.env.processText != ""
    ensures BridgeRefuses(s, BridgeProblem(s).value)
  {
    hide UniqueIdentityKeys, UniqueEvidenceKeys, IdentityOk, NamesProcess, AtMostOnce;
    var w := s.world;
    ProtocolLineIs();
    IdentityKeysMean(w.lines);
    if UniqueIdentityKeys(w.lines) {
      assert IsIdentityKey("process_id") && IsIdentityKey("executable");
      IdentityMeans(w.env, w.lines);
    }
  }

  lemma ProofReason(s: Setting)
    requires ProofProblem(s).Some?
    ensures ProofRefuses(s, ProofProblem(s).value)
  {
    hide ActiveSink, ActiveReceiver, ResidentSink, QueueFileNamed, FirstValue, FirstRow;
    ActiveSinkMeans(s.world.lines, s.world.lib);
    ResidentSinkMeans(s);
    FirstValueMeans(s.world.lines, "mode", "validated-runtime-adapter");
  }

  /** A refused submission answers a reason that is true of it. */
  lemma RefusalIsTrue(s: Setting, commands: seq<Request>, store: H.Store, reason: Reason)
    requires Problem(s, commands, store) == Some(reason) && s.world.env.processText != ""
    ensures || (reason.NotQueued? && FirstBad(commands, reason.fault))
            || ManifestRefuses(s, commands, reason) || BridgeRefuses(s, reason)
            || (reason.HeartbeatRejected? && H.Rejected(store, s.heartbeat))
            || ProofRefuses(s, reason)
  {
    hide ManifestProblem, BridgeProblem, ProofProblem, FirstFault, AllQueued, FirstBad;
    hide ManifestRefuses, BridgeRefuses, ProofRefuses, H.Rejected;
    if FirstFault(commands).Some? {
      FirstFaultIs(commands);
    } else if ManifestProblem(s, commands).Some? {
      ManifestReason(s, commands);
    } else if BridgeProblem(s).Some? {
      BridgeReason(s);
    } else if ProofProblem(s).Some? {
      ProofReason(s);
    }
  }
}
