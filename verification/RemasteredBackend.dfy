/**
  The StarCraft Remastered backend: probing gathers what a manifest or the built-in surface
  offers, what the bridge proves and what the ready file shows live; opening follows the
  probe.
 */
module RemasteredBackend {
  import opened Common
  import opened Contract
  import opened BridgeLaws
  import opened BridgeProofs
  import opened CommandSurface
  import opened LiveEvidence
  import opened ProductionGate
  import opened GateSurvey
  import opened GateCapabilities
  import opened GateLaws
  import opened GapReport

  datatype Manifest = Manifest(
    contract: RuntimeContract,
    capabilities: seq<Capability>,
    unitCommands: seq<string>,
    gameActions: seq<string>,
    unitEvidence: seq<CommandEvidence>,
    actionEvidence: seq<CommandEvidence>,
    apiMethods: int,
    commandEntries: int)

  /** What one probe sees: the world, the parity contract, the loaded manifest if any, and
      the context of command-specific evidence, which depends on the preflight report. */
  datatype Site = Site(
    world: World,
    parity: RuntimeContract,
    manifest: Option<Manifest>,
    context: Report -> Context)

  function BaseContract(site: Site): RuntimeContract {
    if site.manifest.Some? then site.manifest.value.contract else site.parity
  }

  /** The probe before the bridge is looked at. */
  function Offered(site: Site): Probe {
    match site.manifest
    case Some(m) =>
      Probe(true, m.capabilities, m.unitCommands, m.gameActions,
            DowngradedAll(m.unitEvidence), DowngradedAll(m.actionEvidence), m.apiMethods, m.commandEntries)
    case None =>
      Probe(true, [], UnitCommands(), GameActions(),
            UnitEvidenceOf(UnitCommands()), ActionEvidenceOf(GameActions()),
            site.parity.apiMethods, |UnitCommands()| + |GameActions()|)
  }

  function AddAll(cs: seq<Capability>, more: seq<Capability>): seq<Capability>
    decreases |more|
  {
    if more == [] then cs else AddAll(AddCapability(cs, more[0]), more[1..])
  }

  ghost function ProbedContract(site: Site): RuntimeContract {
    Apply(site.world.env, site.world.lines, site.world.lib, BaseContract(site))
  }

  ghost function ProbePreflight(site: Site): Report {
    Preflight(site.world, ProbedContract(site))
  }

  function UnitSource(site: Site, r: Report, expected: seq<string>): Source {
    Source(site.world.lines, site.context(r), UNIT_PREFIX, "unit-command", expected)
  }

  function ActionSource(site: Site, r: Report, expected: seq<string>): Source {
    Source(site.world.lines, site.context(r), ACTION_PREFIX, "game-action", expected)
  }

  /** addValidatedBridgeCapabilities and applyBridgeLiveCommandEvidence. */
  function WithBridge(site: Site, p: Probe, r: Report): Probe {
    if r.bridgeMode != VALIDATED_MODE then p
    else
      var q := p.(capabilities := AddAll(p.capabilities, r.proven));
      if !site.world.env.bridgeConfigured || !site.world.env.readyExists then q
      else
        q.(unitEvidence := Merge(p.unitEvidence, LiveRows(UnitSource(site, r, p.unitCommands))),
           actionEvidence := Merge(p.actionEvidence, LiveRows(ActionSource(site, r, p.gameActions))))
  }

  function WithMemory(site: Site, p: Probe): Probe {
    if site.world.memoryOpens then p.(capabilities := AddCapability(p.capabilities, SharedMemoryClient)) else p
  }

  /** probe, apart from its verdict. */
  ghost function Gathered(site: Site): Probe {
    WithBridge(site, WithMemory(site, Offered(site)), ProbePreflight(site))
  }

  ghost predicate Supported(site: Site) {
    var r, c := ProbePreflight(site), ProbedContract(site);
    && CanClaimProductionSupport(Gathered(site), c)
    && r.executorAvailable
    && (NeedsMemory(c) ==> r.memoryAccessible)
    && r.errors == []
  }

  ghost function ProbeResult(site: Site): Probe {
    Gathered(site).(supported := Supported(site))
  }

  datatype SessionState = Closed | Open | Failed

  class Backend {
    var state: SessionState

    constructor ()
      ensures state == Closed
    {
      state := Closed;
    }

    method Probe(site: Site) returns (result: Probe)
      ensures result == ProbeResult(site)
    {
      hide Preflight, CanClaimProductionSupport, Offered, AddAll;
      var w := site.world;
      result := StartProbe(site);
      var contract := ApplyBridgeProofs(w.env, w.lines, w.lib, BaseContract(site));
      if w.memoryOpens {
        result := result.(capabilities := AddCapability(result.capabilities, SharedMemoryClient));
      }
      var preflight := PreflightRuntimeExecutor(w, contract);
      result := ReadBridge(site, result, preflight);
      var claim := CheckProductionClaim(result, contract);
      result := result.(supported := claim && preflight.executorAvailable
                                     && (!NeedsMemory(contract) || preflight.memoryAccessible)
                                     && preflight.errors == []);
    }

    method Open(site: Site) returns (success: bool)
      modifies this
      ensures success <==> Supported(site)
      ensures state == if success then SessionState.Open else Failed
    {
      hide Supported, Gathered;
      var probed := Probe(site);
      if !probed.supported {
        state := Failed;
        return false;
      }
      state := SessionState.Open;
      return true;
    }

    method Close()
      modifies this
      ensures state == Closed
    {
      state := Closed;
    }
  }

  method StartProbe(site: Site) returns (result: Probe)
    ensures result == Offered(site)
  {
    hide UnitCommands, GameActions, UnitEvidenceOf, ActionEvidenceOf, DowngradedAll;
    match site.manifest {
      case Some(m) =>
        var units := StaticManifestEvidence(m.unitEvidence);
        var actions := StaticManifestEvidence(m.actionEvidence);
        result := Probe(true, m.capabilities, m.unitCommands, m.gameActions, units, actions,
                        m.apiMethods, m.commandEntries);
      case None =>
        var units, actions := MakeEvidence(UnitCommands(), GameActions());
        result := Probe(true, [], UnitCommands(), GameActions(), units, actions,
                        site.parity.apiMethods, |UnitCommands()| + |GameActions()|);
    }
  }

  method ReadBridge(site: Site, p: Probe, preflight: PreflightResult) returns (result: Probe)
    ensures result == WithBridge(site, p, preflight.View())
  {
    hide LiveRows, Merge;
    result := p;
    if preflight.bridgeMode != VALIDATED_MODE {
      return;
    }
    var capabilities := AddProven(p.capabilities, preflight.proven);
    result := result.(capabilities := capabilities);
    if !site.world.env.bridgeConfigured || !site.world.env.readyExists {
      return;
    }
    var report := ReportOf(preflight);
    var units := new EvidenceList(p.unitEvidence);
    var live := ReadLiveEvidence(UnitSource(site, report, p.unitCommands));
    units.MergeLive(live);
    var actions := new EvidenceList(p.actionEvidence);
    live := ReadLiveEvidence(ActionSource(site, report, p.gameActions));
    actions.MergeLive(live);
    result := result.(unitEvidence := units.entries, actionEvidence := actions.entries);
  }

  method ReportOf(preflight: PreflightResult) returns (r: Report)
    ensures r == preflight.View()
  {
    return Report(preflight.contractValid, preflight.processIdentified, preflight.memoryAccessible,
                  preflight.targetLocated, preflight.executorAvailable, preflight.bridgeMode,
                  preflight.proven, preflight.missing, preflight.errors);
  }

  method AddProven(cs: seq<Capability>, more: seq<Capability>) returns (all: seq<Capability>)
    ensures all == AddAll(cs, more)
  {
    all := cs;
    for i := 0 to |more|
      invariant AddAll(all, more[i..]) == AddAll(cs, more)
    {
      assert more[i..][0] == more[i] && more[i..][1..] == more[i + 1..];
      all := AddCapability(all, more[i]);
    }
  }

  // ---- capabilities ----

  lemma {:induction false} AddedAll(cs: seq<Capability>, more: seq<Capability>)
    ensures forall c :: c in AddAll(cs, more) <==> c in cs || c in more
    decreases |more|
  {
    if more == [] {
    } else {
      AddedAll(AddCapability(cs, more[0]), more[1..]);
    }
  }

  lemma WithBridgeAdds(site: Site, p: Probe, r: Report)
    ensures forall c :: c in WithBridge(site, p, r).capabilities <==>
              c in p.capabilities || (r.bridgeMode == VALIDATED_MODE && c in r.proven)
  {
    hide LiveRows, Merge, AddAll;
    AddedAll(p.capabilities, r.proven);
  }

  /**
    A probe offers a capability exactly when the manifest does, or process memory opens and it
    is the shared-memory client, or the bridge meets no obstacle, is in validated mode and its
    proofs bear the capability out.
   */
  lemma ProbeCapabilities(site: Site, c: Capability)
    ensures c in ProbeResult(site).capabilities <==>
              || (site.manifest.Some? && c in site.manifest.value.capabilities)
              || (c == SharedMemoryClient && site.world.memoryOpens)
              || (site.world.env.bridgeConfigured && Obstacle(site.world).None? && ValidatedMode(site.world)
                  && CapabilityProven(site.world, c))
  {
    hide Preflight, Obstacle, Supported, WithBridge, FirstValue, CapabilityProven, ProofLines, IsSubsequence;
    hide UnitCommands, GameActions, UnitEvidenceOf, ActionEvidenceOf, DowngradedAll, LineProven;
    PreflightListsAreExact(site.world, ProbedContract(site));
    WithBridgeAdds(site, WithMemory(site, Offered(site)), ProbePreflight(site));
    ModeIsNotEmpty();
  }

  lemma ModeIsNotEmpty()
    ensures VALIDATED_MODE != ""
  {
  }

  // ---- what support means ----

  lemma OfferedIsNeverLive(site: Site)
    ensures NoneLive(Offered(site).unitEvidence) && NoneLive(Offered(site).actionEvidence)
  {
    hide UnitCommands, GameActions, UnitEvidenceOf, ActionEvidenceOf, DowngradedAll, NoneLive;
    match site.manifest {
      case Some(m) =>
        ManifestIsNeverLive(m.unitEvidence);
        ManifestIsNeverLive(m.actionEvidence);
      case None =>
        BuiltInIsNeverLive(UnitCommands(), GameActions());
    }
  }

  /** After a probe a live-proven unit command has its own proven row in the ready file. */
  lemma LiveUnitsComeFromRows(site: Site, e: CommandEvidence)
    requires e in ProbeResult(site).unitEvidence && e.status == LiveProven
    ensures var src := UnitSource(site, ProbePreflight(site), Offered(site).unitCommands);
            e.name in src.expected && CommandProven(src.lines, src.ctx, src.kind, e)
            && exists i: nat :: ProvenBy(src, e, i)
  {
    hide Preflight, Supported, Offered, NoneLive, Merge, LiveRows, CommandProven, ProvenBy;
    OfferedIsNeverLive(site);
    var src := UnitSource(site, ProbePreflight(site), Offered(site).unitCommands);
    NotLiveUnlessMerged(Offered(site).unitEvidence, e);
    LiveOnlyFromRows(Offered(site).unitEvidence, src, e);
  }

  lemma LiveActionsComeFromRows(site: Site, e: CommandEvidence)
    requires e in ProbeResult(site).actionEvidence && e.status == LiveProven
    ensures var src := ActionSource(site, ProbePreflight(site), Offered(site).gameActions);
            e.name in src.expected && CommandProven(src.lines, src.ctx, src.kind, e)
            && exists i: nat :: ProvenBy(src, e, i)
  {
    hide Preflight, Supported, Offered, NoneLive, Merge, LiveRows, CommandProven, ProvenBy;
    OfferedIsNeverLive(site);
    var src := ActionSource(site, ProbePreflight(site), Offered(site).gameActions);
    NotLiveUnlessMerged(Offered(site).actionEvidence, e);
    LiveOnlyFromRows(Offered(site).actionEvidence, src, e);
  }

  lemma NotLiveUnlessMerged(entries: seq<CommandEvidence>, e: CommandEvidence)
    requires NoneLive(entries)
    ensures e.status == LiveProven ==> e !in entries
  {
  }

  /** Merging never changes which commands have evidence, or their order. */
  lemma ProbeKeepsEvidenceNames(site: Site)
    ensures Names(ProbeResult(site).unitEvidence) == Names(Offered(site).unitEvidence)
    ensures Names(ProbeResult(site).actionEvidence) == Names(Offered(site).actionEvidence)
  {
    hide Preflight, Supported, Offered, Merge, LiveRows, Names;
    var o, r := Offered(site), ProbePreflight(site);
    MergeKeepsNames(o.unitEvidence, LiveRows(UnitSource(site, r, o.unitCommands)));
    MergeKeepsNames(o.actionEvidence, LiveRows(ActionSource(site, r, o.gameActions)));
  }

  /**
    Support implies: every required proof line is present and validated, the contract is
    valid with production evidence only, and every unit command of the surface has a proof
    line of its own in the ready file and a validated snapshot.
   */
  lemma SupportMeansProven(site: Site, name: string)
    requires Supported(site) && name in UnitCommands()
    ensures forall p :: p in Required() ==>
              p.line in site.world.lines && site.world.lib.validated(site.world.lines, p.line)
    ensures Valid(ProbedContract(site)) && EvidenceErrors(ProbedContract(site)) == []
    ensures CommandProofLine(name) in site.world.lines
    ensures site.context(ProbePreflight(site)).snapshotValid(name, "unit-command")
  {
    hide Preflight, Required, UnitCommands, Offered, Gathered, Supported;
    hide Valid, EvidenceErrors, AllLive, CommandProven, ProvenBy;
    SupportUnfolds(site);
    ProofsOfSupport(site);
    var e := LiveEntry(UnitCommands(), ProbeResult(site).unitEvidence, name);
    LiveUnitsComeFromRows(site, e);
    RowProofIs(UnitSource(site, ProbePreflight(site), Offered(site).unitCommands), e);
  }

  /** The same for every game action of the surface. */
  lemma SupportMeansActionsProven(site: Site, name: string)
    requires Supported(site) && name in GameActions()
    ensures CommandProofLine(name) in site.world.lines
    ensures site.context(ProbePreflight(site)).snapshotValid(name, "game-action")
  {
    hide Preflight, GameActions, Offered, Gathered, Supported, Valid, EvidenceErrors, AllLive, CommandProven, ProvenBy;
    SupportUnfolds(site);
    var e := LiveEntry(GameActions(), ProbeResult(site).actionEvidence, name);
    LiveActionsComeFromRows(site, e);
    RowProofIs(ActionSource(site, ProbePreflight(site), Offered(site).gameActions), e);
  }

  lemma RowProofIs(src: Source, e: CommandEvidence)
    requires CommandProven(src.lines, src.ctx, src.kind, e)
    ensures CommandProofLine(e.name) in src.lines && src.ctx.snapshotValid(e.name, src.kind)
  {
  }

  lemma LiveEntry(names: seq<string>, entries: seq<CommandEvidence>, name: string) returns (e: CommandEvidence)
    requires AllLive(names, entries) && name in names
    ensures e in entries && e.name == name && e.status == LiveProven
  {
    var k :| 0 <= k < |names| && names[k] == name;
    assert StatusFor(entries, names[k]) == LiveProven;
    StatusHasEntry(entries, name);
    e :| e in entries && e.name == name && e.status == LiveProven;
  }

  lemma SupportUnfolds(site: Site)
    requires Supported(site)
    ensures var r, c := ProbePreflight(site), ProbedContract(site);
            && r.executorAvailable && r.errors == [] && Valid(c) && EvidenceErrors(c) == []
            && (NeedsMemory(c) ==> r.memoryAccessible)
            && AllLive(UnitCommands(), ProbeResult(site).unitEvidence)
            && AllLive(GameActions(), ProbeResult(site).actionEvidence)
            && CanClaimProductionSupport(ProbeResult(site), c)
  {
    hide Preflight, Gathered, UnitCommands, GameActions, Valid, EvidenceErrors, AllIn, AllLive, AllCapable, NeedsMemory;
  }

  lemma ProofsOfSupport(site: Site)
    requires ProbePreflight(site).executorAvailable && ProbePreflight(site).errors == []
    ensures forall p :: p in Required() ==>
              p.line in site.world.lines && site.world.lib.validated(site.world.lines, p.line)
  {
    hide Preflight, Required;
    CleanPreflightProvesEverything(site.world, ProbedContract(site));
  }

  /** A supported probe leaves nothing for the gap report. */
  lemma SupportLeavesNoGaps(site: Site)
    requires Supported(site)
    ensures Gaps(ProbeResult(site), ProbedContract(site), ProbePreflight(site)) == []
  {
    hide Preflight, Gathered, Supported, CanClaimProductionSupport, NeedsMemory, Gaps;
    SupportUnfolds(site);
    CleanPreflightFields(site.world, ProbedContract(site));
    ClaimLeavesNoGaps(ProbeResult(site), ProbedContract(site), ProbePreflight(site));
  }

  // ---- runs ----

  datatype Call = OpenCall(site: Site) | CloseCall

  ghost function AfterCall(state: SessionState, call: Call): SessionState {
    match call
    case CloseCall => Closed
    case OpenCall(site) => if Supported(site) then SessionState.Open else Failed
  }

  /** The state after a sequence of open and close calls on a new backend. */
  ghost function AfterCalls(calls: seq<Call>): SessionState {
    if calls == [] then Closed else AfterCall(AfterCalls(calls[..|calls| - 1]), calls[|calls| - 1])
  }

  ghost predicate ShippedCalls(calls: seq<Call>) {
    forall i :: 0 <= i < |calls| && calls[i].OpenCall? ==> Shipped(calls[i].site.world)
  }

  /** With the shipped validators no probe is ever supported. */
  lemma ShippedIsNeverSupported(site: Site)
    requires Shipped(site.world)
    ensures !Supported(site) && !ProbeResult(site).supported
  {
    hide Preflight, Gathered, Shipped;
    ShippedGateStaysClosed(site.world, ProbedContract(site));
  }

  /** With the shipped validators no sequence of calls reaches the open state. */
  lemma {:induction false} ShippedNeverOpens(calls: seq<Call>)
    requires ShippedCalls(calls)
    ensures AfterCalls(calls) != SessionState.Open
  {
    hide Supported, Shipped, ProbeResult;
    if calls != [] {
      var last := calls[|calls| - 1];
      if last.OpenCall? {
        ShippedIsNeverSupported(last.site);
      }
    }
  }
}
