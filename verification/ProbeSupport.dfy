/**
  When a probe ends supported: the exact condition on the contract, the manifest, the ready
  file and the process.
 */
module ProbeSupport {
  import opened Contract
  import opened BridgeLaws
  import opened CommandSurface
  import opened GapReport
  import opened GateCapabilities
  import opened GateLaws
  import opened GateSurvey
  import opened LiveEvidence
  import opened ProductionGate
  import opened RemasteredBackend

  // ---- live commands ----

  /** All rows of the prefix are good, and one of them spells this command and is backed. */
  ghost predicate LiveRowOf(src: Source, name: string) {
    && GoodRows(src, |src.lines|) && CommandBacked(src, name)
    && exists i, digits :: 0 <= i < |src.lines| && RowText(src.prefix, digits, src.lines[i], name)
  }

  ghost predicate ReadsName(src: Source, name: string) {
    exists e :: e in LiveRows(src) && e.name == name
  }

  function LiveEntryFor(name: string): CommandEvidence {
    CommandEvidence(name, LiveProven, CommandProofLine(name))
  }

  lemma RowIsEntry(src: Source, name: string, i: nat)
    requires '=' !in src.prefix
    ensures ProvenBy(src, LiveEntryFor(name), i)
            <==> i < |src.lines| && CommandBacked(src, name)
                 && exists digits :: RowText(src.prefix, digits, src.lines[i], name)
  {
    hide IsRow, RowEvidence, CommandBacked, RowText;
    if i < |src.lines| {
      RowMeans(src, src.lines[i], LiveEntryFor(name));
    }
  }

  lemma EntriesAreLive(src: Source, e: CommandEvidence)
    requires e in LiveRows(src)
    ensures e == LiveEntryFor(e.name)
  {
    LiveRowsAreProven(src, e);
    hide LiveRows, ProvenBy;
  }

  lemma LiveRowsMean(src: Source, name: string)
    requires '=' !in src.prefix
    ensures ReadsName(src, name) <==> LiveRowOf(src, name)
  {
    hide RowsBelow, GoodRows, ProvenBy, CommandBacked, RowText;
    RowsAreAllOrNothing(src, |src.lines|);
    var e := LiveEntryFor(name);
    forall i: nat
      ensures ProvenBy(src, e, i)
              <==> i < |src.lines| && CommandBacked(src, name)
                   && exists digits :: RowText(src.prefix, digits, src.lines[i], name)
    {
      RowIsEntry(src, name, i);
    }
    if ReadsName(src, name) {
      var found :| found in LiveRows(src) && found.name == name;
      EntriesAreLive(src, found);
    }
  }

  lemma {:induction false} RowNamesDiffer(src: Source, n: nat)
    requires n <= |src.lines| && RowsBelow(src, n).Some?
    ensures var es := RowsBelow(src, n).value; forall i, j :: 0 <= i < j < |es| ==> es[i].name != es[j].name
  {
    hide IsRow, RowEvidence;
    if n == 0 {
    } else {
      RowNamesDiffer(src, n - 1);
    }
  }

  lemma LiveNamesDiffer(src: Source)
    ensures forall i, j :: 0 <= i < j < |LiveRows(src)| ==> LiveRows(src)[i].name != LiveRows(src)[j].name
  {
    if RowsBelow(src, |src.lines|).Some? {
      RowNamesDiffer(src, |src.lines|);
    }
  }

  /** After the merge a command counts as live exactly when it is listed and its row is read. */
  lemma MergedStatusMeans(target: seq<CommandEvidence>, src: Source, name: string)
    requires NoneLive(target) && '=' !in src.prefix
    ensures StatusFor(Merge(target, LiveRows(src)), name) == LiveProven
            <==> name in Names(target) && LiveRowOf(src, name)
  {
    hide LiveRowOf, LiveRows, Merge, StatusFor, Names;
    LiveRowsMean(src, name);
    MergeKeepsNames(target, LiveRows(src));
    if StatusFor(Merge(target, LiveRows(src)), name) == LiveProven {
      LiveStatusIsRead(target, src, name);
    }
    if name in Names(target) && ReadsName(src, name) {
      var e :| e in LiveRows(src) && e.name == name;
      EntriesAreLive(src, e);
      LiveNamesDiffer(src);
      MergeTakesEffect(target, LiveRows(src), e);
    }
  }

  lemma LiveStatusIsRead(target: seq<CommandEvidence>, src: Source, name: string)
    requires NoneLive(target) && StatusFor(Merge(target, LiveRows(src)), name) == LiveProven
    ensures name in Names(target) && ReadsName(src, name)
  {
    hide LiveRows, Merge, StatusFor;
    var merged := Merge(target, LiveRows(src));
    MergeKeepsNames(target, LiveRows(src));
    StatusHasEntry(merged, name);
    var k :| 0 <= k < |merged| && merged[k].name == name && merged[k].status == LiveProven;
    assert Names(merged)[k] == name;
    assert merged[k] in LiveRows(src);
  }

  // ---- the verdict ----

  /** The unit commands a manifest brings, or else the built-in surface. */
  function UnitsOf(site: Site): seq<string> {
    if site.manifest.Some? then site.manifest.value.unitCommands else UnitCommands()
  }

  function ActionsOf(site: Site): seq<string> {
    if site.manifest.Some? then site.manifest.value.gameActions else GameActions()
  }

  /** A unit command that is offered, has evidence, and is live by its own row. */
  ghost predicate UnitLive(site: Site, name: string) {
    && name in UnitsOf(site)
    && (site.manifest.Some? ==> name in Names(site.manifest.value.unitEvidence))
    && LiveRowOf(Source(site.world.lines, site.context(ProbePreflight(site)), "command_surface.live_unit_command.",
                        "unit-command", UnitsOf(site)), name)
  }

  ghost predicate ActionLive(site: Site, name: string) {
    && name in ActionsOf(site)
    && (site.manifest.Some? ==> name in Names(site.manifest.value.actionEvidence))
    && LiveRowOf(Source(site.world.lines, site.context(ProbePreflight(site)), "command_surface.live_game_action.",
                        "game-action", ActionsOf(site)), name)
  }

  /** The offered counts reach the contract's. */
  predicate CountsSuffice(site: Site, c: RuntimeContract) {
    match site.manifest
    case Some(m) => m.apiMethods >= c.apiMethods && m.commandEntries >= c.commandEntries
    case None => site.parity.apiMethods >= c.apiMethods && 72 >= c.commandEntries
  }

  ghost predicate CapabilityOffered(site: Site, c: Capability) {
    || (site.manifest.Some? && c in site.manifest.value.capabilities)
    || (c == SharedMemoryClient && site.world.memoryOpens)
    || (site.world.env.bridgeConfigured && Obstacle(site.world).None? && ValidatedMode(site.world)
        && CapabilityProven(site.world, c))
  }

  lemma PrefixesHaveNoEquals()
    ensures '=' !in UNIT_PREFIX && '=' !in ACTION_PREFIX
  {
  }

  /** A read bridge gives exactly the live rows' statuses. */
  lemma UnitStatusMeans(site: Site, name: string)
    requires ProbePreflight(site).bridgeMode == VALIDATED_MODE
    requires site.world.env.bridgeConfigured && site.world.env.readyExists
    ensures name in Offered(site).unitCommands && StatusFor(ProbeResult(site).unitEvidence, name) == LiveProven
            <==> name in UnitsOf(site) && UnitLive(site, name)
  {
    hide ProbePreflight, Supported, LiveRowOf, LiveRows, Merge, StatusFor, NoneLive, UnitCommands, GameActions;
    OfferedIsNeverLive(site);
    PrefixesHaveNoEquals();
    var src := UnitSource(site, ProbePreflight(site), Offered(site).unitCommands);
    MergedStatusMeans(Offered(site).unitEvidence, src, name);
    OfferedNames(site);
    hide Offered, UnitEvidenceOf, ActionEvidenceOf, DowngradedAll, Names;
  }

  lemma ActionStatusMeans(site: Site, name: string)
    requires ProbePreflight(site).bridgeMode == VALIDATED_MODE
    requires site.world.env.bridgeConfigured && site.world.env.readyExists
    ensures name in Offered(site).gameActions && StatusFor(ProbeResult(site).actionEvidence, name) == LiveProven
            <==> name in ActionsOf(site) && ActionLive(site, name)
  {
    hide ProbePreflight, Supported, LiveRowOf, LiveRows, Merge, StatusFor, NoneLive, UnitCommands, GameActions;
    OfferedIsNeverLive(site);
    PrefixesHaveNoEquals();
    var src := ActionSource(site, ProbePreflight(site), Offered(site).gameActions);
    MergedStatusMeans(Offered(site).actionEvidence, src, name);
    OfferedNames(site);
    hide Offered, UnitEvidenceOf, ActionEvidenceOf, DowngradedAll, Names;
  }

  lemma OfferedNames(site: Site)
    ensures var o := Offered(site);
            && o.unitCommands == UnitsOf(site) && o.gameActions == ActionsOf(site)
            && Names(o.unitEvidence)
               == (if site.manifest.Some? then Names(site.manifest.value.unitEvidence) else UnitsOf(site))
            && Names(o.actionEvidence)
               == (if site.manifest.Some? then Names(site.manifest.value.actionEvidence) else ActionsOf(site))
  {
    hide UnitCommands, GameActions, ActionEvidence;
    match site.manifest {
      case Some(m) =>
        ManifestIsNeverLive(m.unitEvidence);
        ManifestIsNeverLive(m.actionEvidence);
      case None =>
        BuiltInIsNeverLive(UnitCommands(), GameActions());
    }
  }

  lemma OfferedCounts(site: Site, c: RuntimeContract)
    ensures var p := ProbeResult(site);
            p.apiMethods >= c.apiMethods && p.commandEntries >= c.commandEntries <==> CountsSuffice(site, c)
  {
    hide ProbePreflight, Supported, LiveRows, Merge, DowngradedAll, UnitEvidenceOf, ActionEvidenceOf;
    SurfaceSize();
    hide UnitCommands, GameActions;
  }

  lemma SurfaceSize()
    ensures |UnitCommands()| + |GameActions()| == 72
  {
  }

  ghost predicate Clean(r: Report) {
    r.executorAvailable && r.errors == []
  }

  ghost predicate ClaimHolds(p: Probe, c: RuntimeContract) {
    && p.apiMethods >= c.apiMethods && p.commandEntries >= c.commandEntries
    && AllIn(UnitCommands(), p.unitCommands) && AllLive(UnitCommands(), p.unitEvidence)
    && AllIn(GameActions(), p.gameActions) && AllLive(GameActions(), p.actionEvidence)
    && AllCapable(c.capabilities, p.capabilities)
  }

  lemma SupportedMeans(site: Site)
    ensures var r, c := ProbePreflight(site), ProbedContract(site);
            Supported(site)
            <==> && Clean(r) && (NeedsMemory(c) ==> r.memoryAccessible)
                 && Valid(c) && EvidenceErrors(c) == [] && ClaimHolds(ProbeResult(site), c)
  {
    hide ProbePreflight, ProbedContract, NeedsMemory, Valid, EvidenceErrors, UnitCommands, GameActions;
    hide AllIn, AllLive, AllCapable, LiveRows, Merge, AddAll, UnitEvidenceOf, ActionEvidenceOf, DowngradedAll;
  }

  lemma OfferedSurvives(site: Site)
    ensures var p := ProbeResult(site);
            p.unitCommands == Offered(site).unitCommands && p.gameActions == Offered(site).gameActions
  {
    hide ProbePreflight, Supported, Offered, LiveRows, Merge, AddAll;
  }

  lemma UnitsMean(site: Site)
    requires ProbePreflight(site).bridgeMode == VALIDATED_MODE
    requires site.world.env.bridgeConfigured && site.world.env.readyExists
    ensures var p := ProbeResult(site);
            AllIn(UnitCommands(), p.unitCommands) && AllLive(UnitCommands(), p.unitEvidence)
            <==> forall name :: name in UnitCommands() ==> UnitLive(site, name)
  {
    OfferedSurvives(site);
    hide ProbeResult, ProbePreflight, Offered, StatusFor, UnitCommands;
    forall name
      ensures name in Offered(site).unitCommands && StatusFor(ProbeResult(site).unitEvidence, name) == LiveProven
              <==> UnitLive(site, name)
    {
      UnitStatusMeans(site, name);
    }
    hide UnitLive;
    BothForAll(UnitCommands(), Offered(site).unitCommands, ProbeResult(site).unitEvidence);
  }

  lemma ActionsMean(site: Site)
    requires ProbePreflight(site).bridgeMode == VALIDATED_MODE
    requires site.world.env.bridgeConfigured && site.world.env.readyExists
    ensures var p := ProbeResult(site);
            AllIn(GameActions(), p.gameActions) && AllLive(GameActions(), p.actionEvidence)
            <==> forall name :: name in GameActions() ==> ActionLive(site, name)
  {
    OfferedSurvives(site);
    hide ProbeResult, ProbePreflight, Offered, StatusFor, GameActions;
    forall name
      ensures name in Offered(site).gameActions && StatusFor(ProbeResult(site).actionEvidence, name) == LiveProven
              <==> ActionLive(site, name)
    {
      ActionStatusMeans(site, name);
    }
    hide ActionLive;
    BothForAll(GameActions(), Offered(site).gameActions, ProbeResult(site).actionEvidence);
  }

  lemma BothForAll(names: seq<string>, offered: seq<string>, entries: seq<CommandEvidence>)
    ensures AllIn(names, offered) && AllLive(names, entries)
            <==> forall name :: name in names ==> name in offered && StatusFor(entries, name) == LiveProven
  {
    hide StatusFor;
  }

  lemma CapabilitiesMean(site: Site, required: seq<Capability>)
    ensures AllCapable(required, ProbeResult(site).capabilities)
            <==> forall capability :: capability in required ==> CapabilityOffered(site, capability)
  {
    hide ProbeResult, CapabilityOffered;
    forall capability
      ensures capability in ProbeResult(site).capabilities <==> CapabilityOffered(site, capability)
    {
      OneCapability(site, capability);
    }
  }

  lemma OneCapability(site: Site, capability: Capability)
    ensures capability in ProbeResult(site).capabilities <==> CapabilityOffered(site, capability)
  {
    ProbeCapabilities(site, capability);
    hide ProbeResult, Obstacle, ValidatedMode, CapabilityProven;
  }

  /** A clean preflight read the bridge. */
  lemma CleanReadsBridge(site: Site)
    ensures Clean(ProbePreflight(site)) <==> AllChecksPass(site.world, ProbedContract(site))
    ensures Clean(ProbePreflight(site)) ==>
              && ProbePreflight(site).bridgeMode == VALIDATED_MODE
              && site.world.env.bridgeConfigured && site.world.env.readyExists
              && (NeedsMemory(ProbedContract(site)) ==> ProbePreflight(site).memoryAccessible)
  {
    var w, c := site.world, ProbedContract(site);
    CleanPreflightIsExact(w, c);
    NoObstacleMeans(w);
    hide ProbedContract, Preflight, NeedsMemory;
    if Clean(ProbePreflight(site)) {
      CleanPreflightFields(w, c);
    }
    hide Obstacle, AllProven, Required, TransportProven, ValidatedMode, BridgeAlive, IdentityOk;
    hide Valid, Apply;
  }

  /** The manifest's contract, or else the parity contract, with the bridge's proofs applied. */
  ghost function JudgedContract(site: Site): RuntimeContract {
    var w := site.world;
    Apply(w.env, w.lines, w.lib, match site.manifest case Some(m) => m.contract case None => site.parity)
  }

  lemma JudgedIsProbed(site: Site)
    ensures JudgedContract(site) == ProbedContract(site)
  {
    hide Apply;
  }

  /**
    A probe ends supported exactly when every check of the preflight passes, the contract with
    the bridge's proofs is valid with production evidence only, the counts suffice, every
    command of the surface is live by its own row, and every required capability is offered.
   */
  lemma SupportIsExact(site: Site)
    ensures var c := JudgedContract(site);
            Supported(site)
            <==> && AllChecksPass(site.world, c) && Valid(c) && EvidenceErrors(c) == []
                 && CountsSuffice(site, c)
                 && (forall name :: name in UnitCommands() ==> UnitLive(site, name))
                 && (forall name :: name in GameActions() ==> ActionLive(site, name))
                 && (forall capability :: capability in c.capabilities ==> CapabilityOffered(site, capability))
  {
    var c := ProbedContract(site);
    JudgedIsProbed(site);
    hide JudgedContract, ProbedContract;
    SupportedMeans(site);
    CleanReadsBridge(site);
    OfferedCounts(site, c);
    CapabilitiesMean(site, c.capabilities);
    hide ProbePreflight, Supported, ProbeResult, AllChecksPass, Valid, EvidenceErrors, CountsSuffice;
    hide UnitCommands, GameActions, UnitLive, ActionLive, CapabilityOffered, AllIn, AllLive, AllCapable, NeedsMemory;
    if Clean(ProbePreflight(site)) {
      UnitsMean(site);
      ActionsMean(site);
    }
  }
}
