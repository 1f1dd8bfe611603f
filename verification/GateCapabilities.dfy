/**
  What the survey of behavior proofs reports: which capabilities are proven, which proof
  lines are missing and which errors are added, in terms of the ready file's lines, the
  validators and the resident state.
 */
module GateCapabilities {
  import opened Common
  import opened Evidence
  import opened BridgeProofs
  import opened Contract
  import opened CommandSinks
  import opened GateSurvey

  // ---- the conditions ----

  /** What one proof line needs besides standing in the file and being validated. */
  predicate ConditionMet(w: World, line: string) {
    && (line == GAME_STATE ==> w.state.gameStateValid)
    && (line == ACTIVE_MATCH ==> w.state.activeMatchValid)
    && (line == ISSUE_COMMANDS ==>
          ActiveSink(w.lines, w.lib) || DirectSink(w.lines, w.lib, w.parseAddress).Some?)
  }

  predicate Validated(w: World, line: string) {
    w.lib.validated(w.lines, line)
  }

  predicate LineProven(w: World, line: string) {
    line in w.lines && ConditionMet(w, line) && Validated(w, line)
  }

  /** The required proof lines, in the order of the survey. */
  function ProofLines(): (lines: seq<string>)
    ensures |lines| == 12
  {
    [ATTACH, GAME_STATE, ACTIVE_MATCH, UNITS, REGION_DATA, ISSUE_COMMANDS, DRAW_OVERLAYS,
     DISPATCH_EVENTS, REPLAY_ANALYSIS, MULTIPLAYER_SYNC, BATTLE_NET, LOAD_AI_MODULES]
  }

  /** When the survey reports a capability: by a required proof, or by one of five other lines. */
  predicate CapabilityProven(w: World, c: Capability) {
    match c
    case SharedMemoryClient => LineProven(w, ATTACH)
    case ReadGameState => LineProven(w, GAME_STATE) || LineProven(w, ACTIVE_MATCH)
    case ReadUnitData => LineProven(w, UNITS)
    case ReadRegionData => LineProven(w, REGION_DATA) || Validated(w, REGION_DATA)
    case IssueCommands => LineProven(w, ISSUE_COMMANDS)
    case DrawOverlays => LineProven(w, DRAW_OVERLAYS)
    case DispatchEvents => LineProven(w, DISPATCH_EVENTS)
    case ReplayAnalysis => LineProven(w, REPLAY_ANALYSIS)
    case MultiplayerSync => LineProven(w, MULTIPLAYER_SYNC)
    case BattleNet => LineProven(w, BATTLE_NET)
    case LoadAIModules => LineProven(w, LOAD_AI_MODULES) || Validated(w, LOAD_AI_MODULES)
    case ReadMapData => Validated(w, MAP_DATA)
    case ReadPlayerData => Validated(w, PLAYER_DATA)
    case ReadBulletData => Validated(w, BULLET_DATA)
  }

  predicate NoDuplicates<T(==)>(s: seq<T>) {
    forall i, j :: 0 <= i < j < |s| ==> s[i] != s[j]
  }

  // ---- the walk ----

  ghost predicate Grants(w: World, ps: seq<BehaviorProof>, c: Capability) {
    exists i :: 0 <= i < |ps| && ps[i].capability == c && Judge(w, ps[i]).Proven?
  }

  lemma GrantsStep(w: World, ps: seq<BehaviorProof>, c: Capability)
    requires ps != []
    ensures Grants(w, ps, c) <==> (ps[0].capability == c && Judge(w, ps[0]).Proven?) || Grants(w, ps[1..], c)
  {
    hide Judge;
    if i :| 0 <= i < |ps| && ps[i].capability == c && Judge(w, ps[i]).Proven? {
      if i > 0 {
        assert ps[1..][i - 1] == ps[i];
      }
    }
    if i :| 0 <= i < |ps| - 1 && ps[1..][i].capability == c && Judge(w, ps[1..][i]).Proven? {
      assert ps[i + 1] == ps[1..][i];
    }
  }

  lemma AddedCapability(cs: seq<Capability>, c: Capability)
    ensures forall d :: d in AddCapability(cs, c) <==> d in cs || d == c
    ensures NoDuplicates(cs) ==> NoDuplicates(AddCapability(cs, c))
  {
  }

  lemma NoteProves(w: World, r: Report, p: BehaviorProof, reported: bool)
    ensures NoteProof(w, r, p, reported).proven
         == if Judge(w, p).Proven? then AddCapability(r.proven, p.capability) else r.proven
  {
    hide Judge, ProofMessages, AddCapability;
  }

  lemma {:induction false} WalkProves(w: World, r: Report, ps: seq<BehaviorProof>, reported: bool)
    ensures var proven := WalkProofs(w, r, ps, reported).proven;
            && (forall c :: c in proven <==> c in r.proven || Grants(w, ps, c))
            && (NoDuplicates(r.proven) ==> NoDuplicates(proven))
    decreases |ps|
  {
    hide Judge, NoteProof, AddCapability, Grants;
    if ps == [] {
      forall c ensures !Grants(w, ps, c) {
        NothingGranted(w, c);
      }
    } else {
      WalkProves(w, NoteProof(w, r, ps[0], reported), ps[1..], reported || ReportsDetails(Judge(w, ps[0])));
      NoteProves(w, r, ps[0], reported);
      AddedCapability(r.proven, ps[0].capability);
      forall c ensures Grants(w, ps, c) <==>
                         (ps[0].capability == c && Judge(w, ps[0]).Proven?) || Grants(w, ps[1..], c)
      {
        GrantsStep(w, ps, c);
      }
    }
  }

  lemma NothingGranted(w: World, c: Capability)
    ensures !Grants(w, [], c)
  {
  }

  ghost predicate ExtraGrants(w: World, extras: seq<(string, Capability)>, c: Capability) {
    exists i :: 0 <= i < |extras| && extras[i].1 == c && Validated(w, extras[i].0)
  }

  lemma {:induction false} ExtrasProve(w: World, r: Report, extras: seq<(string, Capability)>)
    ensures var proven := AddExtras(w, r, extras).proven;
            && (forall c :: c in proven <==> c in r.proven || ExtraGrants(w, extras, c))
            && (NoDuplicates(r.proven) ==> NoDuplicates(proven))
    decreases |extras|
  {
    hide AddCapability, ExtraGrants;
    if extras == [] {
      forall c ensures !ExtraGrants(w, extras, c) {
        NoExtraGranted(w, c);
      }
    } else {
      var r' := if Validated(w, extras[0].0) then r.(proven := AddCapability(r.proven, extras[0].1)) else r;
      ExtrasProve(w, r', extras[1..]);
      AddedCapability(r.proven, extras[0].1);
      forall c ensures ExtraGrants(w, extras, c) <==>
                         (extras[0].1 == c && Validated(w, extras[0].0)) || ExtraGrants(w, extras[1..], c)
      {
        ExtraGrantsStep(w, extras, c);
      }
    }
  }

  lemma NoExtraGranted(w: World, c: Capability)
    ensures !ExtraGrants(w, [], c)
  {
  }

  lemma ExtraGrantsStep(w: World, extras: seq<(string, Capability)>, c: Capability)
    requires extras != []
    ensures ExtraGrants(w, extras, c) <==>
              (extras[0].1 == c && Validated(w, extras[0].0)) || ExtraGrants(w, extras[1..], c)
  {
    hide Validated;
    if i :| 0 <= i < |extras| && extras[i].1 == c && Validated(w, extras[i].0) {
      if i > 0 {
        assert extras[1..][i - 1] == extras[i];
      }
    }
    if i :| 0 <= i < |extras| - 1 && extras[1..][i].1 == c && Validated(w, extras[1..][i].0) {
      assert extras[i + 1] == extras[1..][i];
    }
  }

  // ---- the required proofs ----

  lemma IdOf(i: nat)
    requires i < 12
    ensures Required()[i].id == "read-game-state" <==> i == 1
    ensures Required()[i].id == "active-match-state" <==> i == 2
    ensures Required()[i].id == "issue-commands" <==> i == 5
  {
  }

  lemma LineOfProof(i: nat)
    requires i < 12
    ensures Required()[i].line == ProofLines()[i]
  {
  }

  lemma StateLines(i: nat)
    requires i < 12
    ensures ProofLines()[i] == GAME_STATE <==> i == 1
    ensures ProofLines()[i] == ACTIVE_MATCH <==> i == 2
    ensures ProofLines()[i] == ISSUE_COMMANDS <==> i == 5
  {
  }

  lemma CapabilityOf(i: nat)
    requires i < 12
    ensures Required()[i].capability == CapabilityAt(i)
  {
  }

  lemma LinesDiffer(i: nat, j: nat)
    requires i < j < 12
    ensures ProofLines()[i] != ProofLines()[j]
  {
  }

  /** The verdict on the i-th required proof, by its line. */
  lemma JudgeMeans(w: World, i: nat)
    requires i < 12
    ensures var line := ProofLines()[i];
            Judge(w, Required()[i])
            == if line !in w.lines then LineAbsent
               else if !ConditionMet(w, line) then
                 (if line == GAME_STATE then BadGameState
                  else if line == ACTIVE_MATCH then BadActiveMatch
                  else NoSink)
               else if !Validated(w, line) then Unvalidated
               else Proven
  {
    hide Required, ProofLines, ActiveSink, DirectSink;
    IdOf(i);
    LineOfProof(i);
    StateLines(i);
  }

  /** The capabilities of the required proofs, line by line. */
  ghost predicate RequiredGrants(w: World, c: Capability) {
    exists i :: 0 <= i < 12 && CapabilityAt(i) == c && LineProven(w, ProofLines()[i])
  }

  function CapabilityAt(i: nat): Capability
    requires i < 12
  {
    [SharedMemoryClient, ReadGameState, ReadGameState, ReadUnitData, ReadRegionData, IssueCommands, DrawOverlays,
     DispatchEvents, ReplayAnalysis, MultiplayerSync, BattleNet, LoadAIModules][i]
  }

  lemma GrantedByLine(w: World, c: Capability)
    ensures Grants(w, Required(), c) <==> RequiredGrants(w, c)
  {
    hide Judge, Required, ProofLines, CapabilityAt, ConditionMet, Validated;
    forall i | 0 <= i < 12
      ensures Required()[i].capability == CapabilityAt(i)
      ensures Judge(w, Required()[i]).Proven? <==> LineProven(w, ProofLines()[i])
    {
      CapabilityOf(i);
      JudgeMeans(w, i);
    }
    if i :| 0 <= i < |Required()| && Required()[i].capability == c && Judge(w, Required()[i]).Proven? {
      assert CapabilityAt(i) == c && LineProven(w, ProofLines()[i]);
    }
    if i :| 0 <= i < 12 && CapabilityAt(i) == c && LineProven(w, ProofLines()[i]) {
      assert Required()[i].capability == c;
    }
  }

  lemma ExtraGrantedByLine(w: World, c: Capability)
    ensures ExtraGrants(w, Extras(), c) <==>
              || (c == ReadMapData && Validated(w, MAP_DATA)) || (c == ReadPlayerData && Validated(w, PLAYER_DATA))
              || (c == ReadBulletData && Validated(w, BULLET_DATA))
              || (c == ReadRegionData && Validated(w, REGION_DATA))
              || (c == LoadAIModules && Validated(w, LOAD_AI_MODULES))
  {
    hide Validated;
    var extras := Extras();
    if c == ReadMapData && Validated(w, MAP_DATA) {
      assert extras[0].1 == c && Validated(w, extras[0].0);
    } else if c == ReadPlayerData && Validated(w, PLAYER_DATA) {
      assert extras[1].1 == c && Validated(w, extras[1].0);
    } else if c == ReadBulletData && Validated(w, BULLET_DATA) {
      assert extras[2].1 == c && Validated(w, extras[2].0);
    } else if c == ReadRegionData && Validated(w, REGION_DATA) {
      assert extras[3].1 == c && Validated(w, extras[3].0);
    } else if c == LoadAIModules && Validated(w, LOAD_AI_MODULES) {
      assert extras[4].1 == c && Validated(w, extras[4].0);
    }
  }

  lemma RequiredGrantsIs(w: World, c: Capability)
    ensures RequiredGrants(w, c) <==>
              match c
              case SharedMemoryClient => LineProven(w, ATTACH)
              case ReadGameState => LineProven(w, GAME_STATE) || LineProven(w, ACTIVE_MATCH)
              case ReadUnitData => LineProven(w, UNITS)
              case ReadRegionData => LineProven(w, REGION_DATA)
              case IssueCommands => LineProven(w, ISSUE_COMMANDS)
              case DrawOverlays => LineProven(w, DRAW_OVERLAYS)
              case DispatchEvents => LineProven(w, DISPATCH_EVENTS)
              case ReplayAnalysis => LineProven(w, REPLAY_ANALYSIS)
              case MultiplayerSync => LineProven(w, MULTIPLAYER_SYNC)
              case BattleNet => LineProven(w, BATTLE_NET)
              case LoadAIModules => LineProven(w, LOAD_AI_MODULES)
              case _ => false
  {
    hide LineProven, ProofLines;
    NamedLines();
  }

  lemma NamedLines()
    ensures ProofLines()[0] == ATTACH && ProofLines()[1] == GAME_STATE && ProofLines()[2] == ACTIVE_MATCH
    ensures ProofLines()[3] == UNITS && ProofLines()[4] == REGION_DATA && ProofLines()[5] == ISSUE_COMMANDS
    ensures ProofLines()[6] == DRAW_OVERLAYS && ProofLines()[7] == DISPATCH_EVENTS
    ensures ProofLines()[8] == REPLAY_ANALYSIS && ProofLines()[9] == MULTIPLAYER_SYNC
    ensures ProofLines()[10] == BATTLE_NET && ProofLines()[11] == LOAD_AI_MODULES
  {
  }

  lemma CapabilityIs(w: World, c: Capability)
    ensures Grants(w, Required(), c) || ExtraGrants(w, Extras(), c) <==> CapabilityProven(w, c)
  {
    hide Judge, Required, LineProven, Validated, ProofLines, Grants, RequiredGrants, ExtraGrants;
    GrantedByLine(w, c);
    RequiredGrantsIs(w, c);
    ExtraGrantedByLine(w, c);
  }

  // ---- missing lines ----

  /** The lines of the proofs that fail, in order. */
  function FailedLines(w: World, ps: seq<BehaviorProof>): seq<string> {
    if ps == [] then []
    else (if Judge(w, ps[0]).Proven? then [] else [ps[0].line]) + FailedLines(w, ps[1..])
  }

  lemma NoteMisses(w: World, r: Report, p: BehaviorProof, reported: bool)
    ensures NoteProof(w, r, p, reported).missing == r.missing + if Judge(w, p).Proven? then [] else [p.line]
  {
    hide Judge, ProofMessages, AddCapability;
  }

  lemma {:induction false} WalkMisses(w: World, r: Report, ps: seq<BehaviorProof>, reported: bool)
    ensures WalkProofs(w, r, ps, reported).missing == r.missing + FailedLines(w, ps)
    decreases |ps|
  {
    hide Judge, NoteProof;
    if ps == [] {
    } else {
      NoteMisses(w, r, ps[0], reported);
      WalkMisses(w, NoteProof(w, r, ps[0], reported), ps[1..], reported || ReportsDetails(Judge(w, ps[0])));
    }
  }

  function LinesOf(ps: seq<BehaviorProof>): (lines: seq<string>)
    ensures |lines| == |ps|
  {
    seq(|ps|, i requires 0 <= i < |ps| => ps[i].line)
  }

  lemma {:induction false} FailedInOrder(w: World, ps: seq<BehaviorProof>)
    ensures IsSubsequence(FailedLines(w, ps), LinesOf(ps))
    decreases |ps|
  {
    hide Judge;
    if ps == [] {
    } else {
      FailedInOrder(w, ps[1..]);
      assert LinesOf(ps)[1..] == LinesOf(ps[1..]);
      var head := if Judge(w, ps[0]).Proven? then [] else [ps[0].line];
      if head == [] {
        SubsequencePrepend(FailedLines(w, ps[1..]), [ps[0].line], LinesOf(ps[1..]));
        assert [] + FailedLines(w, ps[1..]) == FailedLines(w, ps[1..]);
      } else {
        SubsequenceReflexive([ps[0].line]);
        SubsequenceConcat([ps[0].line], [ps[0].line], FailedLines(w, ps[1..]), LinesOf(ps[1..]));
      }
      assert LinesOf(ps) == [ps[0].line] + LinesOf(ps[1..]);
    }
  }

  lemma {:induction false} FailedMembers(w: World, ps: seq<BehaviorProof>, line: string)
    ensures line in FailedLines(w, ps) <==> exists i :: 0 <= i < |ps| && ps[i].line == line && !Judge(w, ps[i]).Proven?
    decreases |ps|
  {
    hide Judge;
    if ps == [] {
    } else {
      FailedMembers(w, ps[1..], line);
      if i :| 0 <= i < |ps| && ps[i].line == line && !Judge(w, ps[i]).Proven? {
        if i > 0 {
          assert ps[1..][i - 1] == ps[i];
        }
      }
      if i :| 0 <= i < |ps| - 1 && ps[1..][i].line == line && !Judge(w, ps[1..][i]).Proven? {
        assert ps[i + 1] == ps[1..][i];
      }
    }
  }

  lemma FailedRequired(w: World, line: string)
    ensures line in FailedLines(w, Required()) <==> line in ProofLines() && !LineProven(w, line)
  {
    hide Judge, Required, ProofLines, ConditionMet, Validated, FailedLines;
    FailedMembers(w, Required(), line);
    forall i | 0 <= i < 12
      ensures Required()[i].line == ProofLines()[i]
      ensures Judge(w, Required()[i]).Proven? <==> LineProven(w, ProofLines()[i])
    {
      LineOfProof(i);
      JudgeMeans(w, i);
    }
  }

  lemma RequiredLinesAre()
    ensures LinesOf(Required()) == ProofLines()
  {
    hide Required, ProofLines;
    forall i | 0 <= i < 12 ensures Required()[i].line == ProofLines()[i] {
      LineOfProof(i);
    }
  }

  // ---- the survey ----

  /** What a survey leaves in the report's lists, but for the errors. */
  ghost predicate SurveyLists(w: World, proven: seq<Capability>, missing: seq<string>) {
    && (forall c :: c in proven <==> CapabilityProven(w, c))
    && NoDuplicates(proven)
    && (forall line :: line in missing <==> line in ProofLines() && !LineProven(w, line))
    && IsSubsequence(missing, ProofLines())
  }

  lemma ExtrasKeepMissing(w: World, r: Report, extras: seq<(string, Capability)>)
    ensures AddExtras(w, r, extras).missing == r.missing
    decreases |extras|
  {
  }

  /**
    The survey reports a capability exactly when one of its required proofs holds or one of
    the five other lines that grant it is validated, each once, and misses exactly the lines
    of the required proofs that fail, in their order.
   */
  lemma SurveyReports(w: World, r: Report)
    ensures SurveyLists(w, Surveyed(w, r).proven, Surveyed(w, r).missing)
  {
    hide Required, Extras, CapabilityProven, LineProven, ProofLines, Grants, ExtraGrants, WalkProofs, AddExtras;
    hide FailedLines, IsSubsequence, FirstValue;
    var cleared := r.(bridgeMode := FirstValue(w.lines, "mode"), missing := [], proven := []);
    var walked := WalkProofs(w, cleared, Required(), false);
    WalkProves(w, cleared, Required(), false);
    ExtrasProve(w, walked, Extras());
    forall c ensures c in AddExtras(w, walked, Extras()).proven <==> CapabilityProven(w, c) {
      CapabilityIs(w, c);
    }
    WalkMisses(w, cleared, Required(), false);
    ExtrasKeepMissing(w, walked, Extras());
    forall line ensures line in FailedLines(w, Required()) <==> line in ProofLines() && !LineProven(w, line) {
      FailedRequired(w, line);
    }
    FailedInOrder(w, Required());
    RequiredLinesAre();
    assert [] + FailedLines(w, Required()) == FailedLines(w, Required());
  }

  // ---- errors ----

  function ErrorsOf(w: World, ps: seq<BehaviorProof>, reported: bool): seq<GateMessage>
    decreases |ps|
  {
    if ps == [] then []
    else ProofMessages(w, ps[0], reported) + ErrorsOf(w, ps[1..], reported || ReportsDetails(Judge(w, ps[0])))
  }

  lemma NoteErrs(w: World, r: Report, p: BehaviorProof, reported: bool)
    ensures NoteProof(w, r, p, reported).errors == r.errors + ProofMessages(w, p, reported)
  {
    hide AddCapability, StateDetails;
  }

  lemma {:induction false} WalkErrs(w: World, r: Report, ps: seq<BehaviorProof>, reported: bool)
    ensures WalkProofs(w, r, ps, reported).errors == r.errors + ErrorsOf(w, ps, reported)
    decreases |ps|
  {
    hide Judge, NoteProof, ProofMessages;
    if ps == [] {
    } else {
      NoteErrs(w, r, ps[0], reported);
      WalkErrs(w, NoteProof(w, r, ps[0], reported), ps[1..], reported || ReportsDetails(Judge(w, ps[0])));
    }
  }

  /** The texts of the resident-state details among the messages, in order. */
  function Details(ms: seq<GateMessage>): seq<string> {
    if ms == [] then []
    else (if ms[0].StateDetail? then [ms[0].text] else []) + Details(ms[1..])
  }

  lemma {:induction false} DetailsOfConcat(a: seq<GateMessage>, b: seq<GateMessage>)
    ensures Details(a + b) == Details(a) + Details(b)
    decreases |a|
  {
    if a == [] {
      assert a + b == b;
    } else {
      DetailsOfConcat(a[1..], b);
      assert (a + b)[1..] == a[1..] + b;
    }
  }

  lemma {:induction false} DetailsAreTexts(texts: seq<string>)
    ensures Details(StateDetails(texts)) == texts
    decreases |texts|
  {
    if texts == [] {
    } else {
      DetailsAreTexts(texts[1..]);
      assert StateDetails(texts)[1..] == StateDetails(texts[1..]);
    }
  }

  /** The message a verdict is reported with, apart from the details. */
  function Headline(v: Verdict, line: string): Option<GateMessage> {
    match v
    case BadGameState => Some(GameStateUnproven)
    case BadActiveMatch => Some(ActiveMatchUnproven)
    case NoSink => Some(SinkMissing)
    case Unvalidated => Some(NotValidated(line))
    case _ => None
  }

  lemma MessagesAre(w: World, p: BehaviorProof, reported: bool)
    ensures forall m: GateMessage :: !m.StateDetail? ==>
              (m in ProofMessages(w, p, reported) <==> Headline(Judge(w, p), p.line) == Some(m))
    ensures Details(ProofMessages(w, p, reported))
         == if ReportsDetails(Judge(w, p)) && !reported then w.state.details else []
  {
    DetailsAreTexts(w.state.details);
    hide Judge, StateDetails;
    var v, details := Judge(w, p), StateDetails(w.state.details);
    OneDetail(GameStateUnproven, details);
    OneDetail(ActiveMatchUnproven, details);
    assert [GameStateUnproven] + [] == [GameStateUnproven] && [ActiveMatchUnproven] + [] == [ActiveMatchUnproven];
    NoOtherDetails(w.state.details);
  }

  lemma OneDetail(head: GateMessage, details: seq<GateMessage>)
    requires !head.StateDetail?
    ensures Details([head] + details) == Details(details)
  {
    assert ([head] + details)[1..] == details;
  }

  lemma NoOtherDetails(texts: seq<string>)
    ensures forall m :: m in StateDetails(texts) ==> m.StateDetail?
  {
  }

  lemma {:induction false} ErrorsMean(w: World, ps: seq<BehaviorProof>, reported: bool, m: GateMessage)
    requires !m.StateDetail?
    ensures m in ErrorsOf(w, ps, reported)
            <==> exists i :: 0 <= i < |ps| && Headline(Judge(w, ps[i]), ps[i].line) == Some(m)
    decreases |ps|
  {
    hide Judge, ProofMessages, Headline;
    if ps == [] {
    } else {
      MessagesAre(w, ps[0], reported);
      ErrorsMean(w, ps[1..], reported || ReportsDetails(Judge(w, ps[0])), m);
      if i :| 0 <= i < |ps| && Headline(Judge(w, ps[i]), ps[i].line) == Some(m) {
        if i > 0 {
          assert ps[1..][i - 1] == ps[i];
        }
      }
      if i :| 0 <= i < |ps| - 1 && Headline(Judge(w, ps[1..][i]), ps[1..][i].line) == Some(m) {
        assert ps[i + 1] == ps[1..][i];
      }
    }
  }

  ghost predicate AnyDetails(w: World, ps: seq<BehaviorProof>) {
    exists i :: 0 <= i < |ps| && ReportsDetails(Judge(w, ps[i]))
  }

  lemma AnyDetailsStep(w: World, ps: seq<BehaviorProof>)
    requires ps != []
    ensures AnyDetails(w, ps) <==> ReportsDetails(Judge(w, ps[0])) || AnyDetails(w, ps[1..])
  {
    hide Judge;
    if i :| 0 <= i < |ps| && ReportsDetails(Judge(w, ps[i])) {
      if i > 0 {
        assert ps[1..][i - 1] == ps[i];
      }
    }
    if i :| 0 <= i < |ps| - 1 && ReportsDetails(Judge(w, ps[1..][i])) {
      assert ps[i + 1] == ps[1..][i];
    }
  }

  /** The details are reported once, by the first proof that fails for the resident state. */
  lemma {:induction false} DetailsOnce(w: World, ps: seq<BehaviorProof>, reported: bool)
    ensures Details(ErrorsOf(w, ps, reported)) == if AnyDetails(w, ps) && !reported then w.state.details else []
    decreases |ps|
  {
    hide Judge, ProofMessages, AnyDetails;
    if ps == [] {
      NoDetails(w);
    } else {
      var now := reported || ReportsDetails(Judge(w, ps[0]));
      MessagesAre(w, ps[0], reported);
      DetailsOnce(w, ps[1..], now);
      DetailsOfConcat(ProofMessages(w, ps[0], reported), ErrorsOf(w, ps[1..], now));
      AnyDetailsStep(w, ps);
    }
  }

  lemma NoDetails(w: World)
    ensures !AnyDetails(w, [])
  {
  }

  /** What a survey adds to the errors. */
  ghost predicate SurveyErrors(w: World, added: seq<GateMessage>) {
    && (forall line :: NotValidated(line) in added <==>
          line in ProofLines() && line in w.lines && ConditionMet(w, line) && !Validated(w, line))
    && (GameStateUnproven in added <==> GAME_STATE in w.lines && !w.state.gameStateValid)
    && (ActiveMatchUnproven in added <==> ACTIVE_MATCH in w.lines && !w.state.activeMatchValid)
    && (SinkMissing in added <==> ISSUE_COMMANDS in w.lines && !ConditionMet(w, ISSUE_COMMANDS))
    && Details(added) == (if StateFails(w) then w.state.details else [])
    && forall m :: m in added ==>
         m.NotValidated? || m.GameStateUnproven? || m.ActiveMatchUnproven? || m.SinkMissing? || m.StateDetail?
  }

  /** A proof of the resident state stands in the file although the state does not bear it out. */
  predicate StateFails(w: World) {
    || (GAME_STATE in w.lines && !w.state.gameStateValid)
    || (ACTIVE_MATCH in w.lines && !w.state.activeMatchValid)
  }

  /** The headline message that a required proof line gives rise to. */
  predicate HeadlineIs(w: World, line: string, m: GateMessage) {
    && line in w.lines
    && if ConditionMet(w, line) then !Validated(w, line) && m == NotValidated(line)
       else m == (if line == GAME_STATE then GameStateUnproven
                  else if line == ACTIVE_MATCH then ActiveMatchUnproven
                  else SinkMissing)
  }

  lemma HeadlineAt(w: World, i: nat, m: GateMessage)
    requires i < 12
    ensures Headline(Judge(w, Required()[i]), Required()[i].line) == Some(m) <==> HeadlineIs(w, ProofLines()[i], m)
  {
    hide Judge, Required, ProofLines, ConditionMet, Validated;
    LineOfProof(i);
    JudgeMeans(w, i);
  }

  lemma RequiredErrors(w: World, m: GateMessage)
    requires !m.StateDetail?
    ensures m in ErrorsOf(w, Required(), false) <==>
              exists i :: 0 <= i < 12 && HeadlineIs(w, ProofLines()[i], m)
  {
    hide Judge, Required, ProofLines, ConditionMet, Validated, ErrorsOf, Headline;
    ErrorsMean(w, Required(), false, m);
    forall i | 0 <= i < 12
      ensures HeadlineIs(w, ProofLines()[i], m) <==> Headline(Judge(w, Required()[i]), Required()[i].line) == Some(m)
    {
      HeadlineAt(w, i, m);
    }
  }

  lemma StateFailsMeans(w: World)
    ensures AnyDetails(w, Required()) <==> StateFails(w)
  {
    hide Judge, Required, ProofLines, ActiveSink, DirectSink;
    forall i | 0 <= i < 12
      ensures ReportsDetails(Judge(w, Required()[i])) <==>
                (i == 1 && GAME_STATE in w.lines && !w.state.gameStateValid)
                || (i == 2 && ACTIVE_MATCH in w.lines && !w.state.activeMatchValid)
    {
      JudgeMeans(w, i);
      StateLines(i);
    }
    hide ReportsDetails;
    if GAME_STATE in w.lines && !w.state.gameStateValid {
      assert ReportsDetails(Judge(w, Required()[1]));
    }
    if ACTIVE_MATCH in w.lines && !w.state.activeMatchValid {
      assert ReportsDetails(Judge(w, Required()[2]));
    }
  }

  lemma ErrorsFromLines(w: World)
    ensures SurveyErrors(w, ErrorsOf(w, Required(), false))
  {
    hide Judge, Required, ProofLines, Validated, ErrorsOf, ActiveSink, DirectSink, StateFails;
    var added := ErrorsOf(w, Required(), false);
    ConditionedLines();
    forall m: GateMessage | !m.StateDetail?
      ensures m in added <==> exists i :: 0 <= i < 12 && HeadlineIs(w, ProofLines()[i], m)
    {
      RequiredErrors(w, m);
    }
    hide HeadlineIs;
    forall line ensures NotValidated(line) in added <==>
                          line in ProofLines() && line in w.lines && ConditionMet(w, line) && !Validated(w, line)
    {
      UnvalidatedAt(w, line);
    }
    StateHeadlines(w);
    DetailsOnce(w, Required(), false);
    StateFailsMeans(w);
    forall m | m in added && !m.StateDetail?
      ensures m.NotValidated? || m.GameStateUnproven? || m.ActiveMatchUnproven? || m.SinkMissing?
    {
      var i :| 0 <= i < 12 && HeadlineIs(w, ProofLines()[i], m);
      HeadlineKinds(w, ProofLines()[i], m);
    }
  }

  lemma ConditionedLines()
    ensures GAME_STATE != ACTIVE_MATCH && GAME_STATE != ISSUE_COMMANDS && ACTIVE_MATCH != ISSUE_COMMANDS
  {
  }

  lemma HeadlineKinds(w: World, line: string, m: GateMessage)
    requires HeadlineIs(w, line, m)
    ensures m.NotValidated? || m.GameStateUnproven? || m.ActiveMatchUnproven? || m.SinkMissing?
  {
    hide ConditionMet;
  }

  lemma UnvalidatedAt(w: World, line: string)
    ensures (exists i :: 0 <= i < 12 && HeadlineIs(w, ProofLines()[i], NotValidated(line)))
       <==> line in ProofLines() && line in w.lines && ConditionMet(w, line) && !Validated(w, line)
  {
    hide ProofLines, ConditionMet, Validated;
  }

  lemma StateHeadlines(w: World)
    ensures (exists i :: 0 <= i < 12 && HeadlineIs(w, ProofLines()[i], GameStateUnproven))
       <==> GAME_STATE in w.lines && !w.state.gameStateValid
    ensures (exists i :: 0 <= i < 12 && HeadlineIs(w, ProofLines()[i], ActiveMatchUnproven))
       <==> ACTIVE_MATCH in w.lines && !w.state.activeMatchValid
    ensures (exists i :: 0 <= i < 12 && HeadlineIs(w, ProofLines()[i], SinkMissing))
       <==> ISSUE_COMMANDS in w.lines && !ConditionMet(w, ISSUE_COMMANDS)
  {
    hide ProofLines, ActiveSink, DirectSink, Validated;
    ConditionedLines();
    forall i | 0 <= i < 12
      ensures HeadlineIs(w, ProofLines()[i], GameStateUnproven) <==>
                i == 1 && GAME_STATE in w.lines && !w.state.gameStateValid
      ensures HeadlineIs(w, ProofLines()[i], ActiveMatchUnproven) <==>
                i == 2 && ACTIVE_MATCH in w.lines && !w.state.activeMatchValid
      ensures HeadlineIs(w, ProofLines()[i], SinkMissing) <==>
                i == 5 && ISSUE_COMMANDS in w.lines && !ConditionMet(w, ISSUE_COMMANDS)
    {
      StateLines(i);
    }
    hide HeadlineIs;
    OnlyAt(i => 0 <= i < 12 && HeadlineIs(w, ProofLines()[i], GameStateUnproven), 1);
    OnlyAt(i => 0 <= i < 12 && HeadlineIs(w, ProofLines()[i], ActiveMatchUnproven), 2);
    OnlyAt(i => 0 <= i < 12 && HeadlineIs(w, ProofLines()[i], SinkMissing), 5);
  }

  lemma OnlyAt(p: int -> bool, k: int)
    requires forall i :: p(i) ==> i == k
    ensures (exists i :: p(i)) <==> p(k)
  {
  }

  lemma ExtrasKeepErrors(w: World, r: Report, extras: seq<(string, Capability)>)
    ensures AddExtras(w, r, extras).errors == r.errors
    decreases |extras|
  {
  }

  /** The survey adds to the errors what its failing proofs call for, and the resident details once. */
  lemma SurveyAddsErrors(w: World, r: Report)
    ensures r.errors <= Surveyed(w, r).errors
    ensures SurveyErrors(w, Surveyed(w, r).errors[|r.errors|..])
  {
    hide Required, Extras, WalkProofs, AddExtras, FirstValue, ErrorsOf, SurveyErrors;
    var cleared := r.(bridgeMode := FirstValue(w.lines, "mode"), missing := [], proven := []);
    WalkErrs(w, cleared, Required(), false);
    ExtrasKeepErrors(w, WalkProofs(w, cleared, Required(), false), Extras());
    ErrorsFromLines(w);
    assert (r.errors + ErrorsOf(w, Required(), false))[|r.errors|..] == ErrorsOf(w, Required(), false);
  }
}
