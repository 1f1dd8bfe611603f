/**
  The command surface: the names of the unit commands and game actions, and the evidence
  that comes built in with them.
 */
module CommandSurface {
  datatype EvidenceStatus = Unknown | LiveProven | MockTested | DocumentedScenario | FailClosed | AdapterLocal

  datatype CommandEvidence = CommandEvidence(name: string, status: EvidenceStatus, detail: string)

  function UnitCommands(): (names: seq<string>)
    ensures |names| == 44
  {
    OrderCommands() + StandingCommands() + AbilityCommands() + TargetedCommands()
  }

  function OrderCommands(): (names: seq<string>)
    ensures |names| == 11
  {
    ["Attack_Move", "Attack_Unit", "Build", "Build_Addon", "Train", "Morph", "Research", "Upgrade",
     "Set_Rally_Position", "Set_Rally_Unit", "Move"]
  }

  function StandingCommands(): (names: seq<string>)
    ensures |names| == 11
  {
    ["Patrol", "Hold_Position", "Stop", "Follow", "Gather", "Return_Cargo", "Repair", "Burrow",
     "Unburrow", "Cloak", "Decloak"]
  }

  function AbilityCommands(): (names: seq<string>)
    ensures |names| == 11
  {
    ["Siege", "Unsiege", "Lift", "Land", "Load", "Unload", "Unload_All", "Unload_All_Position",
     "Right_Click_Position", "Right_Click_Unit", "Halt_Construction"]
  }

  function TargetedCommands(): (names: seq<string>)
    ensures |names| == 11
  {
    ["Cancel_Construction", "Cancel_Addon", "Cancel_Train", "Cancel_Train_Slot", "Cancel_Morph",
     "Cancel_Research", "Cancel_Upgrade", "Use_Tech", "Use_Tech_Position", "Use_Tech_Unit", "Place_COP"]
  }

  function GameActions(): (names: seq<string>)
    ensures |names| == 28
  {
    SessionActions() + DrawingActions() + OptionActions()
  }

  function SessionActions(): (names: seq<string>)
    ensures |names| == 10
  {
    ["setScreenPosition", "pingMinimap", "enableFlag", "setLastError", "vPrintf", "vSendTextEx",
     "pauseGame", "resumeGame", "leaveGame", "restartGame"]
  }

  function DrawingActions(): (names: seq<string>)
    ensures |names| == 10
  {
    ["setLocalSpeed", "issueCommand", "setTextSize", "vDrawText", "drawBox", "drawTriangle",
     "drawCircle", "drawEllipse", "drawDot", "drawLine"]
  }

  function OptionActions(): (names: seq<string>)
    ensures |names| == 8
  {
    ["setLatCom", "setGUI", "setMap", "setFrameSkip", "setAlliance", "setVision",
     "setCommandOptimizationLevel", "setRevealAll"]
  }

  function AdapterLocalActions(): seq<string> {
    LocalSessionActions() + DrawingActions() + LocalOptionActions()
  }

  function LocalSessionActions(): (names: seq<string>)
    ensures |names| == 6
  {
    ["setScreenPosition", "enableFlag", "setLastError", "vPrintf", "vSendTextEx", "leaveGame"]
  }

  function LocalOptionActions(): (names: seq<string>)
    ensures |names| == 6
  {
    ["setLatCom", "setGUI", "setMap", "setFrameSkip", "setCommandOptimizationLevel", "setRevealAll"]
  }

  function ActionStatus(name: string): EvidenceStatus {
    if name in AdapterLocalActions() then AdapterLocal else MockTested
  }

  const ENCODER_TEST := "runtime-command-encoder-test"
  const LOCAL_FACADE := "adapter-local-runtime-facade"

  /** commandEvidenceStatusFor: the first entry of this name decides. */
  function StatusFor(entries: seq<CommandEvidence>, name: string): EvidenceStatus {
    if entries == [] then Unknown
    else if entries[0].name == name then entries[0].status
    else StatusFor(entries[1..], name)
  }

  function Names(entries: seq<CommandEvidence>): (names: seq<string>)
    ensures |names| == |entries|
  {
    seq(|entries|, i requires 0 <= i < |entries| => entries[i].name)
  }

  ghost predicate NoneLive(entries: seq<CommandEvidence>) {
    forall e :: e in entries ==> !e.status.LiveProven?
  }

  function UnitEvidenceOf(commands: seq<string>): (r: seq<CommandEvidence>)
    ensures |r| == |commands|
  {
    seq(|commands|, i requires 0 <= i < |commands| => CommandEvidence(commands[i], MockTested, ENCODER_TEST))
  }

  function ActionEvidence(name: string): CommandEvidence {
    CommandEvidence(name, ActionStatus(name), if ActionStatus(name) == AdapterLocal then LOCAL_FACADE else ENCODER_TEST)
  }

  function ActionEvidenceOf(actions: seq<string>): (r: seq<CommandEvidence>)
    ensures |r| == |actions|
  {
    seq(|actions|, i requires 0 <= i < |actions| => ActionEvidence(actions[i]))
  }

  /** The evidence loops of makeBWAPICommandSurface. */
  method MakeEvidence(commands: seq<string>, actions: seq<string>)
    returns (unitEvidence: seq<CommandEvidence>, actionEvidence: seq<CommandEvidence>)
    ensures unitEvidence == UnitEvidenceOf(commands) && actionEvidence == ActionEvidenceOf(actions)
  {
    unitEvidence := MakeUnitEvidence(commands);
    actionEvidence := MakeActionEvidence(actions);
  }

  method MakeUnitEvidence(commands: seq<string>) returns (unitEvidence: seq<CommandEvidence>)
    ensures unitEvidence == UnitEvidenceOf(commands)
  {
    unitEvidence := [];
    for i := 0 to |commands|
      invariant unitEvidence == UnitEvidenceOf(commands[..i])
    {
      unitEvidence := unitEvidence + [CommandEvidence(commands[i], MockTested, ENCODER_TEST)];
    }
    assert commands[..|commands|] == commands;
  }

  lemma NoActionEvidence(actions: seq<string>)
    ensures ActionEvidenceOf(actions[..0]) == []
  {
  }

  lemma ActionEvidenceAppend(actions: seq<string>, i: nat)
    requires i < |actions|
    ensures ActionEvidenceOf(actions[..i + 1]) == ActionEvidenceOf(actions[..i]) + [ActionEvidence(actions[i])]
  {
    hide ActionEvidence;
  }

  method MakeActionEvidence(actions: seq<string>) returns (actionEvidence: seq<CommandEvidence>)
    ensures actionEvidence == ActionEvidenceOf(actions)
  {
    hide ActionStatus, ActionEvidenceOf;
    actionEvidence := [];
    NoActionEvidence(actions);
    for i := 0 to |actions|
      invariant actionEvidence == ActionEvidenceOf(actions[..i])
    {
      var status := ActionStatus(actions[i]);
      var detail := if status == AdapterLocal then LOCAL_FACADE else ENCODER_TEST;
      ActionEvidenceAppend(actions, i);
      actionEvidence := actionEvidence + [CommandEvidence(actions[i], status, detail)];
    }
    assert actions[..|actions|] == actions;
  }

  /** Built-in evidence names every entry, in order, and proves none of them live. */
  lemma BuiltInIsNeverLive(commands: seq<string>, actions: seq<string>)
    ensures Names(UnitEvidenceOf(commands)) == commands && NoneLive(UnitEvidenceOf(commands))
    ensures Names(ActionEvidenceOf(actions)) == actions && NoneLive(ActionEvidenceOf(actions))
  {
    hide AdapterLocalActions;
  }

  /** A status other than unknown comes from an entry of that name. */
  lemma {:induction false} StatusHasEntry(entries: seq<CommandEvidence>, name: string)
    ensures StatusFor(entries, name) != Unknown ==>
              exists e :: e in entries && e.name == name && e.status == StatusFor(entries, name)
    ensures name !in Names(entries) ==> StatusFor(entries, name) == Unknown
  {
    if entries == [] {
    } else {
      if entries[0].name == name {
        assert Names(entries)[0] == name;
      } else {
        StatusHasEntry(entries[1..], name);
        assert Names(entries) == [entries[0].name] + Names(entries[1..]);
      }
    }
  }
}
