/**
  The encoder's dispatch tables and the command surface name the same commands: every unit
  command has an encoding, and a game action has one exactly when its built-in evidence is
  the encoder test rather than the adapter's own facade.
 */
module EncoderSurface {
  import opened CommandForms
  import opened CommandSurface

  // ---- unit commands ----

  predicate IsOrder(name: string) {
    || name == "Attack_Move" || name == "Attack_Unit" || name == "Build" || name == "Build_Addon"
    || name == "Train" || name == "Morph" || name == "Research" || name == "Upgrade"
    || name == "Set_Rally_Position" || name == "Set_Rally_Unit" || name == "Move"
  }

  lemma OrderNames(name: string)
    ensures IsOrder(name) <==> name in OrderCommands()
  {
  }

  predicate IsStanding(name: string) {
    || name == "Patrol" || name == "Hold_Position" || name == "Stop" || name == "Follow"
    || name == "Gather" || name == "Return_Cargo" || name == "Repair" || name == "Burrow"
    || name == "Unburrow" || name == "Cloak" || name == "Decloak"
  }

  lemma StandingNames(name: string)
    ensures IsStanding(name) <==> name in StandingCommands()
  {
  }

  predicate IsAbility(name: string) {
    || name == "Siege" || name == "Unsiege" || name == "Lift" || name == "Land" || name == "Load"
    || name == "Unload" || name == "Unload_All" || name == "Unload_All_Position"
    || name == "Right_Click_Position" || name == "Right_Click_Unit" || name == "Halt_Construction"
  }

  lemma AbilityNames(name: string)
    ensures IsAbility(name) <==> name in AbilityCommands()
  {
  }

  predicate IsTargeted(name: string) {
    || name == "Cancel_Construction" || name == "Cancel_Addon" || name == "Cancel_Train"
    || name == "Cancel_Train_Slot" || name == "Cancel_Morph" || name == "Cancel_Research"
    || name == "Cancel_Upgrade" || name == "Use_Tech" || name == "Use_Tech_Position"
    || name == "Use_Tech_Unit" || name == "Place_COP"
  }

  lemma TargetedNames(name: string)
    ensures IsTargeted(name) <==> name in TargetedCommands()
  {
  }

  lemma FormMeansNamed(name: string)
    requires UnitForm(name).Some?
    ensures IsOrder(name) || IsStanding(name) || IsAbility(name) || IsTargeted(name)
  {
  }

  lemma FormlessIsOther(name: string)
    requires UnitForm(name).None?
    ensures UnitFormRest(name).None?
    ensures
      && name != "Move" && name != "Attack_Move" && name != "Patrol"
      && name != "Set_Rally_Position" && name != "Unload_All_Position" && name != "Attack_Unit"
      && name != "Follow" && name != "Gather" && name != "Repair" && name != "Set_Rally_Unit"
      && name != "Right_Click_Position" && name != "Right_Click_Unit" && name != "Stop"
      && name != "Halt_Construction" && name != "Hold_Position" && name != "Return_Cargo"
      && name != "Burrow" && name != "Unburrow" && name != "Cloak" && name != "Decloak"
      && name != "Siege" && name != "Unsiege"
  {
    hide UnitFormRest;
  }

  lemma RestlessIsOther(name: string)
    requires UnitFormRest(name).None?
    ensures
      && name != "Lift" && name != "Cancel_Construction" && name != "Cancel_Addon"
      && name != "Cancel_Research" && name != "Cancel_Upgrade" && name != "Cancel_Train"
      && name != "Cancel_Train_Slot" && name != "Train" && name != "Morph" && name != "Research"
      && name != "Upgrade" && name != "Build" && name != "Build_Addon" && name != "Land"
      && name != "Place_COP" && name != "Load" && name != "Unload_All" && name != "Cancel_Morph"
      && name != "Use_Tech" && name != "Use_Tech_Position" && name != "Use_Tech_Unit"
      && name != "Unload"
  {
  }

  lemma FormlessIsUnnamed(name: string)
    requires UnitForm(name).None?
    ensures !IsOrder(name) && !IsStanding(name) && !IsAbility(name) && !IsTargeted(name)
  {
    FormlessIsOther(name);
    RestlessIsOther(name);
    hide UnitForm, UnitFormRest;
  }

  /** A name has an encoding form exactly when the surface lists it as a unit command. */
  lemma UnitFormsAreTheSurface(name: string)
    ensures UnitForm(name).Some? <==> name in UnitCommands()
  {
    hide UnitForm, IsOrder, IsStanding, IsAbility, IsTargeted;
    hide OrderCommands, StandingCommands, AbilityCommands, TargetedCommands;
    OrderNames(name);
    StandingNames(name);
    AbilityNames(name);
    TargetedNames(name);
    if UnitForm(name).Some? {
      FormMeansNamed(name);
    } else {
      FormlessIsUnnamed(name);
    }
  }

  // ---- game actions ----

  /** The actions the encoder test covers. */
  predicate EncoderTested(name: string) {
    || name == "pauseGame" || name == "resumeGame" || name == "restartGame"
    || name == "pingMinimap" || name == "setAlliance" || name == "setVision"
  }

  lemma TestedHasForm(name: string)
    ensures EncoderTested(name) <==> ActionForm(name).Some?
  {
  }

  lemma TestedIsNotLocalSession(name: string)
    requires EncoderTested(name)
    ensures name !in LocalSessionActions()
  {
  }

  lemma TestedIsNotDrawing(name: string)
    requires EncoderTested(name)
    ensures name !in DrawingActions()
  {
  }

  lemma TestedIsNotLocalOption(name: string)
    requires EncoderTested(name)
    ensures name !in LocalOptionActions()
  {
  }

  lemma SessionIsLocalOrTested(name: string)
    ensures name in SessionActions() <== EncoderTested(name) && name !in OptionActions()
    ensures name in SessionActions() && !EncoderTested(name) ==> name in LocalSessionActions()
  {
  }

  lemma OptionIsLocalOrTested(name: string)
    ensures name in OptionActions() && !EncoderTested(name) ==> name in LocalOptionActions()
  {
  }

  /** A game action has a form exactly when it is on the surface with encoder-test evidence. */
  lemma ActionFormsAreTested(name: string)
    ensures ActionForm(name).Some? <==> name in GameActions() && ActionStatus(name) == MockTested
  {
    TestedHasForm(name);
    SessionIsLocalOrTested(name);
    OptionIsLocalOrTested(name);
    hide EncoderTested, ActionForm, SessionActions, DrawingActions, OptionActions;
    hide LocalSessionActions, LocalOptionActions;
    if EncoderTested(name) {
      TestedIsNotLocalSession(name);
      TestedIsNotDrawing(name);
      TestedIsNotLocalOption(name);
    }
  }
}
