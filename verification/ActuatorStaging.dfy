/** Staging by packet: which edits are accepted, what they make of the configuration, and how it becomes active. */
module ActuatorStaging {
  import opened Bytes
  import opened Config
  import opened StagingPaths
  import opened Protocol
  import opened ActuatorTypes
  import opened ActuatorSteps
  import opened ActuatorInvariant
  import opened ActuatorSafety
  import opened ActuatorAnswers
  import opened ActuatorRefusals
  import opened ActuatorEffects
  import opened ActuatorWatchdog
  import opened ActuatorTrace
  import opened ActuatorRuns

  // ----- One request -----

  /** The edit that a payload of the right length asks for, if it names a field. */
  function EditOf(payload: seq<byte>): Option<Edit> {
    if |payload| != 6 then None
    else match FieldOf(U16At(payload, 0)) case None => None case Some(f) => Some(Edit(f, I32At(payload, 2)))
  }

  predicate AcceptsEdit(config: ActuatorConfig, edit: Option<Edit>) {
    edit.Some? && Acceptable(config, edit.value.field, edit.value.value)
  }

  /** The configuration differs in the edited field alone, and there it has the value of the edit. */
  ghost predicate EditedOnce(before: ActuatorConfig, after: ActuatorConfig, edit: Edit) {
    && Unstageable(after) == Unstageable(before)
    && (forall g :: g != edit.field ==> FieldValue(after, g) == FieldValue(before, g))
    && FieldValue(after, edit.field)
       == if IsFlag(edit.field) then (if edit.value != 0 then 1 else 0) else edit.value
  }

  /** That leaves no choice: fields that read the same, and all that is not a field, make up the configuration. */
  lemma EditDecidesConfig(before: ActuatorConfig, a: ActuatorConfig, b: ActuatorConfig, edit: Edit)
    requires EditedOnce(before, a, edit) && EditedOnce(before, b, edit)
    ensures a == b
  {
    forall f ensures FieldValue(a, f) == FieldValue(b, f) {}
    hide EditedOnce;
    FieldsDecideConfig(a, b);
  }

  lemma FieldsDecideConfig(a: ActuatorConfig, b: ActuatorConfig)
    requires Unstageable(a) == Unstageable(b) && forall f :: FieldValue(a, f) == FieldValue(b, f)
    ensures a == b
  {
    forall f ensures FieldValue(a, f) == FieldValue(b, f) {}
    assert a.driver == b.driver by {
      assert FieldValue(a, RunCurrentMa) == FieldValue(b, RunCurrentMa);
      assert FieldValue(a, HoldCurrentMa) == FieldValue(b, HoldCurrentMa);
      assert FieldValue(a, Microsteps) == FieldValue(b, Microsteps);
      assert FieldValue(a, DriverMode) == FieldValue(b, DriverMode);
    }
    assert a.motion == b.motion by {
      assert FieldValue(a, SoftLimitsEnabled) == FieldValue(b, SoftLimitsEnabled);
      assert FieldValue(a, SoftLimitMin) == FieldValue(b, SoftLimitMin);
      assert FieldValue(a, SoftLimitMax) == FieldValue(b, SoftLimitMax);
      assert FieldValue(a, MaxVelocity) == FieldValue(b, MaxVelocity);
      assert FieldValue(a, MaxAccel) == FieldValue(b, MaxAccel);
      assert FieldValue(a, StopDecel) == FieldValue(b, StopDecel);
    }
    assert a.telemetry == b.telemetry by {
      assert FieldValue(a, TelemetryIntervalMs) == FieldValue(b, TelemetryIntervalMs);
    }
    assert a.calibration == b.calibration by {
      assert FieldValue(a, DirectionInverted) == FieldValue(b, DirectionInverted);
    }
    assert a.safety == b.safety by {
      assert FieldValue(a, HostTimeoutMs) == FieldValue(b, HostTimeoutMs);
      assert FieldValue(a, VelocityTimeoutAction) == FieldValue(b, VelocityTimeoutAction);
      assert FieldValue(a, MaxAllowedCurrentMa) == FieldValue(b, MaxAllowedCurrentMa);
      assert FieldValue(a, MaxAllowedVelocity) == FieldValue(b, MaxAllowedVelocity);
      assert FieldValue(a, MaxAllowedAccel) == FieldValue(b, MaxAllowedAccel);
    }
  }

  /**
    A stage request is acknowledged exactly for an edit that what is staged accepts. What is staged is then edited in
    that field alone, and no request to stage changes the active configuration, or calls the backend.
   */
  lemma StageEffect(c: Core, env: Env, r: Packet)
    requires Invariant(c) && !IsRepeat(c, r) && r.msgId == CONFIG_STAGE_FIELD
    ensures
      var w, edit := HandlePacket(c, env, r), EditOf(r.payload);
      var settings := w.core.settings;
      && (Ends(w, r.number, Ack(r.msgId)) <==> AcceptsEdit(c.settings.staged, edit))
      && w.calls == [] && w.core.faults == c.faults
      && (if AcceptsEdit(c.settings.staged, edit) then
            && EditedOnce(c.settings.staged, settings.staged, edit.value)
            && settings == c.settings.(staged := settings.staged, isStaged := true)
            && w.core.drive == if c.drive.InMotion() then c.drive else c.drive.(state := ConfigStaged)
          else settings == c.settings && w.core.drive == c.drive)
  {
    HandledAs(c, env, r);
    StageDispatch(Start(Seen(c, env)), env, r);
    hide HandlePacket, Dispatch, Invariant, Stage, EditedOnce, AcceptsEdit, EditOf;
    SoundSeen(c, env);
    StageDoes(Start(Seen(c, env)), env, r);
  }

  lemma SoundSeen(c: Core, env: Env)
    requires Invariant(c)
    ensures Sound(Seen(c, env))
  {
    hide ConfigsValid, StateAgrees;
  }

  lemma StageDispatch(w: Work, env: Env, r: Packet)
    requires r.msgId == CONFIG_STAGE_FIELD
    ensures Dispatch(w, env, r) == Stage(w, env, r)
  {
    hide Stage, RejectVia;
  }

  lemma StageDoes(w: Work, env: Env, r: Packet)
    requires Sound(w.core)
    ensures
      var w', edit := Stage(w, env, r), EditOf(r.payload);
      var c, settings := w.core, w'.core.settings;
      && (Ends(w', r.number, Ack(r.msgId)) <==> AcceptsEdit(c.settings.staged, edit))
      && w'.calls == w.calls && w'.core.faults == c.faults
      && (if AcceptsEdit(c.settings.staged, edit) then
            && EditedOnce(c.settings.staged, settings.staged, edit.value)
            && settings == c.settings.(staged := settings.staged, isStaged := true)
            && w'.core.drive == if c.drive.InMotion() then c.drive else c.drive.(state := ConfigStaged)
          else settings == c.settings && w'.core.drive == c.drive)
  {
    StageRequestDoes(w.core, r);
    hide Sound, StageRequest, EditedOnce, AcceptsEdit, EditOf, Send, Notify, TransitionTo, RejectVia, Acknowledge,
         Reject;
  }

  lemma StageRequestDoes(c: Core, r: Packet)
    requires Sound(c)
    ensures
      var edit := EditOf(r.payload);
      match StageRequest(c, r)
      case StageRefused(_) => !AcceptsEdit(c.settings.staged, edit)
      case StageAccepted(d) => AcceptsEdit(c.settings.staged, edit) && EditedOnce(c.settings.staged, d, edit.value)
  {
    var edit := EditOf(r.payload);
    if edit.Some? {
      StagingBounds(c.settings.staged, edit.value.field, edit.value.value);
      if StageField(c.settings.staged, edit.value.field, edit.value.value).Staged? {
        StagingIsLocal(c.settings.staged, edit.value.field, edit.value.value);
      }
    }
    hide IsValid, Validate, StageField, I32At, U16At, Acceptable, FieldValue, Unstageable;
  }

  // ----- Runs -----

  /** The configuration after a list of edits, of which those that are not accepted are passed over. */
  function Edited(config: ActuatorConfig, edits: seq<Edit>): ActuatorConfig
    decreases |edits|
  {
    if edits == [] then config
    else
      var before, last := Edited(config, edits[..|edits| - 1]), edits[|edits| - 1];
      match StageField(before, last.field, last.value)
      case Staged(after) => after
      case Refused(_) => before
  }

  predicate IsEdit(c: Core, a: Action) {
    && a.Handle? && a.request.msgId == CONFIG_STAGE_FIELD
    && !IsRepeat(c, a.request) && EditOf(a.request.payload).Some?
  }

  /** The edits that a run asks for, each packet counted once however often it is repeated. */
  function Edits(c: Core, inputs: seq<Input>): seq<Edit>
    decreases |inputs|
  {
    if inputs == [] then []
    else
      var init, last := inputs[..|inputs| - 1], inputs[|inputs| - 1];
      Edits(c, init) +
      if IsEdit(Run(c, init), last.action) then [EditOf(last.action.request.payload).value] else []
  }

  /** The steps besides staging that may change a configuration. */
  predicate Reconfigures(a: Action) {
    a.Restart? || (a.Handle? && a.request.msgId in {CONFIG_APPLY, CONFIG_RESET_DEFAULTS, SET_TELEM_RATE})
  }

  predicate OnlyStages(inputs: seq<Input>) { forall input :: input in inputs ==> !Reconfigures(input.action) }

  predicate KeepsConfigs(s: Settings, s': Settings) { s' == s.(generation := s'.generation) }

  lemma OnlyStagesParts(inputs: seq<Input>)
    requires OnlyStages(inputs) && inputs != []
    ensures OnlyStages(inputs[..|inputs| - 1]) && !Reconfigures(inputs[|inputs| - 1].action)
  {
    assert inputs[|inputs| - 1] in inputs;
  }

  ghost predicate Keeps(w: Work, w': Work) { KeepsConfigs(w.core.settings, w'.core.settings) }

  lemma MoveKeepsConfigs(w: Work, env: Env, r: Packet)
    ensures Keeps(w, MoveAbs(w, env, r)) && Keeps(w, MoveRel(w, env, r))
  {
    hide TransitionTo, SetFault, Acknowledge, Reject, MotionRefusal, WithinLimits, SoftLimitViolation, ToBackend,
         U32At, I32At;
  }

  lemma RunVelKeepsConfigs(w: Work, env: Env, r: Packet)
    ensures Keeps(w, RunVel(w, env, r))
  {
    hide TransitionTo, SetFault, Acknowledge, Reject, MotionRefusal, WithinLimits, ToBackend, U32At, I32At;
  }

  lemma ControlKeepsConfigs(w: Work, env: Env, r: Packet)
    ensures Keeps(w, SetControlMode(w, env, r)) && Keeps(w, RebootNow(w, env, r))
  {
    hide TransitionTo, SetFault, Acknowledge, Reject;
  }

  lemma StopKeepsConfigs(w: Work, env: Env, r: Packet)
    ensures Keeps(w, EmergencyStopNow(w, env, r)) && Keeps(w, RampStopNow(w, env, r))
        && Keeps(w, ClearFaults(w, env, r))
  {
    hide Notify, TransitionTo, SetFault, Acknowledge, Reject, U32At;
  }

  lemma QueryKeepsConfigs(w: Work, env: Env, r: Packet)
    ensures Keeps(w, Inquire(w, env, r)) && Keeps(w, ReportField(w, env, r)) && Keeps(w, SaveActive(w, env, r))
  {
    hide Send, Notify, TransitionTo, SetFault, Acknowledge, Reject, Report, U16At;
  }

  lemma DispatchKeepsConfigs(w: Work, env: Env, r: Packet)
    requires r.msgId !in {CONFIG_STAGE_FIELD, CONFIG_APPLY, CONFIG_RESET_DEFAULTS, SET_TELEM_RATE}
    ensures Keeps(w, Dispatch(w, env, r))
  {
    MoveKeepsConfigs(w, env, r);
    RunVelKeepsConfigs(w, env, r);
    ControlKeepsConfigs(w, env, r);
    StopKeepsConfigs(w, env, r);
    QueryKeepsConfigs(w, env, r);
    hide SetFault, Reject, RejectVia, Inquire, SetControlMode, EmergencyStopNow, RampStopNow, ClearFaults, ReportField,
         Stage, ApplyStaged, SaveActive, ResetDefaults, RebootNow, MoveAbs, MoveRel, RunVel, SetTelemetryRate;
  }

  /** No step but those and a stage request changes a configuration, or whether one is staged. */
  lemma OtherStepsKeepConfigs(c: Core, env: Env, a: Action)
    requires !Reconfigures(a) && (a.Handle? && a.request.msgId == CONFIG_STAGE_FIELD ==> IsRepeat(c, a.request))
    ensures KeepsConfigs(c.settings, Step(c, env, a).core.settings)
  {
    match a
    case Handle(r) =>
      if !IsRepeat(c, r) {
        HandledAs(c, env, r);
        DispatchKeepsConfigs(Start(Seen(c, env)), env, r);
        hide HandlePacket, Dispatch;
      } else {
        hide SendAll, RejectVia, Dispatch;
      }
    case Tick(writer) =>
      UpdateStops(c, env, if writer then Direct else NoWriter);
      hide Update;
    case FrameFailed(_) => hide SetFault;
    case Telemetry(_) => hide Send, Report;
    case Restart =>
  }

  lemma StepEdits(c: Core, env: Env, a: Action)
    requires Invariant(c) && !Reconfigures(a)
    ensures
      var before, after := c.settings, Step(c, env, a).core.settings;
      && after.active == before.active && after.defaults == before.defaults
      && after.staged ==
         if IsEdit(c, a) then Edited(before.staged, [EditOf(a.request.payload).value]) else before.staged
  {
    if a.Handle? && a.request.msgId == CONFIG_STAGE_FIELD && !IsRepeat(c, a.request) {
      StageEffect(c, env, a.request);
      hide HandlePacket, Invariant, EditedOnce, AcceptsEdit, EditOf;
      if IsEdit(c, a) {
        var edit := EditOf(a.request.payload).value;
        OneEdited(c, edit);
        if AcceptsEdit(c.settings.staged, Some(edit)) {
          EditDecidesConfig(c.settings.staged, HandlePacket(c, env, a.request).core.settings.staged,
                            Edited(c.settings.staged, [edit]), edit);
        }
      } else {
        NoEdit(c, a.request.payload);
      }
    } else {
      OtherStepsKeepConfigs(c, env, a);
      hide Step, Invariant;
    }
  }

  lemma NoEdit(c: Core, payload: seq<byte>)
    requires EditOf(payload) == None
    ensures !AcceptsEdit(c.settings.staged, EditOf(payload))
  {}

  lemma OneEdited(c: Core, edit: Edit)
    requires Invariant(c)
    ensures
      var staged := c.settings.staged;
      if AcceptsEdit(staged, Some(edit)) then EditedOnce(staged, Edited(staged, [edit]), edit)
      else Edited(staged, [edit]) == staged
  {
    StagedIsSound(c);
    StagingBounds(c.settings.staged, edit.field, edit.value);
    hide Invariant, IsValid, Validate, StageField, Acceptable, EditedOnce;
    assert [edit][..0] == [];
    if AcceptsEdit(c.settings.staged, Some(edit)) {
      LocalIsEdited(c.settings.staged, edit);
    }
  }

  lemma LocalIsEdited(config: ActuatorConfig, edit: Edit)
    requires StageField(config, edit.field, edit.value).Staged?
    ensures EditedOnce(config, StageField(config, edit.field, edit.value).config, edit)
  {
    StagingIsLocal(config, edit.field, edit.value);
    hide StageField, FieldValue, Unstageable;
  }

  lemma EditedMore(config: ActuatorConfig, edits: seq<Edit>, edit: Edit)
    ensures Edited(config, edits + [edit]) == Edited(Edited(config, edits), [edit])
  {
    hide StageField;
    assert (edits + [edit])[..|edits|] == edits && [edit][..0] == [];
  }

  /**
    Over any run in which nothing else touches the configuration, what is staged is what the edits asked for make of
    what was staged before, in order, and the active configuration stays as it is.
   */
  lemma {:induction false} StagedByEdits(c: Core, inputs: seq<Input>)
    requires Invariant(c) && OnlyStages(inputs)
    ensures
      var settings := Run(c, inputs).settings;
      && settings.active == c.settings.active && settings.defaults == c.settings.defaults
      && settings.staged == Edited(c.settings.staged, Edits(c, inputs))
    decreases |inputs|
  {
    hide Invariant, Step, IsRepeat, EditOf, StageField, OnlyStages;
    if inputs != [] {
      var init, last := inputs[..|inputs| - 1], inputs[|inputs| - 1];
      assert OnlyStages(init) && !Reconfigures(last.action) by { OnlyStagesParts(inputs); }
      StagedByEdits(c, init);
      RunKeepsInvariant(c, init);
      StepEdits(Run(c, init), last.env, last.action);
      if IsEdit(Run(c, init), last.action) {
        EditedMore(c.settings.staged, Edits(c, init), EditOf(last.action.request.payload).value);
      } else {
        assert Edits(c, inputs) == Edits(c, init);
      }
    }
  }

  /**
    An apply then makes exactly those edits active, all at once, unless it comes during a motion or the driver refuses
    them, in which case none is.
   */
  lemma EditsBecomeActive(c: Core, inputs: seq<Input>, env: Env, r: Packet)
    requires Invariant(c) && OnlyStages(inputs)
    requires r.msgId == CONFIG_APPLY && r.payload == [] && !IsRepeat(Run(c, inputs), r)
    ensures
      var before, w := Run(c, inputs), HandlePacket(Run(c, inputs), env, r);
      && (Ends(w, r.number, Ack(CONFIG_APPLY)) <==>
            !before.settings.isStaged || (!before.drive.InMotion() && !DriverRefuses(before, env)))
      && (if Ends(w, r.number, Ack(CONFIG_APPLY)) then
            && w.core.settings.active == Edited(c.settings.staged, Edits(c, inputs))
            && w.core.settings.staged == w.core.settings.active && !w.core.settings.isStaged
          else w.core.settings == before.settings)
  {
    hide Run, HandlePacket, Edited, Edits, Invariant, OnlyStages, DriverRefuses;
    StagedByEdits(c, inputs);
    RunKeepsInvariant(c, inputs);
    ApplyOutcome(Run(c, inputs), env, r);
  }

  lemma ApplyOutcome(c: Core, env: Env, r: Packet)
    requires Invariant(c) && r.msgId == CONFIG_APPLY && r.payload == [] && !IsRepeat(c, r)
    ensures
      var w := HandlePacket(c, env, r);
      && (Ends(w, r.number, Ack(CONFIG_APPLY)) <==>
            !c.settings.isStaged || (!c.drive.InMotion() && !DriverRefuses(c, env)))
      && (if Ends(w, r.number, Ack(CONFIG_APPLY)) then
            && w.core.settings == c.settings.(active := c.settings.staged, isStaged := false)
            && w.core.settings.staged == w.core.settings.active
          else w.core.settings == c.settings)
  {
    HandledAs(c, env, r);
    ApplyDispatch(Start(Seen(c, env)), env, r);
    SameDriverChange(c, Seen(c, env));
    StagedIsSound(c);
    hide HandlePacket, Dispatch, Send, Notify, TransitionTo, SetFault, Acknowledge, Reject, IsValid, DriverChanged;
  }

  // ----- What a host can install -----

  /** The client's own numbers for the fields. */
  function HostFieldNumber(f: ConfigField): uint16 {
    match f
    case TelemetryIntervalMs => 1
    case SoftLimitsEnabled => 2
    case SoftLimitMin => 3
    case SoftLimitMax => 4
    case MaxVelocity => 5
    case MaxAccel => 6
    case StopDecel => 7
    case RunCurrentMa => 8
    case HoldCurrentMa => 9
    case Microsteps => 10
    case DriverMode => 11
    case PositionOffset => 12
    case HomePosition => 13
    case DirectionInverted => 14
    case HostTimeoutMs => 15
    case VelocityTimeoutAction => 16
    case EnableTimeoutMs => 17
    case MaxAllowedCurrentMa => 18
    case MaxAllowedVelocity => 19
    case MaxAllowedAccel => 20
  }

  lemma FieldNumbersAgree(raw: uint16, f: ConfigField)
    ensures FieldOf(raw) == Some(f) <==> raw == HostFieldNumber(f)
  {}

  /** The payload the client builds for an edit. */
  function BuildStage(edit: Edit): seq<byte> { Le16(HostFieldNumber(edit.field)) + Le32(AsU32(edit.value)) }

  /** The firmware reads the client's payload as the edit it was built for, and no other payload. */
  lemma StagePayload(payload: seq<byte>, edit: Edit)
    ensures EditOf(payload) == Some(edit) <==> payload == BuildStage(edit)
  {
    var built := BuildStage(edit);
    assert built[0..2] == Le16(HostFieldNumber(edit.field)) && built[2..6] == Le32(AsU32(edit.value));
    U16RoundTrip(built, 0, HostFieldNumber(edit.field));
    U32RoundTrip(built, 2, AsU32(edit.value));
    FieldNumbersAgree(U16At(built, 0), edit.field);
    if EditOf(payload) == Some(edit) {
      FieldNumbersAgree(U16At(payload, 0), edit.field);
      U16RoundTrip(payload, 0, HostFieldNumber(edit.field));
      U32RoundTrip(payload, 2, AsU32(edit.value));
      assert payload == payload[0..2] + payload[2..6];
    }
    hide U16At, U32At, Le16, Le32, FieldOf;
  }

  /** A packet number that the last request did not have. */
  function NextNumber(c: Core): uint16 {
    if c.cache.request.None? then 0 else (c.cache.request.value.number + 1) % 0x1_0000
  }

  function StagePacket(number: uint16, edit: Edit): Packet {
    Packet(CONFIG_STAGE_FIELD, 0, number, BuildStage(edit))
  }

  /** The host stages a list of edits, one packet each. */
  function StageAll(c: Core, env: Env, edits: seq<Edit>): seq<Input>
    decreases |edits|
  {
    if edits == [] then []
    else
      var before := StageAll(c, env, edits[..|edits| - 1]);
      before + [Input(env, Handle(StagePacket(NextNumber(Run(c, before)), edits[|edits| - 1])))]
  }

  lemma NextIsFresh(c: Core, r: Packet)
    requires r.number == NextNumber(c)
    ensures !IsRepeat(c, r)
  {}

  lemma StageOne(c: Core, env: Env, edit: Edit)
    requires Invariant(c) && !c.drive.InMotion()
    ensures
      var r := StagePacket(NextNumber(c), edit);
      && IsEdit(c, Handle(r)) && EditOf(r.payload) == Some(edit) && !Reconfigures(Handle(r))
      && !Step(c, env, Handle(r)).core.drive.InMotion()
  {
    var r := StagePacket(NextNumber(c), edit);
    NextIsFresh(c, r);
    StagePayload(r.payload, edit);
    StageEffect(c, env, r);
    hide Invariant, HandlePacket, EditOf, BuildStage, IsRepeat, NextNumber, EditedOnce, AcceptsEdit;
  }

  lemma {:induction false} StageAllStages(c: Core, env: Env, edits: seq<Edit>)
    requires Invariant(c) && !c.drive.InMotion()
    ensures
      var inputs := StageAll(c, env, edits);
      && OnlyStages(inputs) && Edits(c, inputs) == edits && !Run(c, inputs).drive.InMotion()
    decreases |edits|
  {
    hide Invariant, Step, EditOf, IsEdit, StagePacket, NextNumber, Reconfigures;
    if edits != [] {
      var init, last := edits[..|edits| - 1], edits[|edits| - 1];
      var before := StageAll(c, env, init);
      StageAllStages(c, env, init);
      RunKeepsInvariant(c, before);
      StageOne(Run(c, before), env, last);
      var inputs := StageAll(c, env, edits);
      assert inputs[..|inputs| - 1] == before;
      assert edits == init + [last];
    }
  }

  lemma {:induction false} AcceptedAreEdited(config: ActuatorConfig, edits: seq<Edit>)
    requires AfterEdits(config, edits).Some?
    ensures AfterEdits(config, edits) == Some(Edited(config, edits))
    decreases |edits|
  {
    hide StageField;
    if edits != [] {
      var init, last := edits[..|edits| - 1], edits[|edits| - 1];
      assert edits == init + [last];
      AfterEditsConcat(config, init, [last]);
      AcceptedAreEdited(config, init);
      assert [last][1..] == [];
    }
  }

  lemma {:induction false} EditedStaysConnected(a: ActuatorConfig, config: ActuatorConfig, edits: seq<Edit>)
    requires Connected(a, config)
    ensures Connected(a, Edited(config, edits))
    decreases |edits|
  {
    hide Connected, SetField, Validate;
    if edits != [] {
      var init, last := edits[..|edits| - 1], edits[|edits| - 1];
      EditedStaysConnected(a, config, init);
      if StageField(Edited(config, init), last.field, last.value).Staged? {
        EditStaysConnected(a, Edited(config, init), last.field, last.value);
      }
    }
  }

  /** A run of staging, and then an apply that is acknowledged, which leaves the given configuration active. */
  ghost predicate Installs(c: Core, inputs: seq<Input>, env: Env, r: Packet, config: ActuatorConfig) {
    && OnlyStages(inputs) && r.msgId == CONFIG_APPLY && r.payload == [] && !IsRepeat(Run(c, inputs), r)
    && (var w := HandlePacket(Run(c, inputs), env, r);
        Ends(w, r.number, Ack(CONFIG_APPLY)) && w.core.settings.active == config)
  }

  /**
    Out of motion, with nothing staged, a host can install a valid configuration by staging fields and then applying
    them exactly when it is connected to the active one, as long as the driver can be configured at all.
   */
  lemma InstallableExactly(c: Core, config: ActuatorConfig)
    requires Invariant(c) && !c.drive.InMotion() && !c.settings.isStaged && IsValid(config)
    ensures (exists inputs, env, r :: Installs(c, inputs, env, r, config)) <==> Connected(c.settings.active, config)
  {
    SettledConfigs(c);
    hide Invariant, IsValid, Connected, Run, HandlePacket, Edited, Edits, OnlyStages, IsRepeat, DriverRefuses;
    if Connected(c.settings.active, config) {
      Install(c, config, WILLING);
    }
    if inputs, env, r :| Installs(c, inputs, env, r, config) {
      EditsBecomeActive(c, inputs, env, r);
      SameIsConnected(c.settings.active);
      EditedStaysConnected(c.settings.active, c.settings.active, Edits(c, inputs));
    }
  }

  lemma SettledConfigs(c: Core)
    requires Invariant(c) && !c.settings.isStaged
    ensures c.settings.staged == c.settings.active && IsValid(c.settings.active)
  {
    hide IsValid;
  }

  lemma SameIsConnected(a: ActuatorConfig)
    ensures Connected(a, a)
  {}

  /** A backend without any callbacks, which refuses no configuration. */
  const WILLING := Env(Absent, Absent, Absent, Absent, Absent, Absent, Absent, Absent, Absent, Absent, Absent, Absent,
                       Absent, Absent, Absent, Absent, Absent, Absent, {})

  lemma Install(c: Core, config: ActuatorConfig, env: Env)
    requires Invariant(c) && !c.drive.InMotion() && !c.settings.isStaged && IsValid(config)
    requires Connected(c.settings.active, config) && env.configureDriver != Returned(false)
    ensures exists inputs, r :: Installs(c, inputs, env, r, config)
  {
    SettledConfigs(c);
    var edits := PathBetween(c.settings.active, config);
    AcceptedAreEdited(c.settings.active, edits);
    StageAllStages(c, env, edits);
    var inputs := StageAll(c, env, edits);
    var before := Run(c, inputs);
    var r := Packet(CONFIG_APPLY, 0, NextNumber(before), []);
    NextIsFresh(before, r);
    hide Invariant, IsValid, Connected, Run, HandlePacket, Edited, Edits, OnlyStages, IsRepeat, NextNumber, StageAll;
    EditsBecomeActive(c, inputs, env, r);
    assert Installs(c, inputs, env, r, config);
  }
}
