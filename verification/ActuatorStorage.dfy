/** The actuator together with the store its backend saves to and boots from. */
module ActuatorStorage {
  import opened Bytes
  import opened Config
  import opened ConfigBlob
  import opened Protocol
  import opened ConfigStore
  import opened ActuatorTypes
  import opened ActuatorSteps
  import opened ActuatorInvariant

  predicate IsStorage(call: Call) { call.SaveConfig? || call.ResetStorage? }

  ghost predicate NoStorage(calls: seq<Call>) { forall i :: 0 <= i < |calls| ==> !IsStorage(calls[i]) }

  // ----- Only two commands touch the store -----

  /** The store and the generation counter are left alone. */
  ghost predicate LeavesStore(w: Work, w': Work) {
    && w'.core.settings.generation == w.core.settings.generation
    && w'.core.settings.defaults == w.core.settings.defaults
    && (NoStorage(w.calls) ==> NoStorage(w'.calls))
  }

  lemma InquireLeavesStore(w: Work, env: Env, r: Packet)
    ensures LeavesStore(w, Inquire(w, env, r))
  {
    hide IsValid, Send, Notify, TransitionTo, SetFault, Acknowledge, Reject, RejectVia;
  }

  lemma SetControlModeLeavesStore(w: Work, env: Env, r: Packet)
    ensures LeavesStore(w, SetControlMode(w, env, r))
  {
    hide IsValid, Send, Notify, TransitionTo, SetFault, Acknowledge, Reject, RejectVia;
  }

  lemma EmergencyStopNowLeavesStore(w: Work, env: Env, r: Packet)
    ensures LeavesStore(w, EmergencyStopNow(w, env, r))
  {
    hide IsValid, Send, Notify, TransitionTo, SetFault, Acknowledge, Reject, RejectVia;
  }

  lemma RampStopNowLeavesStore(w: Work, env: Env, r: Packet)
    ensures LeavesStore(w, RampStopNow(w, env, r))
  {
    hide IsValid, Send, Notify, TransitionTo, SetFault, Acknowledge, Reject, RejectVia;
  }

  lemma ClearFaultsLeavesStore(w: Work, env: Env, r: Packet)
    ensures LeavesStore(w, ClearFaults(w, env, r))
  {
    hide IsValid, Send, Notify, TransitionTo, SetFault, Acknowledge, Reject, RejectVia;
  }

  lemma ReportFieldLeavesStore(w: Work, env: Env, r: Packet)
    ensures LeavesStore(w, ReportField(w, env, r))
  {
    hide IsValid, Send, Notify, TransitionTo, SetFault, Acknowledge, Reject, RejectVia;
  }

  lemma StageLeavesStore(w: Work, env: Env, r: Packet)
    ensures LeavesStore(w, Stage(w, env, r))
  {
    hide IsValid, Send, Notify, TransitionTo, SetFault, Acknowledge, Reject, RejectVia, StageRequest;
  }

  lemma ApplyStagedLeavesStore(w: Work, env: Env, r: Packet)
    ensures LeavesStore(w, ApplyStaged(w, env, r))
  {
    hide IsValid, Send, Notify, TransitionTo, SetFault, Acknowledge, Reject, RejectVia;
  }

  lemma RebootNowLeavesStore(w: Work, env: Env, r: Packet)
    ensures LeavesStore(w, RebootNow(w, env, r))
  {
    hide IsValid, Send, Notify, TransitionTo, SetFault, Acknowledge, Reject, RejectVia;
  }

  lemma MoveAbsLeavesStore(w: Work, env: Env, r: Packet)
    ensures LeavesStore(w, MoveAbs(w, env, r))
  {
    hide IsValid, Send, Notify, TransitionTo, SetFault, Acknowledge, Reject, RejectVia;
  }

  lemma MoveRelLeavesStore(w: Work, env: Env, r: Packet)
    ensures LeavesStore(w, MoveRel(w, env, r))
  {
    hide IsValid, Send, Notify, TransitionTo, SetFault, Acknowledge, Reject, RejectVia;
  }

  lemma RunVelLeavesStore(w: Work, env: Env, r: Packet)
    ensures LeavesStore(w, RunVel(w, env, r))
  {
    hide IsValid, Send, Notify, TransitionTo, SetFault, Acknowledge, Reject, RejectVia;
  }

  lemma SetTelemetryRateLeavesStore(w: Work, env: Env, r: Packet)
    ensures LeavesStore(w, SetTelemetryRate(w, env, r))
  {
    hide IsValid, Send, Notify, TransitionTo, SetFault, Acknowledge, Reject, RejectVia;
  }

  lemma UnknownLeavesStore(w: Work, env: Env, r: Packet)
    ensures LeavesStore(w, Unknown(w, env, r))
  {
    hide IsValid, Send, Notify, TransitionTo, SetFault, Acknowledge, Reject, RejectVia;
  }

  lemma DispatchLeavesStore(w: Work, env: Env, r: Packet)
    requires !((r.msgId == CONFIG_SAVE || r.msgId == CONFIG_RESET_DEFAULTS) && r.payload == [])
    ensures LeavesStore(w, Dispatch(w, env, r))
  {
    hide Send, Notify, RejectVia, NoStorage,
         Inquire, SetControlMode, EmergencyStopNow, RampStopNow, ClearFaults, ReportField, Stage, ApplyStaged,
         SaveActive, ResetDefaults, RebootNow, MoveAbs, MoveRel, RunVel, SetTelemetryRate, Unknown;
    if TakesNoPayload(r.msgId) && r.payload != [] {
    } else if r.msgId < SET_CONTROL_MODE || r.msgId == GET_DRIVER_STATUS {
      InquireLeavesStore(w, env, r);
    } else if r.msgId == SET_CONTROL_MODE {
      SetControlModeLeavesStore(w, env, r);
    } else if r.msgId == ESTOP {
      EmergencyStopNowLeavesStore(w, env, r);
    } else if r.msgId == RAMP_STOP {
      RampStopNowLeavesStore(w, env, r);
    } else if r.msgId == CLEAR_FAULTS {
      ClearFaultsLeavesStore(w, env, r);
    } else if r.msgId == CONFIG_QUERY {
      ReportFieldLeavesStore(w, env, r);
    } else if r.msgId == CONFIG_STAGE_FIELD {
      StageLeavesStore(w, env, r);
    } else if r.msgId == CONFIG_APPLY {
      ApplyStagedLeavesStore(w, env, r);
    } else if r.msgId == REBOOT {
      RebootNowLeavesStore(w, env, r);
    } else if r.msgId == MOVE_ABS {
      MoveAbsLeavesStore(w, env, r);
    } else if r.msgId == MOVE_REL {
      MoveRelLeavesStore(w, env, r);
    } else if r.msgId == RUN_VEL {
      RunVelLeavesStore(w, env, r);
    } else if r.msgId == SET_TELEM_RATE {
      SetTelemetryRateLeavesStore(w, env, r);
    } else {
      UnknownLeavesStore(w, env, r);
    }
  }

  // ----- The device -----

  datatype Device = Device(core: Core, flash: Flash)

  /** What may go wrong in the store during a step: a save is cut short, or a clear fails after erasing some keys. */
  datatype StorageFault = NoFault | SaveFails(at: Interruption) | ClearFails(erased0: Erased, erased1: Erased) {
    function AsSave(c: ActuatorConfig): Event {
      match this case SaveFails(at) => SaveCutShort(c, at) case _ => Save(c)
    }

    function AsClear(): Event {
      match this case ClearFails(e0, e1) => ClearCutShort(e0, e1) case _ => Clear
    }
  }

  /** The backend's storage callbacks answer for the store. */
  function Stocked(env: Env, d: Device, fault: StorageFault): Env {
    env.(loadConfig := Returned(Loaded(d.flash)),
         saveConfig := Returned(IsValid(d.core.settings.active) && !fault.SaveFails?),
         resetStorage := Returned(!fault.ClearFails?))
  }

  /** What a storage call does to the store. */
  function AfterCall(f: Flash, call: Call, fault: StorageFault): Flash {
    match call
    case SaveConfig(c, _) => Apply(f, fault.AsSave(c))
    case ResetStorage(_) => Apply(f, fault.AsClear())
    case _ => f
  }

  function AfterCalls(f: Flash, calls: seq<Call>, fault: StorageFault): Flash
    decreases |calls|
  {
    if calls == [] then f
    else AfterCall(AfterCalls(f, calls[..|calls| - 1], fault), calls[|calls| - 1], fault)
  }

  function DeviceStep(d: Device, env: Env, a: Action, fault: StorageFault): Device {
    var w := Step(d.core, Stocked(env, d, fault), a);
    Device(w.core, AfterCalls(d.flash, w.calls, fault))
  }

  lemma {:induction false} NoStorageNoChange(f: Flash, calls: seq<Call>, fault: StorageFault)
    requires NoStorage(calls)
    ensures AfterCalls(f, calls, fault) == f
    decreases |calls|
  {
    hide Apply;
    if calls != [] {
      NoStorageNoChange(f, calls[..|calls| - 1], fault);
    }
  }

  // ----- Save, then reboot -----

  predicate IsSave(a: Action) { a.Handle? && a.request.msgId == CONFIG_SAVE && a.request.payload == [] }

  predicate IsReset(a: Action) { a.Handle? && a.request.msgId == CONFIG_RESET_DEFAULTS && a.request.payload == [] }

  /** A handled save writes the active configuration, and counts and acknowledges it exactly when the write finished. */
  lemma SaveStep(d: Device, env: Env, a: Action, fault: StorageFault)
    requires Invariant(d.core) && IsSave(a) && !IsRepeat(d.core, a.request)
    ensures
      var d' := DeviceStep(d, env, a, fault);
      && d'.flash == Apply(d.flash, fault.AsSave(d.core.settings.active))
      && d'.core.settings == d.core.settings.(generation :=
           if !fault.SaveFails? then Add32(d.core.settings.generation, 1) else d.core.settings.generation)
      && (!fault.SaveFails? <==> d'.core.cache.responses == [Outgoing(a.request.number, Ack(CONFIG_SAVE))])
  {
    hide Invariant, IsValid, Apply, Step, IsRepeat, IsSave, AfterCalls;
    ActiveIsValid(d.core);
    SaveHandled(d.core, Stocked(env, d, fault), a);
    OneCall(d.flash, SaveConfig(d.core.settings.active, !fault.SaveFails?), fault);
  }

  lemma SaveHandled(c: Core, env: Env, a: Action)
    requires IsSave(a) && !IsRepeat(c, a.request) && env.saveConfig.Returned?
    ensures
      var w' := Step(c, env, a);
      && w'.calls == [SaveConfig(c.settings.active, env.saveConfig.value)]
      && w'.core.settings == c.settings.(generation :=
           if env.saveConfig.value then Add32(c.settings.generation, 1) else c.settings.generation)
      && w'.core.cache.responses == [Outgoing(a.request.number,
           if env.saveConfig.value then Ack(CONFIG_SAVE) else Error(CONFIG_SAVE, Storage))]
  {
    var seen := Start(c.(lastHostMs := Now(env), counters := c.counters.(commands := Add32(c.counters.commands, 1))));
    SaveAnswers(seen, env, a.request);
    SaveDispatch(seen, env, a.request);
    hide Dispatch, SaveActive;
  }

  lemma OneCall(f: Flash, call: Call, fault: StorageFault)
    ensures AfterCalls(f, [call], fault) == AfterCall(f, call, fault)
  {
    hide AfterCall;
    assert [call][..0] == [];
    assert AfterCalls(f, [], fault) == f;
  }

  lemma ActiveIsValid(c: Core)
    requires Invariant(c)
    ensures IsValid(c.settings.active)
  {
    hide IsValid;
  }

  lemma SaveDispatch(w: Work, env: Env, r: Packet)
    requires r.msgId == CONFIG_SAVE && r.payload == []
    ensures Dispatch(w, env, r) == SaveActive(w, env, r)
  {
    hide SaveActive, Send, RejectVia;
  }

  lemma SaveAnswers(w: Work, env: Env, r: Packet)
    requires w.calls == [] && w.responses == [] && env.saveConfig.Returned?
    ensures
      var w' := SaveActive(w, env, r);
      && w'.calls == [SaveConfig(w.core.settings.active, env.saveConfig.value)]
      && w'.core.settings == w.core.settings.(generation :=
           if env.saveConfig.value then Add32(w.core.settings.generation, 1) else w.core.settings.generation)
      && w'.responses == [Outgoing(r.number, if env.saveConfig.value then Ack(r.msgId) else Error(r.msgId, Storage))]
  {}

  /** A boot takes the stored configuration, or the defaults when there is none, and its generation. */
  lemma BootStep(d: Device, env: Env, fault: StorageFault)
    requires IsValid(d.core.settings.defaults)
    ensures
      var d' := DeviceStep(d, env, Restart, fault);
      var defaults := d.core.settings.defaults;
      && d'.flash == d.flash
      && d'.core.settings == match Loaded(d.flash)
           case None => Settings(defaults, defaults, defaults, false, 0)
           case Some(stored) => Settings(defaults, stored.config, stored.config, false, stored.generation)
  {
    LoadedIsValid(d.flash);
    var stocked := Stocked(env, d, fault);
    BootCalls(d.core.settings.defaults, stocked);
    hide Loaded, IsValid, Begin;
    NoStorageNoChange(d.flash, Begin(d.core.settings.defaults, stocked).calls, fault);
  }

  lemma BootCalls(defaults: ActuatorConfig, env: Env)
    requires env.loadConfig.Returned? && (env.loadConfig.value.Some? ==> IsValid(env.loadConfig.value.value.config))
    ensures NoStorage(Begin(defaults, env).calls)
    ensures Begin(defaults, env).core.settings == match env.loadConfig.value
              case None => Settings(defaults, defaults, defaults, false, 0)
              case Some(stored) => Settings(defaults, stored.config, stored.config, false, stored.generation)
  {
    hide IsValid, Send, Notify, TransitionTo, SetFault;
  }

  /** The store never yields an invalid configuration. */
  lemma LoadedIsValid(f: Flash)
    ensures Loaded(f).Some? ==> IsValid(Loaded(f).value.config)
  {
    hide Validate, ConfigAt, MetaMatches;
  }

  /**
    A save that is acknowledged survives the next boot, whatever the store held: the actuator comes back with the
    configuration that was active, but for the name of the axis. A save cut short leaves the next boot what it was.
   */
  lemma SaveThenBoot(d: Device, env: Env, a: Action, fault: StorageFault, boot: Env)
    requires Invariant(d.core) && Consecutive(d.flash)
    requires IsSave(a) && !IsRepeat(d.core, a.request)
    ensures
      var rebooted := DeviceStep(DeviceStep(d, env, a, fault), boot, Restart, NoFault);
      if !fault.SaveFails? then
        && rebooted.core.settings.active == Normalised(d.core.settings.active)
        && rebooted.core.settings.generation == NextGeneration(d.flash)
      else rebooted.core.settings == DeviceStep(d, boot, Restart, NoFault).core.settings
  {
    var saved := DeviceStep(d, env, a, fault);
    SaveStep(d, env, a, fault);
    assert IsValid(d.core.settings.active) && IsValid(d.core.settings.defaults) by { hide Validate; }
    hide DeviceStep, Invariant, IsValid, Consecutive, Loaded, Apply, IsSave;
    BootStep(saved, boot, NoFault);
    BootStep(d, boot, NoFault);
    EventGeneration(d.flash, fault.AsSave(d.core.settings.active));
  }

  // ----- The generation the actuator reports -----

  /** The actuator's generation is that of the newest stored configuration, or zero when none is stored. */
  predicate Agrees(d: Device) {
    d.core.settings.generation == LoadedGeneration(d.flash)
  }

  lemma OtherStepsLeaveStore(c: Core, env: Env, a: Action)
    requires !IsReset(a) && !a.Restart? && (IsSave(a) ==> IsRepeat(c, a.request))
    ensures NoStorage(Step(c, env, a).calls)
    ensures Step(c, env, a).core.settings.generation == c.settings.generation
  {
    match a
    case Handle(r) =>
      hide Dispatch, Send, RejectVia;
      if !IsRepeat(c, r) {
        var seen := c.(lastHostMs := Now(env), counters := c.counters.(commands := Add32(c.counters.commands, 1)));
        DispatchLeavesStore(Start(seen), env, r);
      }
    case Tick(writer) => UpdateLeavesStore(c, env, if writer then Direct else NoWriter);
    case FrameFailed(_) => hide SetFault;
    case Telemetry(_) => hide Send, Report;
  }

  lemma UpdateLeavesStore(c: Core, env: Env, via: Writer)
    ensures NoStorage(Update(c, env, via).calls)
    ensures Update(c, env, via).core.settings == c.settings
  {
    hide AnnounceBoot, FinishMotion, Notify, TransitionTo, SetFault;
  }

  lemma SaveKeepsAgreement(d: Device, env: Env, a: Action, fault: StorageFault)
    requires Invariant(d.core) && Consecutive(d.flash) && Agrees(d) && IsSave(a) && !IsRepeat(d.core, a.request)
    ensures
      var d' := DeviceStep(d, env, a, fault);
      Consecutive(d'.flash) && Agrees(d')
  {
    SaveStep(d, env, a, fault);
    ActiveIsValid(d.core);
    hide Invariant, IsValid, Consecutive, Loaded, Apply, DeviceStep, IsSave, IsRepeat;
    EventGeneration(d.flash, fault.AsSave(d.core.settings.active));
    EventRefines(d.flash, fault.AsSave(d.core.settings.active));
  }

  lemma BootKeepsAgreement(d: Device, env: Env, fault: StorageFault)
    requires IsValid(d.core.settings.defaults)
    ensures
      var d' := DeviceStep(d, env, Restart, fault);
      d'.flash == d.flash && Agrees(d')
  {
    hide IsValid, Loaded, DeviceStep;
    BootStep(d, env, fault);
  }

  lemma OtherStepKeepsAgreement(d: Device, env: Env, a: Action, fault: StorageFault)
    requires Agrees(d) && !IsReset(a) && !a.Restart? && (IsSave(a) ==> IsRepeat(d.core, a.request))
    ensures
      var d' := DeviceStep(d, env, a, fault);
      d'.flash == d.flash && Agrees(d')
  {
    hide Loaded, Step, IsSave, IsReset, IsRepeat, Stocked;
    OtherStepsLeaveStore(d.core, Stocked(env, d, fault), a);
    NoStorageNoChange(d.flash, Step(d.core, Stocked(env, d, fault), a).calls, fault);
  }

  /**
    A step that asks for the store to be emptied: a reset to defaults that is not a repeat, and neither the state nor
    the driver refuses.
   */
  predicate Erases(c: Core, env: Env, a: Action) {
    IsReset(a) && !IsRepeat(c, a.request) && !c.drive.InMotion() && env.configureDriver.Or(true)
  }

  /**
    It leaves the counter alone, so the two then differ: if the store is emptied, unless the counter stands at zero, and
    if that fails, when the newest slot is lost.
   */
  predicate Breaks(d: Device, env: Env, a: Action, fault: StorageFault) {
    Erases(d.core, env, a) &&
    match fault
    case ClearFails(e0, e1) => LosesGeneration(d.flash, e0, e1)
    case _ => d.core.settings.generation != 0
  }

  lemma RefusedResetLeavesStore(c: Core, env: Env, a: Action)
    requires IsReset(a) && !Erases(c, env, a)
    ensures NoStorage(Step(c, env, a).calls)
    ensures Step(c, env, a).core.settings.generation == c.settings.generation
  {
    var r := a.request;
    hide Send, RejectVia, Dispatch, ResetDefaults;
    if !IsRepeat(c, r) {
      var seen := Start(c.(lastHostMs := Now(env), counters := c.counters.(commands := Add32(c.counters.commands, 1))));
      ResetDispatch(seen, env, r);
      ResetRefused(seen, env, r);
    }
  }

  lemma ResetRefused(w: Work, env: Env, r: Packet)
    requires w.calls == [] && (w.core.drive.InMotion() || !env.configureDriver.Or(true))
    ensures
      var w' := ResetDefaults(w, env, r);
      NoStorage(w'.calls) && w'.core.settings.generation == w.core.settings.generation
  {
    hide Notify, TransitionTo, SetFault, Acknowledge, Reject;
  }

  lemma RefusedResetKeepsAgreement(d: Device, env: Env, a: Action, fault: StorageFault)
    requires Agrees(d) && IsReset(a) && !Erases(d.core, env, a)
    ensures
      var d' := DeviceStep(d, env, a, fault);
      d'.flash == d.flash && Agrees(d')
  {
    assert !Erases(d.core, Stocked(env, d, fault), a);
    hide Loaded, Step, IsReset, Erases, Stocked;
    RefusedResetLeavesStore(d.core, Stocked(env, d, fault), a);
    NoStorageNoChange(d.flash, Step(d.core, Stocked(env, d, fault), a).calls, fault);
  }

  /**
    Any step keeps the actuator's generation that of the store, saves that fail half way and restarts included, except a
    reset that empties the store while the counter is not zero, or that fails to and loses the newest slot; and those
    never do.
   */
  lemma AgreementExactly(d: Device, env: Env, a: Action, fault: StorageFault)
    requires Invariant(d.core) && Consecutive(d.flash) && Agrees(d)
    ensures
      var d' := DeviceStep(d, env, a, fault);
      Invariant(d'.core) && Consecutive(d'.flash) && (Agrees(d') <==> !Breaks(d, env, a, fault))
  {
    DefaultsAreValid(d.core);
    hide Invariant, IsValid, Consecutive, Agrees, Step, IsSave, IsReset, IsRepeat, AfterCalls, Stocked, Loaded;
    StepKeepsInvariant(d.core, Stocked(env, d, fault), a);
    if IsSave(a) && !IsRepeat(d.core, a.request) {
      SaveIsNoReset(a);
      SaveKeepsAgreement(d, env, a, fault);
    } else if a.Restart? {
      SaveIsNoReset(a);
      BootKeepsAgreement(d, env, fault);
    } else if Erases(d.core, env, a) {
      ResetBreaksAgreement(d, env, a, fault);
      EventRefines(d.flash, fault.AsClear());
    } else if IsReset(a) {
      RefusedResetKeepsAgreement(d, env, a, fault);
    } else {
      OtherStepKeepsAgreement(d, env, a, fault);
    }
  }

  lemma SaveIsNoReset(a: Action)
    ensures IsSave(a) || a.Restart? ==> !IsReset(a)
  {}

  lemma DefaultsAreValid(c: Core)
    requires Invariant(c)
    ensures IsValid(c.settings.defaults)
  {
    hide IsValid;
  }

  /**
    A reset that empties the store leaves the counter, so the two then agree exactly when the counter was zero. One that
    fails to empty it keeps their agreement exactly when the newest slot is not lost.
   */
  lemma ResetBreaksAgreement(d: Device, env: Env, a: Action, fault: StorageFault)
    requires Erases(d.core, env, a)
    ensures
      var d' := DeviceStep(d, env, a, fault);
      && d'.flash == Apply(d.flash, fault.AsClear()) && d'.core.settings.active == d.core.settings.defaults
      && (!fault.ClearFails? ==> d'.flash == EMPTY_FLASH && (Agrees(d') <==> d.core.settings.generation == 0))
      && (fault.ClearFails? && Agrees(d) && Consecutive(d.flash) ==>
            (Agrees(d') <==> !LosesGeneration(d.flash, fault.erased0, fault.erased1)))
  {
    hide LosesGeneration, LoadedGeneration, Consecutive, IsValid, Step, Erases, Apply;
    ResetStep(d, env, a, fault);
    if fault.ClearFails? {
      if Consecutive(d.flash) {
        CutClearGeneration(d.flash, fault.erased0, fault.erased1);
      }
    } else {
      ClearedGeneration(d.flash);
    }
  }

  lemma ClearedGeneration(f: Flash)
    ensures Apply(f, Clear) == EMPTY_FLASH && LoadedGeneration(EMPTY_FLASH) == 0
  {
    NoSlotDecodes();
    hide DecodedSlot;
  }

  lemma ResetStep(d: Device, env: Env, a: Action, fault: StorageFault)
    requires Erases(d.core, env, a)
    ensures
      var d' := DeviceStep(d, env, a, fault);
      && d'.flash == Apply(d.flash, fault.AsClear())
      && d'.core.settings.active == d.core.settings.defaults
      && d'.core.settings.generation == d.core.settings.generation
  {
    var c := d.core;
    var stocked := Stocked(env, d, fault);
    var seen := Start(c.(lastHostMs := Now(stocked),
                         counters := c.counters.(commands := Add32(c.counters.commands, 1))));
    ResetDispatch(seen, stocked, a.request);
    ResetAnswers(seen, stocked, a.request);
    hide Dispatch, ResetDefaults, IsValid, Apply;
    var calls := Step(c, stocked, a).calls;
    assert calls[..|calls| - 1] + [calls[|calls| - 1]] == calls;
    BeforeReset(d.flash, calls, fault);
  }

  lemma BeforeReset(f: Flash, calls: seq<Call>, fault: StorageFault)
    requires calls != [] && calls[|calls| - 1].ResetStorage? && NoStorage(calls[..|calls| - 1])
    ensures AfterCalls(f, calls, fault) == Apply(f, fault.AsClear())
  {
    hide Apply;
    NoStorageNoChange(f, calls[..|calls| - 1], fault);
  }

  lemma ResetDispatch(w: Work, env: Env, r: Packet)
    requires r.msgId == CONFIG_RESET_DEFAULTS && r.payload == []
    ensures Dispatch(w, env, r) == ResetDefaults(w, env, r)
  {
    hide ResetDefaults, Send, RejectVia;
  }

  lemma ResetAnswers(w: Work, env: Env, r: Packet)
    requires w.calls == [] && !w.core.drive.InMotion() && env.configureDriver.Or(true) && env.resetStorage.Returned?
    ensures
      var w' := ResetDefaults(w, env, r);
      && w'.calls != [] && w'.calls[|w'.calls| - 1] == ResetStorage(env.resetStorage.value)
      && NoStorage(w'.calls[..|w'.calls| - 1])
      && w'.core.settings.generation == w.core.settings.generation
      && w'.core.settings.active == w.core.settings.defaults
  {
    hide Notify, TransitionTo, SetFault, Acknowledge, Reject;
  }

  // ----- Device histories -----

  datatype DeviceInput = DeviceInput(env: Env, action: Action, fault: StorageFault)

  function DeviceRun(d: Device, inputs: seq<DeviceInput>): Device
    decreases |inputs|
  {
    if inputs == [] then d
    else
      var last := inputs[|inputs| - 1];
      DeviceStep(DeviceRun(d, inputs[..|inputs| - 1]), last.env, last.action, last.fault)
  }

  ghost predicate NoneBreaks(d: Device, inputs: seq<DeviceInput>) {
    forall i :: 0 <= i < |inputs| ==>
      !Breaks(DeviceRun(d, inputs[..i]), inputs[i].env, inputs[i].action, inputs[i].fault)
  }

  ghost predicate AlwaysAgrees(d: Device, inputs: seq<DeviceInput>) {
    forall i :: 0 <= i <= |inputs| ==> AgreesAfter(d, inputs, i)
  }

  predicate AgreesAfter(d: Device, inputs: seq<DeviceInput>, i: nat)
    requires i <= |inputs|
  {
    Agrees(DeviceRun(d, inputs[..i]))
  }

  /**
    Over any run, saves and clears that fail half way and restarts included, the generation reported is always the
    stored one if and only if no reset empties the store while the counter is not zero, or fails to and loses the newest
    slot.
   */
  lemma {:induction false} GenerationAlwaysAgrees(d: Device, inputs: seq<DeviceInput>)
    requires Invariant(d.core) && Consecutive(d.flash) && Agrees(d)
    ensures AlwaysAgrees(d, inputs) <==> NoneBreaks(d, inputs)
    ensures NoneBreaks(d, inputs) ==>
      var d' := DeviceRun(d, inputs);
      Invariant(d'.core) && Consecutive(d'.flash) && Agrees(d')
    decreases |inputs|
  {
    hide Invariant, Consecutive, Agrees, DeviceStep, Breaks, NoneBreaks, AlwaysAgrees;
    AgreementPrefixes(d, inputs);
    if inputs != [] {
      var init, last := inputs[..|inputs| - 1], inputs[|inputs| - 1];
      GenerationAlwaysAgrees(d, init);
      if NoneBreaks(d, init) {
        AgreementExactly(DeviceRun(d, init), last.env, last.action, last.fault);
      }
    }
  }

  lemma AgreementPrefixes(d: Device, inputs: seq<DeviceInput>)
    requires Agrees(d)
    ensures inputs == [] ==> AlwaysAgrees(d, inputs) && NoneBreaks(d, inputs)
    ensures inputs != [] ==>
      var init, last := inputs[..|inputs| - 1], inputs[|inputs| - 1];
      && (AlwaysAgrees(d, inputs) <==> AlwaysAgrees(d, init) && Agrees(DeviceRun(d, inputs)))
      && (NoneBreaks(d, inputs) <==>
            NoneBreaks(d, init) && !Breaks(DeviceRun(d, init), last.env, last.action, last.fault))
  {
    hide Agrees, DeviceStep, Breaks;
    assert inputs[..|inputs|] == inputs;
    if inputs != [] {
      var init := inputs[..|inputs| - 1];
      assert forall i :: 0 <= i < |inputs| ==> init[..i] == inputs[..i];
      assert forall i :: 0 <= i < |inputs| ==> (AgreesAfter(d, init, i) <==> AgreesAfter(d, inputs, i));
      assert AgreesAfter(d, inputs, |inputs|) <==> Agrees(DeviceRun(d, inputs));
    }
  }
}
