/** Which configurations a host can reach by staging one field at a time. */
module StagingPaths {
  import opened Bytes
  import opened Config

  datatype Edit = Edit(field: ConfigField, value: int32)

  /** The outcome of a list of edits, each of which has to be accepted. */
  function AfterEdits(c: ActuatorConfig, edits: seq<Edit>): Option<ActuatorConfig>
    decreases |edits|
  {
    if edits == [] then Some(c)
    else match StageField(c, edits[0].field, edits[0].value)
      case Refused(_) => None
      case Staged(d) => AfterEdits(d, edits[1..])
  }

  predicate Fits(v: uint32) { v <= INT32_MAX }

  /**
    Everything the two disagree on is stageable, and there the target's value is one a 32-bit signed edit can carry.
   */
  predicate Connected(a: ActuatorConfig, b: ActuatorConfig) {
    && Unstageable(a) == Unstageable(b)
    && (a.motion.maxVelocity == b.motion.maxVelocity || Fits(b.motion.maxVelocity))
    && (a.motion.maxAccel == b.motion.maxAccel || Fits(b.motion.maxAccel))
    && (a.motion.stopDecel == b.motion.stopDecel || Fits(b.motion.stopDecel))
    && (a.safety.maxAllowedVelocity == b.safety.maxAllowedVelocity || Fits(b.safety.maxAllowedVelocity))
    && (a.safety.maxAllowedAccel == b.safety.maxAllowedAccel || Fits(b.safety.maxAllowedAccel))
    && (a.driver.mode == b.driver.mode || b.driver.mode <= 1)
    && (a.safety.timeoutAction == b.safety.timeoutAction || b.safety.timeoutAction <= 1)
  }

  lemma {:induction false} AfterEditsConcat(c: ActuatorConfig, s: seq<Edit>, t: seq<Edit>)
    ensures AfterEdits(c, s + t)
         == match AfterEdits(c, s) { case None => None case Some(d) => AfterEdits(d, t) }
    decreases |s|
  {
    hide StageField;
    if s == [] {
      assert s + t == t;
    } else {
      assert (s + t)[0] == s[0] && (s + t)[1..] == s[1..] + t;
      match StageField(c, s[0].field, s[0].value)
      case Refused(_) =>
      case Staged(d) => AfterEditsConcat(d, s[1..], t);
    }
  }

  lemma OneEdit(c: ActuatorConfig, f: ConfigField, v: int32, d: ActuatorConfig)
    requires SetField(c, f, v) == Some(d) && IsValid(d)
    ensures AfterEdits(c, [Edit(f, v)]) == Some(d)
  {
    hide Validate;
  }

  lemma Then(a: ActuatorConfig, s: seq<Edit>, b: ActuatorConfig, f: ConfigField, v: int32, c: ActuatorConfig)
    requires AfterEdits(a, s) == Some(b)
    requires SetField(b, f, v) == Some(c) && IsValid(c)
    ensures AfterEdits(a, s + [Edit(f, v)]) == Some(c)
  {
    hide AfterEdits, SetField, IsValid;
    AfterEditsConcat(a, s, [Edit(f, v)]);
    OneEdit(b, f, v, c);
  }

  lemma Append(a: ActuatorConfig, s: seq<Edit>, b: ActuatorConfig, t: seq<Edit>, c: ActuatorConfig)
    requires AfterEdits(a, s) == Some(b) && AfterEdits(b, t) == Some(c)
    ensures AfterEdits(a, s + t) == Some(c)
  {
    hide AfterEdits;
    AfterEditsConcat(a, s, t);
  }

  // ----- One group of related fields at a time: lower the values, move their limit, set the values -----

  lemma SoftLimitEdits(c: ActuatorConfig, b: ActuatorConfig) returns (edits: seq<Edit>, d: ActuatorConfig)
    requires IsValid(c) && IsValid(b)
    ensures d == c.(motion := c.motion.(softLimitsEnabled := b.motion.softLimitsEnabled,
                                        softMin := b.motion.softMin, softMax := b.motion.softMax))
    ensures IsValid(d) && AfterEdits(c, edits) == Some(d)
  {
    hide AfterEdits;
    var c1 := c.(motion := c.motion.(softLimitsEnabled := false));
    var c2 := c1.(motion := c1.motion.(softMin := b.motion.softMin));
    var c3 := c2.(motion := c2.motion.(softMax := b.motion.softMax));
    d := c3.(motion := c3.motion.(softLimitsEnabled := b.motion.softLimitsEnabled));
    OneEdit(c, SoftLimitsEnabled, 0, c1);
    Then(c, [Edit(SoftLimitsEnabled, 0)], c1, SoftLimitMin, b.motion.softMin, c2);
    edits := [Edit(SoftLimitsEnabled, 0)] + [Edit(SoftLimitMin, b.motion.softMin)];
    Then(c, edits, c2, SoftLimitMax, b.motion.softMax, c3);
    edits := edits + [Edit(SoftLimitMax, b.motion.softMax)];
    var enabled := if b.motion.softLimitsEnabled then 1 else 0;
    Then(c, edits, c3, SoftLimitsEnabled, enabled, d);
    edits := edits + [Edit(SoftLimitsEnabled, enabled)];
  }

  lemma CurrentEdits(c: ActuatorConfig, b: ActuatorConfig) returns (edits: seq<Edit>, d: ActuatorConfig)
    requires IsValid(c) && IsValid(b) && c.motor == b.motor
    ensures d == c.(driver := c.driver.(runCurrentMa := b.driver.runCurrentMa, holdCurrentMa := b.driver.holdCurrentMa),
                    safety := c.safety.(maxAllowedCurrentMa := b.safety.maxAllowedCurrentMa))
    ensures IsValid(d) && AfterEdits(c, edits) == Some(d)
  {
    hide AfterEdits;
    var c1 := c.(driver := c.driver.(holdCurrentMa := 0));
    var c2 := c1.(driver := c1.driver.(runCurrentMa := 1));
    var c3 := c2.(safety := c2.safety.(maxAllowedCurrentMa := b.safety.maxAllowedCurrentMa));
    var c4 := c3.(driver := c3.driver.(runCurrentMa := b.driver.runCurrentMa));
    d := c4.(driver := c4.driver.(holdCurrentMa := b.driver.holdCurrentMa));
    OneEdit(c, HoldCurrentMa, 0, c1);
    Then(c, [Edit(HoldCurrentMa, 0)], c1, RunCurrentMa, 1, c2);
    edits := [Edit(HoldCurrentMa, 0)] + [Edit(RunCurrentMa, 1)];
    Then(c, edits, c2, MaxAllowedCurrentMa, b.safety.maxAllowedCurrentMa, c3);
    edits := edits + [Edit(MaxAllowedCurrentMa, b.safety.maxAllowedCurrentMa)];
    Then(c, edits, c3, RunCurrentMa, b.driver.runCurrentMa, c4);
    edits := edits + [Edit(RunCurrentMa, b.driver.runCurrentMa)];
    Then(c, edits, c4, HoldCurrentMa, b.driver.holdCurrentMa, d);
    edits := edits + [Edit(HoldCurrentMa, b.driver.holdCurrentMa)];
  }

  lemma VelocityEdits(c: ActuatorConfig, b: ActuatorConfig) returns (edits: seq<Edit>, d: ActuatorConfig)
    requires IsValid(c) && IsValid(b)
    requires c.motion.maxVelocity == b.motion.maxVelocity || Fits(b.motion.maxVelocity)
    requires c.safety.maxAllowedVelocity == b.safety.maxAllowedVelocity || Fits(b.safety.maxAllowedVelocity)
    ensures d == c.(motion := c.motion.(maxVelocity := b.motion.maxVelocity),
                    safety := c.safety.(maxAllowedVelocity := b.safety.maxAllowedVelocity))
    ensures IsValid(d) && AfterEdits(c, edits) == Some(d)
  {
    d := c.(motion := c.motion.(maxVelocity := b.motion.maxVelocity),
            safety := c.safety.(maxAllowedVelocity := b.safety.maxAllowedVelocity));
    if d == c {
      edits := [];
    } else if c.safety.maxAllowedVelocity == b.safety.maxAllowedVelocity {
      OneEdit(c, MaxVelocity, b.motion.maxVelocity, d);
      edits := [Edit(MaxVelocity, b.motion.maxVelocity)];
    } else {
      hide AfterEdits;
      var c1 := c.(motion := c.motion.(maxVelocity := 1));
      var c2 := c1.(safety := c1.safety.(maxAllowedVelocity := b.safety.maxAllowedVelocity));
      OneEdit(c, MaxVelocity, 1, c1);
      Then(c, [Edit(MaxVelocity, 1)], c1, MaxAllowedVelocity, b.safety.maxAllowedVelocity, c2);
      edits := [Edit(MaxVelocity, 1)] + [Edit(MaxAllowedVelocity, b.safety.maxAllowedVelocity)];
      Then(c, edits, c2, MaxVelocity, b.motion.maxVelocity, d);
      edits := edits + [Edit(MaxVelocity, b.motion.maxVelocity)];
    }
  }

  lemma AccelEdits(c: ActuatorConfig, b: ActuatorConfig) returns (edits: seq<Edit>, d: ActuatorConfig)
    requires IsValid(c) && IsValid(b)
    requires c.motion.maxAccel == b.motion.maxAccel || Fits(b.motion.maxAccel)
    requires c.motion.stopDecel == b.motion.stopDecel || Fits(b.motion.stopDecel)
    requires c.safety.maxAllowedAccel == b.safety.maxAllowedAccel || Fits(b.safety.maxAllowedAccel)
    ensures d == c.(motion := c.motion.(maxAccel := b.motion.maxAccel, stopDecel := b.motion.stopDecel),
                    safety := c.safety.(maxAllowedAccel := b.safety.maxAllowedAccel))
    ensures IsValid(d) && AfterEdits(c, edits) == Some(d)
  {
    var c3, lowered := c, [];
    if c.safety.maxAllowedAccel != b.safety.maxAllowedAccel {
      hide AfterEdits;
      var c1 := c.(motion := c.motion.(maxAccel := 1));
      var c2 := c1.(motion := c1.motion.(stopDecel := 1));
      c3 := c2.(safety := c2.safety.(maxAllowedAccel := b.safety.maxAllowedAccel));
      OneEdit(c, MaxAccel, 1, c1);
      Then(c, [Edit(MaxAccel, 1)], c1, StopDecel, 1, c2);
      lowered := [Edit(MaxAccel, 1)] + [Edit(StopDecel, 1)];
      Then(c, lowered, c2, MaxAllowedAccel, b.safety.maxAllowedAccel, c3);
      lowered := lowered + [Edit(MaxAllowedAccel, b.safety.maxAllowedAccel)];
    }
    var c4 := c3.(motion := c3.motion.(maxAccel := b.motion.maxAccel));
    edits := lowered;
    if c4 != c3 {
      hide AfterEdits;
      Then(c, lowered, c3, MaxAccel, b.motion.maxAccel, c4);
      edits := edits + [Edit(MaxAccel, b.motion.maxAccel)];
    }
    d := c4.(motion := c4.motion.(stopDecel := b.motion.stopDecel));
    if d != c4 {
      hide AfterEdits;
      Then(c, edits, c4, StopDecel, b.motion.stopDecel, d);
      edits := edits + [Edit(StopDecel, b.motion.stopDecel)];
    }
  }

  /** The fields with no limit but their own. */
  function WithPlain(c: ActuatorConfig, b: ActuatorConfig): ActuatorConfig {
    c.(telemetry := c.telemetry.(intervalMs := b.telemetry.intervalMs),
       driver := c.driver.(microsteps := b.driver.microsteps, mode := b.driver.mode),
       calibration := c.calibration.(directionInverted := b.calibration.directionInverted),
       safety := c.safety.(hostTimeoutMs := b.safety.hostTimeoutMs, timeoutAction := b.safety.timeoutAction))
  }

  lemma PlainEdits(c: ActuatorConfig, b: ActuatorConfig) returns (edits: seq<Edit>)
    requires IsValid(c) && IsValid(b)
    requires c.driver.mode == b.driver.mode || b.driver.mode <= 1
    requires c.safety.timeoutAction == b.safety.timeoutAction || b.safety.timeoutAction <= 1
    ensures IsValid(WithPlain(c, b)) && AfterEdits(c, edits) == Some(WithPlain(c, b))
  {
    hide AfterEdits;
    var c1 := c.(telemetry := c.telemetry.(intervalMs := b.telemetry.intervalMs));
    var c2 := c1.(driver := c1.driver.(microsteps := b.driver.microsteps));
    var c3 := c2.(safety := c2.safety.(hostTimeoutMs := b.safety.hostTimeoutMs));
    var c4 := c3.(calibration := c3.calibration.(directionInverted := b.calibration.directionInverted));
    OneEdit(c, TelemetryIntervalMs, b.telemetry.intervalMs, c1);
    edits := [Edit(TelemetryIntervalMs, b.telemetry.intervalMs)];
    Then(c, edits, c1, Microsteps, b.driver.microsteps, c2);
    edits := edits + [Edit(Microsteps, b.driver.microsteps)];
    Then(c, edits, c2, HostTimeoutMs, b.safety.hostTimeoutMs, c3);
    edits := edits + [Edit(HostTimeoutMs, b.safety.hostTimeoutMs)];
    var inverted := if b.calibration.directionInverted then 1 else 0;
    Then(c, edits, c3, DirectionInverted, inverted, c4);
    edits := edits + [Edit(DirectionInverted, inverted)];
    var c5 := c4.(driver := c4.driver.(mode := b.driver.mode));
    if c5 != c4 {
      Then(c, edits, c4, DriverMode, b.driver.mode, c5);
      edits := edits + [Edit(DriverMode, b.driver.mode)];
    }
    var c6 := c5.(safety := c5.safety.(timeoutAction := b.safety.timeoutAction));
    if c6 != c5 {
      Then(c, edits, c5, VelocityTimeoutAction, b.safety.timeoutAction, c6);
      edits := edits + [Edit(VelocityTimeoutAction, b.safety.timeoutAction)];
    }
    assert c6 == WithPlain(c, b);
  }

  // ----- Reachability -----

  /** Every accepted edit leaves each field as it was or with a value that fits an edit. */
  lemma {:induction false} EditsStayConnected(a: ActuatorConfig, c: ActuatorConfig, edits: seq<Edit>)
    requires Connected(a, c) && AfterEdits(c, edits).Some?
    ensures Connected(a, AfterEdits(c, edits).value)
    decreases |edits|
  {
    if edits != [] {
      var d := StageField(c, edits[0].field, edits[0].value).config;
      hide Connected, SetField, Validate;
      EditStaysConnected(a, c, edits[0].field, edits[0].value);
      EditsStayConnected(a, d, edits[1..]);
    }
  }

  lemma EditStaysConnected(a: ActuatorConfig, c: ActuatorConfig, f: ConfigField, v: int32)
    requires Connected(a, c) && SetField(c, f, v).Some?
    ensures Connected(a, SetField(c, f, v).value)
  {}

  lemma PathBetween(a: ActuatorConfig, b: ActuatorConfig) returns (edits: seq<Edit>)
    requires IsValid(a) && IsValid(b) && Connected(a, b)
    ensures AfterEdits(a, edits) == Some(b)
  {
    hide AfterEdits, Validate;
    var c1, c2, c3, c4, step;
    edits, c1 := SoftLimitEdits(a, b);
    step, c2 := CurrentEdits(c1, b);
    Append(a, edits, c1, step, c2);
    edits := edits + step;
    step, c3 := VelocityEdits(c2, b);
    Append(a, edits, c2, step, c3);
    edits := edits + step;
    step, c4 := AccelEdits(c3, b);
    Append(a, edits, c3, step, c4);
    edits := edits + step;
    step := PlainEdits(c4, b);
    Append(a, edits, c4, step, WithPlain(c4, b));
    edits := edits + step;
    SameConfig(a, b, WithPlain(c4, b));
  }

  lemma SameConfig(a: ActuatorConfig, b: ActuatorConfig, d: ActuatorConfig)
    requires Unstageable(a) == Unstageable(b)
    requires d == a.(
      driver := a.driver.(runCurrentMa := b.driver.runCurrentMa, holdCurrentMa := b.driver.holdCurrentMa,
                          microsteps := b.driver.microsteps, mode := b.driver.mode),
      motion := b.motion.(maxTravel := a.motion.maxTravel),
      telemetry := a.telemetry.(intervalMs := b.telemetry.intervalMs),
      calibration := a.calibration.(directionInverted := b.calibration.directionInverted),
      safety := b.safety.(enableTimeoutMs := a.safety.enableTimeoutMs))
    ensures d == b
  {}

  /**
    Between valid configurations, single-field edits that each pass validation lead from one to the other exactly when
    `Connected`.
   */
  lemma ReachableByEdits(a: ActuatorConfig, b: ActuatorConfig)
    requires IsValid(a) && IsValid(b)
    ensures (exists edits :: AfterEdits(a, edits) == Some(b)) <==> Connected(a, b)
  {
    if Connected(a, b) {
      var edits := PathBetween(a, b);
    }
    if edits :| AfterEdits(a, edits) == Some(b) {
      EditsStayConnected(a, a, edits);
    }
  }
}
