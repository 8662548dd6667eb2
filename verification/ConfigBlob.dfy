/** The stored form of a configuration: `serialize_config` and `deserialize_config` of `config_validation.cpp`. */
module ConfigBlob {
  import opened Bytes
  import opened Config

  const CONFIG_BLOB_MAX_SIZE := 128
  const BLOB_SIZE := 104

  function Flag(v: bool): byte { if v then 1 else 0 }

  // ----- One record at a time -----

  function PinsBytes(p: BoardPins): seq<byte> {
    Le16(AsU16(p.stepPin)) + Le16(AsU16(p.dirPin)) + Le16(AsU16(p.enablePin)) + [Flag(p.enableActiveLow)]
    + Le16(AsU16(p.uartRxPin)) + Le16(AsU16(p.uartTxPin)) + Le32(p.uartBaud) + [p.driverAddress]
    + Le16(p.senseResistorMilliohm)
  }

  function MotorBytes(m: MotorSpec): seq<byte> {
    Le16(m.fullStepsPerRev) + Le16(m.gearRatioNum) + Le16(m.gearRatioDen) + Le32(m.unitsPerRev) + Le16(m.maxCurrentMa)
  }

  function DriverBytes(d: DriverConfig): seq<byte> {
    Le16(d.runCurrentMa) + Le16(d.holdCurrentMa) + Le16(d.microsteps) + [d.mode] + [d.blankTime] + [d.toff]
    + [Flag(d.interpolation)]
  }

  function MotionBytes(m: MotionLimits): seq<byte> {
    Le32(m.maxVelocity) + Le32(m.maxAccel) + Le32(AsU32(m.maxTravel)) + [Flag(m.softLimitsEnabled)]
    + Le32(AsU32(m.softMin)) + Le32(AsU32(m.softMax)) + Le32(m.stopDecel)
  }

  function TelemetryBytes(t: TelemetryConfig): seq<byte> {
    Le16(t.intervalMs) + Le16(t.enabledFields) + [Flag(t.binaryStreamEnabled)]
  }

  function CalibrationBytes(c: CalibrationConfig): seq<byte> {
    Le32(AsU32(c.positionOffset)) + Le32(AsU32(c.homePosition)) + [Flag(c.directionInverted)]
    + Le32(AsU32(c.softLimitOrigin))
  }

  function SafetyBytes(s: SafetyConfig): seq<byte> {
    Le32(s.hostTimeoutMs) + [s.timeoutAction] + Le32(s.enableTimeoutMs) + Le16(s.maxAllowedCurrentMa)
    + Le32(s.maxAllowedVelocity) + Le32(s.maxAllowedAccel)
  }

  function ConfigBytes(c: ActuatorConfig): seq<byte> {
    Le16(c.version) + PinsBytes(c.pins) + MotorBytes(c.motor) + DriverBytes(c.driver) + MotionBytes(c.motion)
    + TelemetryBytes(c.telemetry) + CalibrationBytes(c.calibration) + SafetyBytes(c.safety)
  }

  function PinsAt(s: seq<byte>, i: nat): BoardPins
    requires i + 18 <= |s|
  {
    BoardPins(AsI16(U16At(s, i)), AsI16(U16At(s, i + 2)), AsI16(U16At(s, i + 4)), s[i + 6] != 0,
              AsI16(U16At(s, i + 7)), AsI16(U16At(s, i + 9)), U32At(s, i + 11), s[i + 15], U16At(s, i + 16))
  }

  function MotorAt(s: seq<byte>, i: nat): MotorSpec
    requires i + 12 <= |s|
  {
    MotorSpec(U16At(s, i), U16At(s, i + 2), U16At(s, i + 4), U32At(s, i + 6), U16At(s, i + 10), DEFAULT_AXIS_NAME)
  }

  function DriverAt(s: seq<byte>, i: nat): DriverConfig
    requires i + 10 <= |s|
  {
    DriverConfig(U16At(s, i), U16At(s, i + 2), U16At(s, i + 4), s[i + 6], s[i + 7], s[i + 8], s[i + 9] != 0)
  }

  function MotionAt(s: seq<byte>, i: nat): MotionLimits
    requires i + 25 <= |s|
  {
    MotionLimits(U32At(s, i), U32At(s, i + 4), I32At(s, i + 8), s[i + 12] != 0, I32At(s, i + 13), I32At(s, i + 17),
                 U32At(s, i + 21))
  }

  function TelemetryAt(s: seq<byte>, i: nat): TelemetryConfig
    requires i + 5 <= |s|
  {
    TelemetryConfig(U16At(s, i), U16At(s, i + 2), s[i + 4] != 0)
  }

  function CalibrationAt(s: seq<byte>, i: nat): CalibrationConfig
    requires i + 13 <= |s|
  {
    CalibrationConfig(I32At(s, i), I32At(s, i + 4), s[i + 8] != 0, I32At(s, i + 9))
  }

  function SafetyAt(s: seq<byte>, i: nat): SafetyConfig
    requires i + 19 <= |s|
  {
    SafetyConfig(U32At(s, i), s[i + 4], U32At(s, i + 5), U16At(s, i + 9), U32At(s, i + 11), U32At(s, i + 15))
  }

  function ConfigAt(s: seq<byte>): ActuatorConfig
    requires BLOB_SIZE <= |s|
  {
    ActuatorConfig(U16At(s, 0), PinsAt(s, 2), MotorAt(s, 20), DriverAt(s, 32), MotionAt(s, 42), TelemetryAt(s, 67),
                   CalibrationAt(s, 72), SafetyAt(s, 85))
  }

  function Serialized(c: ActuatorConfig): Option<seq<byte>> {
    if IsValid(c) then Some(ConfigBytes(c)) else None
  }

  function Deserialized(s: seq<byte>): Option<ActuatorConfig> {
    if |s| > CONFIG_BLOB_MAX_SIZE || |s| < BLOB_SIZE then None
    else if IsValid(ConfigAt(s)) then Some(ConfigAt(s)) else None
  }

  // ----- Reading back what was written -----

  /** Two strings agree on a stretch, wherever it lies in each. */
  ghost predicate Agree(s: seq<byte>, i: nat, t: seq<byte>, n: nat)
  {
    |t| == n && i + n <= |s| && s[i..i + n] == t
  }

  lemma U16Back(s: seq<byte>, i: nat, v: uint16)
    requires Agree(s, i, Le16(v), 2)
    ensures U16At(s, i) == v
  {
    U16RoundTrip(s, i, v);
  }

  lemma U32Back(s: seq<byte>, i: nat, v: uint32)
    requires Agree(s, i, Le32(v), 4)
    ensures U32At(s, i) == v
  {
    U32RoundTrip(s, i, v);
  }

  /** Splits agreement with a concatenation. */
  lemma AgreeSplit(s: seq<byte>, i: nat, t: seq<byte>, u: seq<byte>)
    requires Agree(s, i, t + u, |t| + |u|)
    ensures Agree(s, i, t, |t|) && Agree(s, i + |t|, u, |u|)
  {
    var w := s[i..i + |t| + |u|];
    assert s[i..i + |t|] == w[..|t|] == t;
    assert s[i + |t|..i + |t| + |u|] == w[|t|..] == u;
  }

  lemma ByteBack(s: seq<byte>, i: nat, v: byte)
    requires Agree(s, i, [v], 1)
    ensures s[i] == v
  {
    assert s[i] == s[i..i + 1][0];
  }

  lemma PinsBack(s: seq<byte>, i: nat, p: BoardPins)
    requires Agree(s, i, PinsBytes(p), 18)
    ensures PinsAt(s, i) == p
  {
    var motorPins := Le16(AsU16(p.stepPin)) + Le16(AsU16(p.dirPin)) + Le16(AsU16(p.enablePin));
    var uartPins := motorPins + [Flag(p.enableActiveLow)] + Le16(AsU16(p.uartRxPin)) + Le16(AsU16(p.uartTxPin));
    AgreeSplit(s, i, uartPins + Le32(p.uartBaud) + [p.driverAddress], Le16(p.senseResistorMilliohm));
    AgreeSplit(s, i, uartPins + Le32(p.uartBaud), [p.driverAddress]);
    AgreeSplit(s, i, uartPins, Le32(p.uartBaud));
    AgreeSplit(s, i, motorPins + [Flag(p.enableActiveLow)] + Le16(AsU16(p.uartRxPin)), Le16(AsU16(p.uartTxPin)));
    AgreeSplit(s, i, motorPins + [Flag(p.enableActiveLow)], Le16(AsU16(p.uartRxPin)));
    AgreeSplit(s, i, motorPins, [Flag(p.enableActiveLow)]);
    AgreeSplit(s, i, Le16(AsU16(p.stepPin)) + Le16(AsU16(p.dirPin)), Le16(AsU16(p.enablePin)));
    AgreeSplit(s, i, Le16(AsU16(p.stepPin)), Le16(AsU16(p.dirPin)));
    U16Back(s, i, AsU16(p.stepPin));
    U16Back(s, i + 2, AsU16(p.dirPin));
    U16Back(s, i + 4, AsU16(p.enablePin));
    ByteBack(s, i + 6, Flag(p.enableActiveLow));
    U16Back(s, i + 7, AsU16(p.uartRxPin));
    U16Back(s, i + 9, AsU16(p.uartTxPin));
    U32Back(s, i + 11, p.uartBaud);
    ByteBack(s, i + 15, p.driverAddress);
    U16Back(s, i + 16, p.senseResistorMilliohm);
  }

  lemma MotorBack(s: seq<byte>, i: nat, m: MotorSpec)
    requires Agree(s, i, MotorBytes(m), 12)
    ensures MotorAt(s, i) == m.(axisName := DEFAULT_AXIS_NAME)
  {
    AgreeSplit(s, i, Le16(m.fullStepsPerRev) + Le16(m.gearRatioNum) + Le16(m.gearRatioDen) + Le32(m.unitsPerRev),
               Le16(m.maxCurrentMa));
    AgreeSplit(s, i, Le16(m.fullStepsPerRev) + Le16(m.gearRatioNum) + Le16(m.gearRatioDen), Le32(m.unitsPerRev));
    AgreeSplit(s, i, Le16(m.fullStepsPerRev) + Le16(m.gearRatioNum), Le16(m.gearRatioDen));
    AgreeSplit(s, i, Le16(m.fullStepsPerRev), Le16(m.gearRatioNum));
    U16Back(s, i, m.fullStepsPerRev);
    U16Back(s, i + 2, m.gearRatioNum);
    U16Back(s, i + 4, m.gearRatioDen);
    U32Back(s, i + 6, m.unitsPerRev);
    U16Back(s, i + 10, m.maxCurrentMa);
  }

  lemma DriverBack(s: seq<byte>, i: nat, d: DriverConfig)
    requires Agree(s, i, DriverBytes(d), 10)
    ensures DriverAt(s, i) == d
  {
    AgreeSplit(s, i, Le16(d.runCurrentMa) + Le16(d.holdCurrentMa) +
               Le16(d.microsteps) + [d.mode] + [d.blankTime] + [d.toff], [Flag(d.interpolation)]);
    AgreeSplit(s, i, Le16(d.runCurrentMa) + Le16(d.holdCurrentMa) +
               Le16(d.microsteps) + [d.mode] + [d.blankTime], [d.toff]);
    AgreeSplit(s, i, Le16(d.runCurrentMa) + Le16(d.holdCurrentMa) + Le16(d.microsteps) + [d.mode], [d.blankTime]);
    AgreeSplit(s, i, Le16(d.runCurrentMa) + Le16(d.holdCurrentMa) + Le16(d.microsteps), [d.mode]);
    AgreeSplit(s, i, Le16(d.runCurrentMa) + Le16(d.holdCurrentMa), Le16(d.microsteps));
    AgreeSplit(s, i, Le16(d.runCurrentMa), Le16(d.holdCurrentMa));
    U16Back(s, i, d.runCurrentMa);
    U16Back(s, i + 2, d.holdCurrentMa);
    U16Back(s, i + 4, d.microsteps);
    ByteBack(s, i + 6, d.mode);
    ByteBack(s, i + 7, d.blankTime);
    ByteBack(s, i + 8, d.toff);
    ByteBack(s, i + 9, Flag(d.interpolation));
  }

  lemma MotionBack(s: seq<byte>, i: nat, m: MotionLimits)
    requires Agree(s, i, MotionBytes(m), 25)
    ensures MotionAt(s, i) == m
  {
    AgreeSplit(s, i, Le32(m.maxVelocity) + Le32(m.maxAccel) + Le32(AsU32(m.maxTravel)) + [Flag(m.softLimitsEnabled)] +
               Le32(AsU32(m.softMin)) + Le32(AsU32(m.softMax)), Le32(m.stopDecel));
    AgreeSplit(s, i, Le32(m.maxVelocity) + Le32(m.maxAccel) + Le32(AsU32(m.maxTravel)) + [Flag(m.softLimitsEnabled)] +
               Le32(AsU32(m.softMin)), Le32(AsU32(m.softMax)));
    AgreeSplit(s, i, Le32(m.maxVelocity) + Le32(m.maxAccel) + Le32(AsU32(m.maxTravel)) + [Flag(m.softLimitsEnabled)],
               Le32(AsU32(m.softMin)));
    AgreeSplit(s, i, Le32(m.maxVelocity) + Le32(m.maxAccel) + Le32(AsU32(m.maxTravel)), [Flag(m.softLimitsEnabled)]);
    AgreeSplit(s, i, Le32(m.maxVelocity) + Le32(m.maxAccel), Le32(AsU32(m.maxTravel)));
    AgreeSplit(s, i, Le32(m.maxVelocity), Le32(m.maxAccel));
    U32Back(s, i, m.maxVelocity);
    U32Back(s, i + 4, m.maxAccel);
    U32Back(s, i + 8, AsU32(m.maxTravel));
    ByteBack(s, i + 12, Flag(m.softLimitsEnabled));
    U32Back(s, i + 13, AsU32(m.softMin));
    U32Back(s, i + 17, AsU32(m.softMax));
    U32Back(s, i + 21, m.stopDecel);
  }

  lemma TelemetryBack(s: seq<byte>, i: nat, t: TelemetryConfig)
    requires Agree(s, i, TelemetryBytes(t), 5)
    ensures TelemetryAt(s, i) == t
  {
    AgreeSplit(s, i, Le16(t.intervalMs) + Le16(t.enabledFields), [Flag(t.binaryStreamEnabled)]);
    AgreeSplit(s, i, Le16(t.intervalMs), Le16(t.enabledFields));
    U16Back(s, i, t.intervalMs);
    U16Back(s, i + 2, t.enabledFields);
    ByteBack(s, i + 4, Flag(t.binaryStreamEnabled));
  }

  lemma CalibrationBack(s: seq<byte>, i: nat, c: CalibrationConfig)
    requires Agree(s, i, CalibrationBytes(c), 13)
    ensures CalibrationAt(s, i) == c
  {
    AgreeSplit(s, i, Le32(AsU32(c.positionOffset)) + Le32(AsU32(c.homePosition)) + [Flag(c.directionInverted)],
               Le32(AsU32(c.softLimitOrigin)));
    AgreeSplit(s, i, Le32(AsU32(c.positionOffset)) + Le32(AsU32(c.homePosition)), [Flag(c.directionInverted)]);
    AgreeSplit(s, i, Le32(AsU32(c.positionOffset)), Le32(AsU32(c.homePosition)));
    U32Back(s, i, AsU32(c.positionOffset));
    U32Back(s, i + 4, AsU32(c.homePosition));
    ByteBack(s, i + 8, Flag(c.directionInverted));
    U32Back(s, i + 9, AsU32(c.softLimitOrigin));
  }

  lemma SafetyBack(s: seq<byte>, i: nat, f: SafetyConfig)
    requires Agree(s, i, SafetyBytes(f), 19)
    ensures SafetyAt(s, i) == f
  {
    AgreeSplit(s, i, Le32(f.hostTimeoutMs) + [f.timeoutAction] + Le32(f.enableTimeoutMs) +
               Le16(f.maxAllowedCurrentMa) + Le32(f.maxAllowedVelocity), Le32(f.maxAllowedAccel));
    AgreeSplit(s, i, Le32(f.hostTimeoutMs) + [f.timeoutAction] + Le32(f.enableTimeoutMs) + Le16(f.maxAllowedCurrentMa),
               Le32(f.maxAllowedVelocity));
    AgreeSplit(s, i, Le32(f.hostTimeoutMs) + [f.timeoutAction] + Le32(f.enableTimeoutMs), Le16(f.maxAllowedCurrentMa));
    AgreeSplit(s, i, Le32(f.hostTimeoutMs) + [f.timeoutAction], Le32(f.enableTimeoutMs));
    AgreeSplit(s, i, Le32(f.hostTimeoutMs), [f.timeoutAction]);
    U32Back(s, i, f.hostTimeoutMs);
    ByteBack(s, i + 4, f.timeoutAction);
    U32Back(s, i + 5, f.enableTimeoutMs);
    U16Back(s, i + 9, f.maxAllowedCurrentMa);
    U32Back(s, i + 11, f.maxAllowedVelocity);
    U32Back(s, i + 15, f.maxAllowedAccel);
  }

  /** The name of the axis is not stored. */
  function Normalised(c: ActuatorConfig): ActuatorConfig {
    c.(motor := c.motor.(axisName := DEFAULT_AXIS_NAME))
  }

  lemma BlobSize(c: ActuatorConfig)
    ensures |ConfigBytes(c)| == BLOB_SIZE
  {}

  lemma ConfigBack(s: seq<byte>, c: ActuatorConfig)
    requires Agree(s, 0, ConfigBytes(c), BLOB_SIZE)
    ensures ConfigAt(s) == Normalised(c)
  {
    hide Agree, PinsBytes, MotorBytes, DriverBytes, MotionBytes, TelemetryBytes, CalibrationBytes, SafetyBytes,
         PinsAt, MotorAt, DriverAt, MotionAt, TelemetryAt, CalibrationAt, SafetyAt;
    SectionSizes(c);
    var v, p, m, d, l, t, k, f := Le16(c.version), PinsBytes(c.pins), MotorBytes(c.motor), DriverBytes(c.driver),
      MotionBytes(c.motion), TelemetryBytes(c.telemetry), CalibrationBytes(c.calibration), SafetyBytes(c.safety);
    AgreeSplit(s, 0, v + p + m + d + l + t + k, f);
    AgreeSplit(s, 0, v + p + m + d + l + t, k);
    AgreeSplit(s, 0, v + p + m + d + l, t);
    AgreeSplit(s, 0, v + p + m + d, l);
    AgreeSplit(s, 0, v + p + m, d);
    AgreeSplit(s, 0, v + p, m);
    AgreeSplit(s, 0, v, p);
    U16Back(s, 0, c.version);
    PinsBack(s, 2, c.pins);
    MotorBack(s, 20, c.motor);
    DriverBack(s, 32, c.driver);
    MotionBack(s, 42, c.motion);
    TelemetryBack(s, 67, c.telemetry);
    CalibrationBack(s, 72, c.calibration);
    SafetyBack(s, 85, c.safety);
  }

  lemma SectionSizes(c: ActuatorConfig)
    ensures |PinsBytes(c.pins)| == 18 && |MotorBytes(c.motor)| == 12 && |DriverBytes(c.driver)| == 10
    ensures |MotionBytes(c.motion)| == 25 && |TelemetryBytes(c.telemetry)| == 5
    ensures |CalibrationBytes(c.calibration)| == 13 && |SafetyBytes(c.safety)| == 19
  {}

  /** A valid configuration is stored in 104 bytes that read back as it, but for the name of the axis. */
  lemma StoredConfigReadsBack(c: ActuatorConfig)
    requires IsValid(c)
    ensures |Serialized(c).value| == BLOB_SIZE
    ensures Deserialized(Serialized(c).value) == Some(Normalised(c)) && IsValid(Normalised(c))
  {
    hide ConfigBytes, ConfigAt;
    BlobSize(c);
    var s := ConfigBytes(c);
    assert s[0..BLOB_SIZE] == s;
    ConfigBack(s, c);
    NormalisedIsValid(c);
  }

  lemma NormalisedIsValid(c: ActuatorConfig)
    ensures IsValid(Normalised(c)) <==> IsValid(c)
  {}

  // ----- The buffers: an offset moves through the blob -----

  method PutU16(out: array<byte>, offset: nat, v: uint16) returns (next: nat)
    requires offset + 2 <= out.Length
    modifies out
    ensures next == offset + 2 && out[..next] == old(out[..offset]) + Le16(v)
    ensures forall j :: next <= j < out.Length ==> out[j] == old(out[j])
  {
    ghost var before := out[..];
    WriteU16(out, offset, v);
    next := offset + 2;
    assert out[..][..next] == before[..offset] + Le16(v);
  }

  method PutU32(out: array<byte>, offset: nat, v: uint32) returns (next: nat)
    requires offset + 4 <= out.Length
    modifies out
    ensures next == offset + 4 && out[..next] == old(out[..offset]) + Le32(v)
    ensures forall j :: next <= j < out.Length ==> out[j] == old(out[j])
  {
    ghost var before := out[..];
    WriteU32(out, offset, v);
    next := offset + 4;
    assert out[..][..next] == before[..offset] + Le32(v);
  }

  method PutU8(out: array<byte>, offset: nat, v: byte) returns (next: nat)
    requires offset + 1 <= out.Length
    modifies out
    ensures next == offset + 1 && out[..next] == old(out[..offset]) + [v]
    ensures forall j :: next <= j < out.Length ==> out[j] == old(out[j])
  {
    out[offset] := v;
    next := offset + 1;
    assert out[..next] == out[..offset] + [v];
  }

  method PutPins(out: array<byte>, offset: nat, p: BoardPins) returns (next: nat)
    requires offset + 18 <= out.Length
    modifies out
    ensures next == offset + 18 && out[..next] == old(out[..offset]) + PinsBytes(p)
    ensures forall j :: next <= j < out.Length ==> out[j] == old(out[j])
  {
    next := offset;
    next := PutU16(out, next, AsU16(p.stepPin));
    next := PutU16(out, next, AsU16(p.dirPin));
    next := PutU16(out, next, AsU16(p.enablePin));
    next := PutU8(out, next, Flag(p.enableActiveLow));
    next := PutU16(out, next, AsU16(p.uartRxPin));
    next := PutU16(out, next, AsU16(p.uartTxPin));
    next := PutU32(out, next, p.uartBaud);
    next := PutU8(out, next, p.driverAddress);
    next := PutU16(out, next, p.senseResistorMilliohm);
  }

  method PutMotor(out: array<byte>, offset: nat, m: MotorSpec) returns (next: nat)
    requires offset + 12 <= out.Length
    modifies out
    ensures next == offset + 12 && out[..next] == old(out[..offset]) + MotorBytes(m)
    ensures forall j :: next <= j < out.Length ==> out[j] == old(out[j])
  {
    next := offset;
    next := PutU16(out, next, m.fullStepsPerRev);
    next := PutU16(out, next, m.gearRatioNum);
    next := PutU16(out, next, m.gearRatioDen);
    next := PutU32(out, next, m.unitsPerRev);
    next := PutU16(out, next, m.maxCurrentMa);
  }

  method PutDriver(out: array<byte>, offset: nat, d: DriverConfig) returns (next: nat)
    requires offset + 10 <= out.Length
    modifies out
    ensures next == offset + 10 && out[..next] == old(out[..offset]) + DriverBytes(d)
    ensures forall j :: next <= j < out.Length ==> out[j] == old(out[j])
  {
    next := offset;
    next := PutU16(out, next, d.runCurrentMa);
    next := PutU16(out, next, d.holdCurrentMa);
    next := PutU16(out, next, d.microsteps);
    next := PutU8(out, next, d.mode);
    next := PutU8(out, next, d.blankTime);
    next := PutU8(out, next, d.toff);
    next := PutU8(out, next, Flag(d.interpolation));
  }

  method PutMotion(out: array<byte>, offset: nat, m: MotionLimits) returns (next: nat)
    requires offset + 25 <= out.Length
    modifies out
    ensures next == offset + 25 && out[..next] == old(out[..offset]) + MotionBytes(m)
    ensures forall j :: next <= j < out.Length ==> out[j] == old(out[j])
  {
    next := offset;
    next := PutU32(out, next, m.maxVelocity);
    next := PutU32(out, next, m.maxAccel);
    next := PutU32(out, next, AsU32(m.maxTravel));
    next := PutU8(out, next, Flag(m.softLimitsEnabled));
    next := PutU32(out, next, AsU32(m.softMin));
    next := PutU32(out, next, AsU32(m.softMax));
    next := PutU32(out, next, m.stopDecel);
  }

  method PutTelemetry(out: array<byte>, offset: nat, t: TelemetryConfig) returns (next: nat)
    requires offset + 5 <= out.Length
    modifies out
    ensures next == offset + 5 && out[..next] == old(out[..offset]) + TelemetryBytes(t)
    ensures forall j :: next <= j < out.Length ==> out[j] == old(out[j])
  {
    next := offset;
    next := PutU16(out, next, t.intervalMs);
    next := PutU16(out, next, t.enabledFields);
    next := PutU8(out, next, Flag(t.binaryStreamEnabled));
  }

  method PutCalibration(out: array<byte>, offset: nat, c: CalibrationConfig) returns (next: nat)
    requires offset + 13 <= out.Length
    modifies out
    ensures next == offset + 13 && out[..next] == old(out[..offset]) + CalibrationBytes(c)
    ensures forall j :: next <= j < out.Length ==> out[j] == old(out[j])
  {
    next := offset;
    next := PutU32(out, next, AsU32(c.positionOffset));
    next := PutU32(out, next, AsU32(c.homePosition));
    next := PutU8(out, next, Flag(c.directionInverted));
    next := PutU32(out, next, AsU32(c.softLimitOrigin));
  }

  method PutSafety(out: array<byte>, offset: nat, f: SafetyConfig) returns (next: nat)
    requires offset + 19 <= out.Length
    modifies out
    ensures next == offset + 19 && out[..next] == old(out[..offset]) + SafetyBytes(f)
    ensures forall j :: next <= j < out.Length ==> out[j] == old(out[j])
  {
    next := offset;
    next := PutU32(out, next, f.hostTimeoutMs);
    next := PutU8(out, next, f.timeoutAction);
    next := PutU32(out, next, f.enableTimeoutMs);
    next := PutU16(out, next, f.maxAllowedCurrentMa);
    next := PutU32(out, next, f.maxAllowedVelocity);
    next := PutU32(out, next, f.maxAllowedAccel);
  }

  method SerializeConfig(c: ActuatorConfig, out: array<byte>, capacity: nat) returns (ok: bool, length: nat)
    requires capacity <= out.Length
    modifies out
    ensures ok <==> capacity >= CONFIG_BLOB_MAX_SIZE && Serialized(c).Some?
    ensures ok ==> length <= capacity && out[..length] == Serialized(c).value
    ensures ok ==> forall j :: length <= j < capacity ==> out[j] == 0
    ensures !ok ==> out[..] == old(out[..])
  {
    hide PinsBytes, MotorBytes, DriverBytes, MotionBytes, TelemetryBytes, CalibrationBytes, SafetyBytes, Validate;
    if capacity < CONFIG_BLOB_MAX_SIZE || Validate(c).Invalid? {
      return false, 0;
    }
    forall i | 0 <= i < capacity {
      out[i] := 0;
    }
    length := 0;
    length := PutU16(out, length, c.version);
    length := PutPins(out, length, c.pins);
    length := PutMotor(out, length, c.motor);
    length := PutDriver(out, length, c.driver);
    length := PutMotion(out, length, c.motion);
    length := PutTelemetry(out, length, c.telemetry);
    length := PutCalibration(out, length, c.calibration);
    length := PutSafety(out, length, c.safety);
    return true, length;
  }

  method GetPins(data: array<byte>, offset: nat) returns (r: BoardPins, next: nat)
    requires offset + 18 <= data.Length
    ensures r == PinsAt(data[..], offset) && next == offset + 18
  {
    next := offset;
    var step := ReadU16(data, next);
    next := next + 2;
    var dir := ReadU16(data, next);
    next := next + 2;
    var enable := ReadU16(data, next);
    next := next + 2;
    var activeLow := data[next];
    next := next + 1;
    var rx := ReadU16(data, next);
    next := next + 2;
    var tx := ReadU16(data, next);
    next := next + 2;
    var baud := ReadU32(data, next);
    next := next + 4;
    var address := data[next];
    next := next + 1;
    var sense := ReadU16(data, next);
    next := next + 2;
    r := BoardPins(AsI16(step), AsI16(dir), AsI16(enable), activeLow != 0, AsI16(rx), AsI16(tx), baud, address, sense);
  }

  method GetMotor(data: array<byte>, offset: nat) returns (r: MotorSpec, next: nat)
    requires offset + 12 <= data.Length
    ensures r == MotorAt(data[..], offset) && next == offset + 12
  {
    next := offset;
    var steps := ReadU16(data, next);
    next := next + 2;
    var num := ReadU16(data, next);
    next := next + 2;
    var den := ReadU16(data, next);
    next := next + 2;
    var units := ReadU32(data, next);
    next := next + 4;
    var current := ReadU16(data, next);
    next := next + 2;
    r := MotorSpec(steps, num, den, units, current, DEFAULT_AXIS_NAME);
  }

  method GetDriver(data: array<byte>, offset: nat) returns (r: DriverConfig, next: nat)
    requires offset + 10 <= data.Length
    ensures r == DriverAt(data[..], offset) && next == offset + 10
  {
    next := offset;
    var run := ReadU16(data, next);
    next := next + 2;
    var hold := ReadU16(data, next);
    next := next + 2;
    var microsteps := ReadU16(data, next);
    next := next + 2;
    var mode := data[next];
    next := next + 1;
    var blank := data[next];
    next := next + 1;
    var toff := data[next];
    next := next + 1;
    var interpolation := data[next];
    next := next + 1;
    r := DriverConfig(run, hold, microsteps, mode, blank, toff, interpolation != 0);
  }

  method GetMotion(data: array<byte>, offset: nat) returns (r: MotionLimits, next: nat)
    requires offset + 25 <= data.Length
    ensures r == MotionAt(data[..], offset) && next == offset + 25
  {
    next := offset;
    var velocity := ReadU32(data, next);
    next := next + 4;
    var accel := ReadU32(data, next);
    next := next + 4;
    var travel := ReadU32(data, next);
    next := next + 4;
    var limited := data[next];
    next := next + 1;
    var low := ReadU32(data, next);
    next := next + 4;
    var high := ReadU32(data, next);
    next := next + 4;
    var decel := ReadU32(data, next);
    next := next + 4;
    r := MotionLimits(velocity, accel, AsI32(travel), limited != 0, AsI32(low), AsI32(high), decel);
  }

  method GetTelemetry(data: array<byte>, offset: nat) returns (r: TelemetryConfig, next: nat)
    requires offset + 5 <= data.Length
    ensures r == TelemetryAt(data[..], offset) && next == offset + 5
  {
    next := offset;
    var interval := ReadU16(data, next);
    next := next + 2;
    var fields := ReadU16(data, next);
    next := next + 2;
    var stream := data[next];
    next := next + 1;
    r := TelemetryConfig(interval, fields, stream != 0);
  }

  method GetCalibration(data: array<byte>, offset: nat) returns (r: CalibrationConfig, next: nat)
    requires offset + 13 <= data.Length
    ensures r == CalibrationAt(data[..], offset) && next == offset + 13
  {
    next := offset;
    var position := ReadU32(data, next);
    next := next + 4;
    var home := ReadU32(data, next);
    next := next + 4;
    var inverted := data[next];
    next := next + 1;
    var origin := ReadU32(data, next);
    next := next + 4;
    r := CalibrationConfig(AsI32(position), AsI32(home), inverted != 0, AsI32(origin));
  }

  method GetSafety(data: array<byte>, offset: nat) returns (r: SafetyConfig, next: nat)
    requires offset + 19 <= data.Length
    ensures r == SafetyAt(data[..], offset) && next == offset + 19
  {
    next := offset;
    var timeout := ReadU32(data, next);
    next := next + 4;
    var action := data[next];
    next := next + 1;
    var enableTimeout := ReadU32(data, next);
    next := next + 4;
    var current := ReadU16(data, next);
    next := next + 2;
    var velocity := ReadU32(data, next);
    next := next + 4;
    var accel := ReadU32(data, next);
    next := next + 4;
    r := SafetyConfig(timeout, action, enableTimeout, current, velocity, accel);
  }

  /** Reads a whole blob before it compares the length with one, so from 96 on the buffer has to hold one. */
  method DeserializeConfig(data: array<byte>, length: nat) returns (config: Option<ActuatorConfig>)
    requires length <= data.Length && (length >= 96 ==> BLOB_SIZE <= data.Length)
    ensures config == Deserialized(data[..length])
  {
    hide PinsAt, MotorAt, DriverAt, MotionAt, TelemetryAt, CalibrationAt, SafetyAt, Validate;
    if length > CONFIG_BLOB_MAX_SIZE || length < 96 {
      return None;
    }
    var version := ReadU16(data, 0);
    var pins, motor, driver, motion, telemetry, calibration, safety;
    var offset := 2;
    pins, offset := GetPins(data, offset);
    motor, offset := GetMotor(data, offset);
    driver, offset := GetDriver(data, offset);
    motion, offset := GetMotion(data, offset);
    telemetry, offset := GetTelemetry(data, offset);
    calibration, offset := GetCalibration(data, offset);
    safety, offset := GetSafety(data, offset);
    var decoded := ActuatorConfig(version, pins, motor, driver, motion, telemetry, calibration, safety);
    if offset > length || Validate(decoded).Invalid? {
      if offset <= length {
        SameBlob(data[..], length);
      }
      return None;
    }
    SameBlob(data[..], length);
    return Some(decoded);
  }

  lemma SameBlob(s: seq<byte>, length: nat)
    requires BLOB_SIZE <= length <= |s|
    ensures ConfigAt(s[..length]) == ConfigAt(s)
  {}
}
