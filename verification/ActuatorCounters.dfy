/** The counters count what they are named for, over whole runs, modulo 2^32. */
module ActuatorCounters {
  import opened Bytes
  import opened Config
  import opened Protocol
  import opened ActuatorTypes
  import opened ActuatorSteps
  import opened ActuatorInvariant
  import opened ActuatorAnswers
  import opened ActuatorRefusals
  import opened ActuatorEffects
  import opened ActuatorTrace
  import opened ActuatorRuns

  /** How often each counted thing happened. */
  datatype Tally = Tally(crcErrors: nat, decodeErrors: nat, dropped: nat, duplicates: nat, commands: nat, rejected: nat)

  function One(happened: bool): nat { if happened then 1 else 0 }

  /** Whether a packet is answered with an error. */
  predicate IsRefused(c: Core, env: Env, r: Packet) {
    if IsRepeat(c, r) then c.cache.request != Some(r) else RefusalOf(c, env, r).Some?
  }

  /** What one step adds: of the packets it sends, those that the serial port does not take are dropped. */
  function TallyOf(c: Core, env: Env, a: Action, sent: nat): Tally {
    Tally(
      One(a == FrameFailed(BadCrc)),
      One(a.FrameFailed?),
      Failed(env, sent),
      One(a.Handle? && IsRepeat(c, a.request)),
      One(a.Handle? && !IsRepeat(c, a.request)),
      One(a.Handle? && IsRefused(c, env, a.request)))
  }

  function Sum(t: Tally, u: Tally): Tally {
    Tally(t.crcErrors + u.crcErrors, t.decodeErrors + u.decodeErrors, t.dropped + u.dropped,
          t.duplicates + u.duplicates, t.commands + u.commands, t.rejected + u.rejected)
  }

  function TallyRun(c: Core, inputs: seq<Input>): Tally
    decreases |inputs|
  {
    if inputs == [] then Tally(0, 0, 0, 0, 0, 0)
    else
      var init, last := inputs[..|inputs| - 1], inputs[|inputs| - 1];
      var before := Run(c, init);
      Sum(TallyRun(c, init),
          TallyOf(before, last.env, last.action, |Step(before, last.env, last.action).sent|))
  }

  function Plus(k: Counters, t: Tally): Counters {
    Counters(Add32(k.crcErrors, t.crcErrors), Add32(k.decodeErrors, t.decodeErrors), Add32(k.dropped, t.dropped),
             Add32(k.duplicates, t.duplicates), Add32(k.commands, t.commands), Add32(k.rejected, t.rejected))
  }

  // ----- One step -----

  ghost predicate Counts(c: Core, env: Env, a: Action, w: Work) {
    w.core.counters == Plus(c.counters, TallyOf(c, env, a, |w.sent|))
  }

  predicate Grows(before: uint32, after: uint32, happened: bool) {
    after == if happened then Add32(before, 1) else before
  }

  predicate Grow(k: Counters, k': Counters, c: Core, env: Env, a: Action) {
    && Grows(k.crcErrors, k'.crcErrors, a == FrameFailed(BadCrc))
    && Grows(k.decodeErrors, k'.decodeErrors, a.FrameFailed?)
    && Grows(k.duplicates, k'.duplicates, a.Handle? && IsRepeat(c, a.request))
    && Grows(k.commands, k'.commands, a.Handle? && !IsRepeat(c, a.request))
    && Grows(k.rejected, k'.rejected, a.Handle? && IsRefused(c, env, a.request))
  }

  lemma GrowIsAdd(before: uint32, after: uint32, happened: bool)
    requires Grows(before, after, happened)
    ensures after == Add32(before, One(happened))
  {}

  lemma DropsCounted(before: uint32, w: Work, env: Env)
    requires DroppedBefore(w, env) == before
    ensures w.core.counters.dropped == Add32(before, Failed(env, |w.sent|))
  {
    hide Failed;
  }

  lemma Accounted(c: Core, env: Env, a: Action, w: Work)
    requires DroppedBefore(w, env) == c.counters.dropped && Grow(c.counters, w.core.counters, c, env, a)
    ensures Counts(c, env, a, w)
  {
    hide IsRefused, IsRepeat, DroppedBefore, Failed, Add32, One, Grows;
    var k, k' := c.counters, w.core.counters;
    DropsCounted(k.dropped, w, env);
    GrowIsAdd(k.crcErrors, k'.crcErrors, a == FrameFailed(BadCrc));
    GrowIsAdd(k.decodeErrors, k'.decodeErrors, a.FrameFailed?);
    GrowIsAdd(k.duplicates, k'.duplicates, a.Handle? && IsRepeat(c, a.request));
    GrowIsAdd(k.commands, k'.commands, a.Handle? && !IsRepeat(c, a.request));
    GrowIsAdd(k.rejected, k'.rejected, a.Handle? && IsRefused(c, env, a.request));
  }

  lemma {:induction false} SendAllDrops(w: Work, env: Env, messages: seq<Outgoing>)
    ensures DroppedBefore(SendAll(w, env, Direct, messages), env) == DroppedBefore(w, env)
    decreases |messages|
  {
    hide Send, DroppedBefore;
    if messages != [] {
      var init, last := messages[..|messages| - 1], messages[|messages| - 1];
      SendAllDrops(w, env, init);
      SendCountsDrops(SendAll(w, env, Direct, init), env, Direct, last.number, last.message);
    }
  }

  function SeenAgain(c: Core, env: Env): Core {
    c.(lastHostMs := Now(env), counters := c.counters.(duplicates := Add32(c.counters.duplicates, 1)))
  }

  lemma ReplayCounts(c: Core, env: Env, r: Packet)
    requires IsRepeat(c, r) && c.cache.request == Some(r)
    ensures Counts(c, env, Handle(r), HandlePacket(c, env, r))
  {
    var w := HandlePacket(c, env, r);
    assert w == SendAll(Start(SeenAgain(c, env)), env, Direct, c.cache.responses) by {
      hide SendAll, RejectVia, Dispatch;
    }
    SendAllDrops(Start(SeenAgain(c, env)), env, c.cache.responses);
    SeenDrops(c, SeenAgain(c, env), env);
    hide HandlePacket, SendAll, DroppedBefore, Counts, RefusalOf, Add32;
    Accounted(c, env, Handle(r), w);
  }

  lemma SeenDrops(c: Core, seen: Core, env: Env)
    requires seen.counters.dropped == c.counters.dropped
    ensures DroppedBefore(Start(seen), env) == c.counters.dropped
  {}

  lemma MismatchCounts(c: Core, env: Env, r: Packet)
    requires IsRepeat(c, r) && c.cache.request != Some(r)
    ensures Counts(c, env, Handle(r), HandlePacket(c, env, r))
  {
    var w := HandlePacket(c, env, r);
    var seen := SeenAgain(c, env);
    assert w == RejectVia(Start(seen), env, Direct, r, DuplicateMismatch) by {
      hide SendAll, RejectVia, Dispatch;
    }
    RejectCounts(Start(seen), env, Direct, r, DuplicateMismatch);
    SeenDrops(c, seen, env);
    hide HandlePacket, RejectVia, DroppedBefore, Counts, RefusalOf, Add32;
    Accounted(c, env, Handle(r), w);
  }

  lemma RejectCounts(w: Work, env: Env, via: Writer, r: Packet, code: ErrorCode)
    ensures
      var w' := RejectVia(w, env, via, r, code);
      && DroppedBefore(w', env) == DroppedBefore(w, env)
      && w'.core.counters == w.core.counters.(
           rejected := Add32(w.core.counters.rejected, 1), dropped := w'.core.counters.dropped)
  {
    var counted := w.(core := w.core.(counters := w.core.counters.(rejected := Add32(w.core.counters.rejected, 1))));
    SendCountsDrops(counted, env, via, r.number, Error(r.msgId, code));
    hide Send, Failed;
  }

  lemma PingCounts(w: Work, env: Env, r: Packet)
    requires r.msgId == PING && r.payload == []
    ensures
      var w' := Dispatch(w, env, r);
      && DroppedBefore(w', env) == DroppedBefore(w, env)
      && w'.core.counters == w.core.counters.(dropped := w'.core.counters.dropped)
  {
    assert Dispatch(w, env, r) == Send(Acknowledge(w, env, r), env, Caching, r.number, Pong) by {
      hide ReportDriver, Report, SetFault, Reject, RejectVia, Send, Acknowledge;
    }
    SendCountsDrops(w, env, Caching, r.number, Ack(r.msgId));
    SendCountsDrops(Acknowledge(w, env, r), env, Caching, r.number, Pong);
    hide Dispatch, DroppedBefore;
  }

  /** A request that is not a repeat is counted, and so is its refusal. */
  lemma RequestCounts(c: Core, env: Env, r: Packet)
    requires Invariant(c) && !IsRepeat(c, r)
    ensures Counts(c, env, Handle(r), HandlePacket(c, env, r))
  {
    var w, seen := HandlePacket(c, env, r), Start(Seen(c, env));
    HandledAs(c, env, r);
    RefusedExactly(c, env, r);
    SeenDrops(c, Seen(c, env), env);
    hide Invariant, RefusalOf, Replies, DroppedBefore, Counts, Add32;
    if r.msgId == PING && r.payload == [] {
      PingCounts(seen, env, r);
      PingIsNotRefused(c, env, r);
    } else {
      DispatchAnswers(seen, env, r);
    }
    hide HandlePacket, Dispatch;
    SameDropped(w, Dispatch(seen, env, r), env);
    Accounted(c, env, Handle(r), w);
  }

  lemma PingIsNotRefused(c: Core, env: Env, r: Packet)
    requires r.msgId == PING && r.payload == []
    ensures RefusalOf(c, env, r) == None
  {}

  lemma FrameErrorCounts(c: Core, env: Env, error: FrameError)
    ensures Counts(c, env, FrameFailed(error), RecordFrameError(c, env, error))
  {
    var fault := match error { case BadCrc => CrcFault case BadPayload => PayloadFault case BadVersion => RxFrame };
    var counters := c.counters.(
      decodeErrors := Add32(c.counters.decodeErrors, 1),
      crcErrors := if error == BadCrc then Add32(c.counters.crcErrors, 1) else c.counters.crcErrors);
    var seen := c.(counters := counters);
    FaultsSilently(Start(seen), env, fault);
    SeenDrops(c, seen, env);
    var w := RecordFrameError(c, env, error);
    assert w == SetFault(Start(seen), env, fault, NoWriter) by { hide SetFault; }
    hide SetFault, RecordFrameError, DroppedBefore, Counts, Add32;
    SameDropped(Start(seen), w, env);
    Accounted(c, env, FrameFailed(error), w);
  }

  lemma TelemetryCounts(c: Core, env: Env, number: uint16)
    ensures Counts(c, env, Telemetry(number), SendTelemetry(c, env, number))
  {
    var w := SendTelemetry(c, env, number);
    var sent := Send(Start(c), env, Direct, number, Report(c, env, true));
    SendCountsDrops(Start(c), env, Direct, number, Report(c, env, true));
    SeenDrops(c, c, env);
    hide Send, Report, DroppedBefore, Counts, Add32;
    SameDropped(sent, w, env);
    Accounted(c, env, Telemetry(number), w);
  }

  lemma UpdateCounts(c: Core, env: Env, writer: bool)
    ensures Counts(c, env, Tick(writer), Update(c, env, if writer then Direct else NoWriter))
  {
    var w := Update(c, env, if writer then Direct else NoWriter);
    UpdateIsQuiet(c, env, if writer then Direct else NoWriter);
    SeenDrops(c, c, env);
    hide Update, Replies, DroppedBefore, Counts, Add32;
    Accounted(c, env, Tick(writer), w);
  }

  /** Every step but a restart adds to the counters exactly what it should count. */
  lemma StepCounts(c: Core, env: Env, a: Action)
    requires Invariant(c) && !a.Restart?
    ensures Counts(c, env, a, Step(c, env, a))
  {
    hide Counts, Invariant, HandlePacket, Update, RecordFrameError, SendTelemetry;
    match a
    case Handle(r) =>
      if !IsRepeat(c, r) {
        RequestCounts(c, env, r);
      } else if c.cache.request == Some(r) {
        ReplayCounts(c, env, r);
      } else {
        MismatchCounts(c, env, r);
      }
    case Tick(writer) => UpdateCounts(c, env, writer);
    case FrameFailed(error) => FrameErrorCounts(c, env, error);
    case Telemetry(number) => TelemetryCounts(c, env, number);
  }

  lemma PlusSum(k: Counters, t: Tally, u: Tally)
    ensures Plus(Plus(k, t), u) == Plus(k, Sum(t, u))
  {
    hide Add32;
    AddTwice(k.crcErrors, t.crcErrors, u.crcErrors);
    AddTwice(k.decodeErrors, t.decodeErrors, u.decodeErrors);
    AddTwice(k.dropped, t.dropped, u.dropped);
    AddTwice(k.duplicates, t.duplicates, u.duplicates);
    AddTwice(k.commands, t.commands, u.commands);
    AddTwice(k.rejected, t.rejected, u.rejected);
  }

  lemma AddTwice(a: uint32, b: nat, c: nat)
    ensures Add32(Add32(a, b), c) == Add32(a, b + c)
  {}

  lemma PlusNothing(k: Counters)
    ensures Plus(k, Tally(0, 0, 0, 0, 0, 0)) == k
  {}

  /**
    Over a run the counters grow by what happened in it: damaged frames, dropped packets, repeats, commands and
    refusals, each counted once, modulo 2^32.
   */
  lemma {:induction false} RunCounts(c: Core, inputs: seq<Input>)
    requires Invariant(c) && forall i :: 0 <= i < |inputs| ==> !inputs[i].action.Restart?
    ensures Run(c, inputs).counters == Plus(c.counters, TallyRun(c, inputs))
    decreases |inputs|
  {
    hide Step, Invariant, TallyOf, Plus, Sum;
    if inputs == [] {
      PlusNothing(c.counters);
    } else {
      var init, last := inputs[..|inputs| - 1], inputs[|inputs| - 1];
      RunCounts(c, init);
      RunKeepsInvariant(c, init);
      var before := Run(c, init);
      StepCounts(before, last.env, last.action);
      PlusSum(c.counters, TallyRun(c, init),
              TallyOf(before, last.env, last.action, |Step(before, last.env, last.action).sent|));
    }
  }
}
