/**
  The two-slot configuration store of `config_store.cpp` over the keys that `main.cpp` writes one after another, as an
  atomic register that survives the loss of power between any two of those writes and in the middle of one.
 */
module ConfigStore {
  import opened Bytes
  import opened Crc
  import opened Config
  import opened ConfigBlob

  const MAGIC: uint32 := 0x44414654
  const VALID_MARKER: uint32 := 0xA5D0C0DE
  const META_SIZE := 16

  /** The three keys of a slot; a missing key reads as zero or as no bytes. */
  datatype Slot = Slot(marker: uint32, meta: seq<byte>, payload: seq<byte>)

  datatype Flash = Flash(slot0: Slot, slot1: Slot) {
    function At(i: nat): Slot
      requires i < 2
    {
      if i == 0 then slot0 else slot1
    }

    function With(i: nat, s: Slot): Flash
      requires i < 2
    {
      if i == 0 then Flash(s, slot1) else Flash(slot0, s)
    }
  }

  const NO_SLOT := Slot(0, [], [])
  const EMPTY_FLASH := Flash(NO_SLOT, NO_SLOT)

  datatype Stored = Stored(config: ActuatorConfig, generation: uint32)

  // ----- One slot -----

  function MetaBytes(length: uint16, generation: uint32, crc: uint16): seq<byte> {
    Le32(MAGIC) + Le16(CONFIG_VERSION) + Le16(length) + Le32(generation) + Le16(crc) + Le16(0)
  }

  /** What a buffer of a given size receives: a key that does not fit reads as no bytes. */
  function ReadKey(key: seq<byte>, capacity: nat): seq<byte> { if |key| > capacity then [] else key }

  predicate MetaMatches(meta: seq<byte>, payload: seq<byte>) {
    && |meta| == META_SIZE
    && U32At(meta, 0) == MAGIC
    && U16At(meta, 4) == CONFIG_VERSION
    && U16At(meta, 6) == |payload| <= CONFIG_BLOB_MAX_SIZE
    && U16At(meta, 12) == Crc16(payload)
  }

  function DecodedSlot(s: Slot): Option<Stored> {
    var meta, payload := ReadKey(s.meta, META_SIZE), ReadKey(s.payload, CONFIG_BLOB_MAX_SIZE);
    if s.marker != VALID_MARKER || !MetaMatches(meta, payload) then None
    else match Deserialized(payload)
      case None => None
      case Some(c) => Some(Stored(c, U32At(meta, 8)))
  }

  /** The slot as a finished write leaves it. */
  function WrittenSlot(c: ActuatorConfig, generation: uint32): Slot
  {
    var payload := ConfigBytes(c);
    BlobSize(c);
    Slot(VALID_MARKER, MetaBytes(|payload|, generation, Crc16(payload)), payload)
  }

  lemma MetaFields(length: uint16, generation: uint32, crc: uint16)
    ensures
      var m := MetaBytes(length, generation, crc);
      && |m| == META_SIZE && U32At(m, 0) == MAGIC && U16At(m, 4) == CONFIG_VERSION && U16At(m, 6) == length
      && U32At(m, 8) == generation && U16At(m, 12) == crc
  {
    var m := MetaBytes(length, generation, crc);
    assert m[0..4] == Le32(MAGIC) && m[4..6] == Le16(CONFIG_VERSION) && m[6..8] == Le16(length);
    assert m[8..12] == Le32(generation) && m[12..14] == Le16(crc);
    U32RoundTrip(m, 0, MAGIC);
    U16RoundTrip(m, 4, CONFIG_VERSION);
    U16RoundTrip(m, 6, length);
    U32RoundTrip(m, 8, generation);
    U16RoundTrip(m, 12, crc);
  }

  lemma WrittenSlotDecodes(c: ActuatorConfig, generation: uint32)
    requires IsValid(c)
    ensures DecodedSlot(WrittenSlot(c, generation)) == Some(Stored(Normalised(c), generation))
  {
    hide ConfigBytes, MetaBytes, Crc16, Deserialized, Validate;
    BlobSize(c);
    MetaFields(|ConfigBytes(c)|, generation, Crc16(ConfigBytes(c)));
    StoredConfigReadsBack(c);
  }

  // ----- Both slots -----

  /** Serial number comparison of generations, after section 3.2 of RFC 1982. */
  predicate Newer(candidate: uint32, current: uint32) {
    candidate != current && AsI32(Sub32(candidate, current)) > 0
  }

  function NewestSlot(f: Flash): (i: Option<nat>)
    ensures i.Some? ==> i.value < 2
  {
    match (DecodedSlot(f.slot0), DecodedSlot(f.slot1))
    case (None, None) => None
    case (Some(_), None) => Some(0)
    case (None, Some(_)) => Some(1)
    case (Some(a), Some(b)) => if Newer(b.generation, a.generation) then Some(1) else Some(0)
  }

  function Loaded(f: Flash): Option<Stored> {
    match NewestSlot(f) case None => None case Some(i) => DecodedSlot(f.At(i))
  }

  function TargetSlot(f: Flash): (i: nat)
    ensures i < 2
  {
    if DecodedSlot(f.slot0).None? then 0
    else if DecodedSlot(f.slot1).None? then 1
    else if NewestSlot(f) == Some(0) then 1 else 0
  }

  function NextGeneration(f: Flash): uint32 {
    match Loaded(f) case None => 1 case Some(stored) => Add32(stored.generation, 1)
  }

  // ----- Writing, and being interrupted -----

  /** How far an unfinished slot write got, with whatever it left in the key it was writing. */
  datatype Interruption = NotStarted | InPayload(left: seq<byte>) | InMeta(left: seq<byte>) | BeforeMarker

  function Interrupted(s: Slot, written: Slot, at: Interruption): Slot { LeftBehind(0, s, written, at) }

  /** The same when the marker stands as given while the other keys are written. */
  function LeftBehind(marker: uint32, s: Slot, written: Slot, at: Interruption): Slot {
    match at
    case NotStarted => s
    case InPayload(left) => Slot(marker, s.meta, left)
    case InMeta(left) => Slot(marker, left, written.payload)
    case BeforeMarker => Slot(marker, written.meta, written.payload)
  }

  datatype Erased = Erased(marker: bool, meta: bool, payload: bool)

  function Erase(s: Slot, e: Erased): Slot {
    Slot(if e.marker then 0 else s.marker, if e.meta then [] else s.meta, if e.payload then [] else s.payload)
  }

  datatype Event =
    | Save(config: ActuatorConfig)
    | SaveCutShort(config: ActuatorConfig, at: Interruption)
    | Clear
    | ClearCutShort(erased0: Erased, erased1: Erased)
    | Reboot

  function Apply(f: Flash, e: Event): Flash {
    match e
    case Save(c) =>
      if IsValid(c) then f.With(TargetSlot(f), WrittenSlot(c, NextGeneration(f))) else f
    case SaveCutShort(c, at) =>
      if IsValid(c) then
        f.With(TargetSlot(f), Interrupted(f.At(TargetSlot(f)), WrittenSlot(c, NextGeneration(f)), at))
      else f
    case Clear => EMPTY_FLASH
    case ClearCutShort(e0, e1) => Flash(Erase(f.slot0, e0), Erase(f.slot1, e1))
    case Reboot => f
  }

  function Run(f: Flash, events: seq<Event>): Flash
    decreases |events|
  {
    if events == [] then f else Apply(Run(f, events[..|events| - 1]), events[|events| - 1])
  }

  // ----- The invariant of every history -----

  /** Two valid slots always hold consecutive generations, wrapping at 2^32. */
  predicate Consecutive(f: Flash) {
    match (DecodedSlot(f.slot0), DecodedSlot(f.slot1))
    case (Some(a), Some(b)) => b.generation == Add32(a.generation, 1) || a.generation == Add32(b.generation, 1)
    case _ => true
  }

  /** Of two consecutive generations the comparison picks the later, across the wrap as well. */
  lemma NewerAcrossWrap(g: uint32)
    ensures Newer(Add32(g, 1), g) && !Newer(g, Add32(g, 1))
  {}

  predicate Touches(e: Erased) { e.marker || e.meta || e.payload }

  /** A slot of which any key is gone decodes to nothing. */
  lemma ErasedSlot(s: Slot, e: Erased)
    ensures DecodedSlot(Erase(s, e)) == if Touches(e) then None else DecodedSlot(s)
  {
    hide Crc16, ConfigAt, Validate;
  }

  lemma InterruptedSlot(s: Slot, written: Slot, at: Interruption)
    ensures DecodedSlot(Interrupted(s, written, at)) == if at.NotStarted? then DecodedSlot(s) else None
  {
    hide MetaMatches, Deserialized;
  }

  /** The register's value, and the value it would fall back to without its newest slot. */
  datatype Register = Register(current: Option<ActuatorConfig>, shadow: Option<ActuatorConfig>)

  function ConfigOf(s: Option<Stored>): Option<ActuatorConfig> {
    match s case None => None case Some(stored) => Some(stored.config)
  }

  function Abstract(f: Flash): Register {
    Register(ConfigOf(Loaded(f)),
             match NewestSlot(f) case None => None case Some(i) => ConfigOf(DecodedSlot(f.At(1 - i))))
  }

  /** The atomic register: a save happens when its marker is written and not at all before. */
  predicate RegisterStep(r: Register, e: Event, next: Register) {
    match e
    case Save(c) => next == if IsValid(c) then Register(Some(Normalised(c)), r.current) else r
    case SaveCutShort(_, _) => next == r || next == Register(r.current, None)
    case Clear => next == Register(None, None)
    case ClearCutShort(_, _) =>
      || next == r || next == Register(r.current, None) || next == Register(r.shadow, None)
      || next == Register(None, None)
    case Reboot => next == r
  }

  /** A save, finished or not, leaves alone the slot that a load would return. */
  lemma SaveSparesNewest(f: Flash, e: Event)
    requires e.Save? || e.SaveCutShort?
    ensures NewestSlot(f).Some? ==> Apply(f, e).At(NewestSlot(f).value) == f.At(NewestSlot(f).value)
  {
    TargetIsNotNewest(f);
    hide DecodedSlot, NewestSlot, TargetSlot, NextGeneration, WrittenSlot, Interrupted, Validate;
  }

  lemma TargetIsNotNewest(f: Flash)
    ensures NewestSlot(f) != Some(TargetSlot(f))
  {
    hide DecodedSlot;
  }

  /** Every event keeps the generations consecutive and acts on the store as it does on the register. */
  lemma EventRefines(f: Flash, e: Event)
    requires Consecutive(f)
    ensures Consecutive(Apply(f, e))
    ensures RegisterStep(Abstract(f), e, Abstract(Apply(f, e)))
  {
    hide DecodedSlot, WrittenSlot, Interrupted, Erase, Validate;
    match e
    case Save(c) =>
      if IsValid(c) {
        SaveRefines(f, c);
      }
    case SaveCutShort(c, at) =>
      if IsValid(c) {
        InterruptedSlot(f.At(TargetSlot(f)), WrittenSlot(c, NextGeneration(f)), at);
        LosingTarget(f, Interrupted(f.At(TargetSlot(f)), WrittenSlot(c, NextGeneration(f)), at));
      }
    case Clear =>
      NoSlotDecodes();
    case ClearCutShort(e0, e1) =>
      ErasedSlot(f.slot0, e0);
      ErasedSlot(f.slot1, e1);
    case Reboot =>
  }

  lemma NoSlotDecodes()
    ensures DecodedSlot(NO_SLOT) == None
  {}

  lemma SaveRefines(f: Flash, c: ActuatorConfig)
    requires Consecutive(f) && IsValid(c)
    ensures
      var f' := f.With(TargetSlot(f), WrittenSlot(c, NextGeneration(f)));
      && Consecutive(f')
      && Loaded(f') == Some(Stored(Normalised(c), NextGeneration(f)))
      && Abstract(f') == Register(Some(Normalised(c)), Abstract(f).current)
  {
    hide DecodedSlot, WrittenSlot, Validate;
    WrittenSlotDecodes(c, NextGeneration(f));
    if Loaded(f).Some? {
      NewerAcrossWrap(Loaded(f).value.generation);
    }
  }

  lemma LosingTarget(f: Flash, s: Slot)
    requires Consecutive(f)
    requires DecodedSlot(s) == None || DecodedSlot(s) == DecodedSlot(f.At(TargetSlot(f)))
    ensures
      var f' := f.With(TargetSlot(f), s);
      && Consecutive(f')
      && Loaded(f') == Loaded(f)
      && (Abstract(f') == Abstract(f) || Abstract(f') == Register(Abstract(f).current, None))
  {
    hide DecodedSlot;
    if Loaded(f).Some? {
      NewerAcrossWrap(Loaded(f).value.generation);
    }
  }

  // ----- Whole histories -----

  lemma {:induction false} HistoryConsecutive(f: Flash, events: seq<Event>)
    requires Consecutive(f)
    ensures Consecutive(Run(f, events))
    decreases |events|
  {
    hide Consecutive, Apply;
    if events != [] {
      HistoryConsecutive(f, events[..|events| - 1]);
      EventRefines(Run(f, events[..|events| - 1]), events[|events| - 1]);
    }
  }

  /** The last configuration whose marker was written since the store was last cleared. */
  function LastCommitted(start: Option<ActuatorConfig>, events: seq<Event>): Option<ActuatorConfig>
    decreases |events|
  {
    if events == [] then start
    else
      var before := LastCommitted(start, events[..|events| - 1]);
      match events[|events| - 1]
      case Save(c) => if IsValid(c) then Some(Normalised(c)) else before
      case Clear => None
      case _ => before
  }

  /** Since the last clear that was cut short, if any, a save or a clear has finished. */
  predicate Settled(events: seq<Event>)
    decreases |events|
  {
    events == [] ||
    (match events[|events| - 1]
     case Save(c) => IsValid(c) || Settled(events[..|events| - 1])
     case Clear => true
     case ClearCutShort(_, _) => false
     case _ => Settled(events[..|events| - 1]))
  }

  /**
    Over any history of saves, interrupted saves, clears and reboots, a load returns exactly the last configuration
    whose marker was written. A clear that was cut short leaves that open only until the next save or clear finishes.
   */
  lemma {:induction false} LoadReturnsLastCommitted(f: Flash, events: seq<Event>)
    requires Consecutive(f) && Settled(events)
    ensures ConfigOf(Loaded(Run(f, events))) == LastCommitted(ConfigOf(Loaded(f)), events)
    decreases |events|
  {
    hide Consecutive, Apply, Loaded, NewestSlot, Validate;
    if events != [] {
      var init, last := events[..|events| - 1], events[|events| - 1];
      if Settled(init) {
        LoadReturnsLastCommitted(f, init);
      }
      HistoryConsecutive(f, init);
      EventRefines(Run(f, init), last);
    }
  }

  /** An event that finishes neither a save nor a clear. */
  predicate Unfinished(e: Event) { !e.Clear? && (e.Save? ==> !IsValid(e.config)) }

  /**
    Until then, through any number of clears and saves that are cut short and of reboots, a load returns the
    configuration it returned before the cut, or the one before that, or none.
   */
  lemma {:induction false} CutClearLeavesOneOfThree(f: Flash, events: seq<Event>, later: seq<Event>)
    requires Consecutive(f) && forall e :: e in later ==> Unfinished(e)
    ensures
      var before, after := Abstract(Run(f, events)), Abstract(Run(f, events + later));
      && after.current == ConfigOf(Loaded(Run(f, events + later)))
      && after.current in {before.current, before.shadow, None} && after.shadow in {before.shadow, None}
    decreases |later|
  {
    hide Consecutive, Apply, Abstract, RegisterStep, Unfinished, ConfigOf, Loaded, NewestSlot, DecodedSlot;
    CurrentIsLoaded(Run(f, events + later));
    if later == [] {
      assert events + later == events;
    } else {
      var init, last := later[..|later| - 1], later[|later| - 1];
      CutClearLeavesOneOfThree(f, events, init);
      assert (events + later)[..|events + later| - 1] == events + init;
      assert last in later;
      HistoryConsecutive(f, events + init);
      EventRefines(Run(f, events + init), last);
      UnfinishedLeavesOneOfThree(Abstract(Run(f, events)), Abstract(Run(f, events + init)), last,
                                 Abstract(Run(f, events + later)));
    }
  }

  lemma CurrentIsLoaded(f: Flash)
    ensures Abstract(f).current == ConfigOf(Loaded(f))
  {
    hide NewestSlot, Loaded;
  }

  lemma UnfinishedLeavesOneOfThree(before: Register, r: Register, e: Event, next: Register)
    requires RegisterStep(r, e, next) && Unfinished(e)
    requires r.current in {before.current, before.shadow, None} && r.shadow in {before.shadow, None}
    ensures next.current in {before.current, before.shadow, None} && next.shadow in {before.shadow, None}
  {
    hide Validate;
  }

  /** The saves finished since the last clear. */
  function Commits(events: seq<Event>): nat
    decreases |events|
  {
    if events == [] then 0 else CommitsAfter(Commits(events[..|events| - 1]), events[|events| - 1])
  }

  function CommitsAfter(n: nat, e: Event): nat {
    match e
    case Save(c) => if IsValid(c) then n + 1 else n
    case Clear => 0
    case _ => n
  }

  /** The generation loaded is the number of saves, modulo 2^32, and load fails when that is none. */
  predicate Counted(f: Flash, n: nat) {
    if n == 0 then Loaded(f) == None
    else Loaded(f).Some? && Loaded(f).value.generation == n % 0x1_0000_0000
  }

  lemma EventGeneration(f: Flash, e: Event)
    requires Consecutive(f) && !e.ClearCutShort?
    ensures
      var loaded := Loaded(Apply(f, e));
      match e
      case Save(c) => if IsValid(c) then loaded == Some(Stored(Normalised(c), NextGeneration(f)))
          else loaded == Loaded(f)
      case Clear => loaded == None
      case _ => loaded == Loaded(f)
  {
    hide DecodedSlot, WrittenSlot, Interrupted, Validate, Consecutive;
    match e
    case Save(c) =>
      if IsValid(c) {
        SaveRefines(f, c);
      }
    case SaveCutShort(c, at) =>
      if IsValid(c) {
        InterruptedSlot(f.At(TargetSlot(f)), WrittenSlot(c, NextGeneration(f)), at);
        LosingTarget(f, Interrupted(f.At(TargetSlot(f)), WrittenSlot(c, NextGeneration(f)), at));
      }
    case Clear =>
      NoSlotDecodes();
    case _ =>
  }

  function LoadedGeneration(f: Flash): uint32 {
    match Loaded(f) case None => 0 case Some(stored) => stored.generation
  }

  /** A clear that fails after it reached the newest slot, unless that leaves nothing where the generation was zero. */
  predicate LosesGeneration(f: Flash, e0: Erased, e1: Erased) {
    match NewestSlot(f)
    case None => false
    case Some(i) =>
      && Touches(if i == 0 then e0 else e1)
      && (LoadedGeneration(f) != 0 || (DecodedSlot(f.At(1 - i)).Some? && !Touches(if i == 0 then e1 else e0)))
  }

  /** Those clears, and no others that fail, change the generation that a load returns, taking zero for none. */
  lemma CutClearGeneration(f: Flash, e0: Erased, e1: Erased)
    requires Consecutive(f)
    ensures LoadedGeneration(Apply(f, ClearCutShort(e0, e1))) == LoadedGeneration(f) <==> !LosesGeneration(f, e0, e1)
  {
    ErasedSlot(f.slot0, e0);
    ErasedSlot(f.slot1, e1);
    hide DecodedSlot, Erase, Touches;
    if Loaded(f).Some? {
      NewerAcrossWrap(Loaded(f).value.generation);
    }
  }

  lemma EventCounts(f: Flash, e: Event, n: nat)
    requires Consecutive(f) && !e.ClearCutShort? && Counted(f, n)
    ensures Counted(Apply(f, e), CommitsAfter(n, e))
  {
    hide Loaded, Apply, Consecutive, Validate;
    EventGeneration(f, e);
    assert (n % 0x1_0000_0000 + 1) % 0x1_0000_0000 == (n + 1) % 0x1_0000_0000;
  }

  /** Since the last clear that was cut short, if any, a clear has finished. */
  predicate Cleared(events: seq<Event>)
    decreases |events|
  {
    events == [] ||
    (match events[|events| - 1]
     case Clear => true
     case ClearCutShort(_, _) => false
     case _ => Cleared(events[..|events| - 1]))
  }

  lemma ClearCounts(f: Flash)
    ensures Counted(Apply(f, Clear), 0)
  {
    NoSlotDecodes();
    hide DecodedSlot;
  }

  /**
    From an empty store, in any history, generations count the saves since the last clear, but for those after a clear
    that was cut short and before one that finishes.
   */
  lemma {:induction false} GenerationCountsSaves(events: seq<Event>)
    requires Cleared(events)
    ensures Counted(Run(EMPTY_FLASH, events), Commits(events))
    decreases |events|
  {
    NoSlotDecodes();
    hide DecodedSlot;
    if events != [] {
      hide Counted, Apply, Consecutive;
      var init, last := events[..|events| - 1], events[|events| - 1];
      if last.Clear? {
        ClearCounts(Run(EMPTY_FLASH, init));
      } else {
        GenerationCountsSaves(init);
        EmptyIsConsecutive();
        HistoryConsecutive(EMPTY_FLASH, init);
        EventCounts(Run(EMPTY_FLASH, init), last, Commits(init));
      }
    }
  }

  lemma EmptyIsConsecutive()
    ensures Consecutive(EMPTY_FLASH)
  {
    NoSlotDecodes();
  }

  /** Every history of the store, interrupted clears included, is step by step a history of the register. */
  lemma HistoryRefines(f: Flash, events: seq<Event>, i: nat)
    requires Consecutive(f) && i < |events|
    ensures RegisterStep(Abstract(Run(f, events[..i])), events[i], Abstract(Run(f, events[..i + 1])))
  {
    hide Consecutive, Apply, Abstract, RegisterStep;
    HistoryConsecutive(f, events[..i]);
    assert events[..i + 1][..i] == events[..i];
    EventRefines(Run(f, events[..i]), events[i]);
  }

  // ----- What the storage may do to a call -----

  /** Which slots can be read, whether the marker can be cleared, and where the write fails, if it does. */
  datatype Io = Io(reads0: bool, reads1: bool, clears: bool, fault: Option<Interruption>) {
    predicate Reliable() { reads0 && reads1 && clears }
  }

  /** The store as it looks to a call: a slot that cannot be read is passed over. */
  function Seen(f: Flash, io: Io): Flash {
    Flash(if io.reads0 then f.slot0 else NO_SLOT, if io.reads1 then f.slot1 else NO_SLOT)
  }

  function SaveOutcome(f: Flash, c: ActuatorConfig, io: Io): Flash {
    if !IsValid(c) then f
    else
      var i, written := TargetSlot(Seen(f, io)), WrittenSlot(c, NextGeneration(Seen(f, io)));
      f.With(i, match io.fault
                case None => written
                case Some(at) => LeftBehind(if io.clears then 0 else f.At(i).marker, f.At(i), written, at))
  }

  function SaveEvent(c: ActuatorConfig, fault: Option<Interruption>): Event {
    match fault case None => Save(c) case Some(at) => SaveCutShort(c, at)
  }

  /** The states a slot write goes through, one for each key written, up to where it fails. */
  function PassedThrough(f: Flash, i: nat, marker: uint32, written: Slot, fault: Option<Interruption>): seq<Flash>
    requires i < 2
  {
    var s := f.At(i);
    var unmarked := LeftBehind(marker, s, written, InPayload(s.payload));
    var filled := LeftBehind(marker, s, written, InMeta(s.meta));
    var described := LeftBehind(marker, s, written, BeforeMarker);
    match fault
    case Some(NotStarted) => []
    case Some(InPayload(left)) => [f.With(i, unmarked), f.With(i, LeftBehind(marker, s, written, InPayload(left)))]
    case Some(InMeta(left)) =>
      [f.With(i, unmarked), f.With(i, filled), f.With(i, LeftBehind(marker, s, written, InMeta(left)))]
    case Some(BeforeMarker) => [f.With(i, unmarked), f.With(i, filled), f.With(i, described)]
    case None => [f.With(i, unmarked), f.With(i, filled), f.With(i, described), f.With(i, written)]
  }

  /** With reliable reads, and a marker that can be cleared, a save is an event of the histories above. */
  lemma ReliableSaveIsEvent(f: Flash, c: ActuatorConfig, io: Io)
    requires io.Reliable()
    ensures SaveOutcome(f, c, io) == Apply(f, SaveEvent(c, io.fault))
  {
    hide DecodedSlot, NewestSlot, WrittenSlot, Validate;
  }

  /**
    A save writes over the slot that a load would return exactly when that slot cannot be read, and none is free before
    it.
   */
  lemma SaveHitsNewestExactly(f: Flash, io: Io)
    ensures NewestSlot(f) == Some(TargetSlot(Seen(f, io))) <==>
      || (NewestSlot(f) == Some(0) && !io.reads0)
      || (NewestSlot(f) == Some(1) && !io.reads1 && io.reads0 && DecodedSlot(f.slot0).Some?)
  {
    NoSlotDecodes();
    hide DecodedSlot;
  }

  // ----- The store at work -----

  class Store {
    var slots: seq<Slot>
    /** Every state the keys have passed through, one entry for each key written. */
    ghost var trail: seq<Flash>

    ghost predicate Valid()
      reads this
    {
      |slots| == 2
    }

    ghost function State(): Flash
      requires Valid()
      reads this
    {
      Flash(slots[0], slots[1])
    }

    constructor ()
      ensures Valid() && State() == EMPTY_FLASH && trail == []
    {
      slots := [NO_SLOT, NO_SLOT];
      trail := [];
    }

    method PutMarker(i: nat, marker: uint32)
      requires Valid() && i < 2
      modifies this
      ensures Valid() && State() == old(State()).With(i, old(State()).At(i).(marker := marker))
      ensures trail == old(trail) + [State()]
    {
      slots := slots[i := slots[i].(marker := marker)];
      trail := trail + [State()];
    }

    method PutPayload(i: nat, payload: seq<byte>)
      requires Valid() && i < 2
      modifies this
      ensures Valid() && State() == old(State()).With(i, old(State()).At(i).(payload := payload))
      ensures trail == old(trail) + [State()]
    {
      slots := slots[i := slots[i].(payload := payload)];
      trail := trail + [State()];
    }

    method PutMeta(i: nat, meta: seq<byte>)
      requires Valid() && i < 2
      modifies this
      ensures Valid() && State() == old(State()).With(i, old(State()).At(i).(meta := meta))
      ensures trail == old(trail) + [State()]
    {
      slots := slots[i := slots[i].(meta := meta)];
      trail := trail + [State()];
    }

    /**
      Clears the marker, writes the payload, then the description, then sets the marker. With `fault`, the write fails
      at that key and reports it. That the marker could not be cleared goes unnoticed.
     */
    method WriteSlot(i: nat, meta: seq<byte>, payload: seq<byte>, clears: bool, fault: Option<Interruption>)
        returns (ok: bool)
      requires Valid() && i < 2
      modifies this
      ensures Valid() && ok == fault.None?
      ensures
        var was, slot := old(State()), old(State()).At(i);
        var written, marker := Slot(VALID_MARKER, meta, payload), if clears then 0 else slot.marker;
        && State() == was.With(i, match fault
                                  case None => written
                                  case Some(at) => LeftBehind(marker, slot, written, at))
        && trail == old(trail) + PassedThrough(was, i, marker, written, fault)
    {
      if fault == Some(NotStarted) {
        return false;
      }
      PutMarker(i, if clears then 0 else slots[i].marker);
      if fault.Some? && fault.value.InPayload? {
        PutPayload(i, fault.value.left);
        return false;
      }
      PutPayload(i, payload);
      if fault.Some? && fault.value.InMeta? {
        PutMeta(i, fault.value.left);
        return false;
      }
      PutMeta(i, meta);
      if fault == Some(BeforeMarker) {
        return false;
      }
      PutMarker(i, VALID_MARKER);
      return true;
    }

    /** Copies a slot into buffers, checks it and decodes it. */
    method DecodeSlot(i: nat) returns (stored: Option<Stored>)
      requires Valid() && i < 2
      ensures stored == DecodedSlot(State().At(i))
    {
      hide Crc16, Deserialized;
      var slot := slots[i];
      var meta, source := ReadKey(slot.meta, META_SIZE), ReadKey(slot.payload, CONFIG_BLOB_MAX_SIZE);
      var payload := new byte[CONFIG_BLOB_MAX_SIZE];
      forall j | 0 <= j < |source| {
        payload[j] := source[j];
      }
      assert payload[..|source|] == source;
      if slot.marker != VALID_MARKER {
        return None;
      }
      if |meta| != META_SIZE || U32At(meta, 0) != MAGIC {
        return None;
      }
      var length := U16At(meta, 6);
      if U16At(meta, 4) != CONFIG_VERSION || length > CONFIG_BLOB_MAX_SIZE {
        return None;
      }
      if |source| != length {
        return None;
      }
      var crc := Crc16Ccitt(payload, length);
      if crc != U16At(meta, 12) {
        return None;
      }
      var config := DeserializeConfig(payload, |source|);
      if config.None? {
        return None;
      }
      return Some(Stored(config.value, U32At(meta, 8)));
    }

    method Load(io: Io) returns (stored: Option<Stored>)
      requires Valid()
      ensures stored == Loaded(Seen(State(), io))
    {
      NoSlotDecodes();
      hide DecodedSlot;
      stored := None;
      for i := 0 to 2
        invariant i == 0 ==> stored == None
        invariant i == 1 ==> stored == DecodedSlot(Seen(State(), io).slot0)
        invariant i == 2 ==> stored == Loaded(Seen(State(), io))
      {
        if if i == 0 then io.reads0 else io.reads1 {
          var candidate := DecodeSlot(i);
          if candidate.Some? {
            if stored.None? || Newer(candidate.value.generation, stored.value.generation) {
              stored := candidate;
            }
          }
        }
      }
    }

    /** The slot to write next, and the generation to give it, by what of the store can be read. */
    method ChooseTarget(io: Io) returns (target: nat, next: uint32)
      requires Valid()
      ensures target == TargetSlot(Seen(State(), io)) && next == NextGeneration(Seen(State(), io))
    {
      NoSlotDecodes();
      hide DecodedSlot;
      ghost var seen := Seen(State(), io);
      var decoded: seq<Option<Stored>> := [None, None];
      var newest: Option<Stored>, newestSlot: nat := None, 0;
      for i := 0 to 2
        invariant |decoded| == 2
        invariant decoded[0] == if i >= 1 then DecodedSlot(seen.slot0) else None
        invariant decoded[1] == if i >= 2 then DecodedSlot(seen.slot1) else None
        invariant i == 0 ==> newest == None && newestSlot == 0
        invariant i == 1 ==> newest == decoded[0] && newestSlot == 0
        invariant i == 2 ==> newest == Loaded(seen) && (newest.Some? ==> NewestSlot(seen) == Some(newestSlot))
      {
        if if i == 0 then io.reads0 else io.reads1 {
          var stored := DecodeSlot(i);
          decoded := decoded[i := stored];
          if stored.Some? && (newest.None? || Newer(stored.value.generation, newest.value.generation)) {
            newest, newestSlot := stored, i;
          }
        }
      }
      target := if decoded[0].None? then 0 else if decoded[1].None? then 1 else if newestSlot == 0 then 1 else 0;
      next := if newest.Some? then Add32(newest.value.generation, 1) else 1;
    }

    /** A save, finished or cut short, by what of the store can be read. */
    method SaveConfig(c: ActuatorConfig, io: Io) returns (generation: Option<uint32>)
      requires Valid()
      modifies this
      ensures Valid() && State() == SaveOutcome(old(State()), c, io)
      ensures generation ==
        if IsValid(c) && io.fault.None? then Some(NextGeneration(Seen(old(State()), io))) else None
    {
      hide TargetSlot, NextGeneration, Seen, ConfigBytes, MetaBytes, Crc16, Validate, Apply, LeftBehind, SaveEvent,
           WrittenSlot;
      var payload := new byte[CONFIG_BLOB_MAX_SIZE];
      var ok, length := SerializeConfig(c, payload, payload.Length);
      if !ok {
        return None;
      }
      BlobSize(c);
      var target, next := ChooseTarget(io);
      var crc := Crc16Ccitt(payload, length);
      var image := payload[..length];
      WrittenSlotIs(c, next, image);
      ok := WriteSlot(target, MetaBytes(length, next, crc), image, io.clears, io.fault);
      generation := if ok then Some(next) else None;
    }

    /** Erases every key, or with `left` fails after erasing some of them. */
    method ClearAll(left: Option<(Erased, Erased)>) returns (ok: bool)
      requires Valid()
      modifies this
      ensures Valid() && ok == left.None?
      ensures State() ==
        Apply(old(State()), match left { case None => Clear case Some(e) => ClearCutShort(e.0, e.1) })
    {
      ok := left.None?;
      slots := if ok then [NO_SLOT, NO_SLOT] else [Erase(slots[0], left.value.0), Erase(slots[1], left.value.1)];
      trail := trail + [State()];
    }
  }

  lemma WrittenSlotIs(c: ActuatorConfig, generation: uint32, payload: seq<byte>)
    requires payload == ConfigBytes(c) && |payload| == BLOB_SIZE
    ensures WrittenSlot(c, generation) ==
            Slot(VALID_MARKER, MetaBytes(|payload|, generation, Crc16(payload)), payload)
  {
    hide ConfigBytes, MetaBytes, Crc16;
  }

  /**
    A power loss between two keys of a finished save leaves a state from which a load returns what it returned before.
   */
  lemma PowerLossBetweenKeys(f: Flash, c: ActuatorConfig, at: Interruption)
    requires Consecutive(f) && IsValid(c)
    ensures
      var i := TargetSlot(f);
      Loaded(f.With(i, Interrupted(f.At(i), WrittenSlot(c, NextGeneration(f)), at))) == Loaded(f)
  {
    hide Consecutive, Loaded, Interrupted, WrittenSlot, Validate;
    EventGeneration(f, SaveCutShort(c, at));
  }
}
