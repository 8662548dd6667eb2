/** What the store accepts, and that damage to a stored configuration is noticed. */
module StoreDamage {
  import opened Bytes
  import opened Crc
  import opened CrcDetection
  import opened Config
  import opened ConfigBlob
  import opened ConfigStore

  /** All of a description that is read: what follows is reserved. */
  const META_READ := 14

  /**
    A slot decodes to a configuration and generation exactly when its marker stands, its payload is a blob of that
    configuration, and its description is the one a save writes for that payload and generation, but for reserved bytes.
   */
  lemma SlotCanonical(s: Slot, c: ActuatorConfig, generation: uint32)
    ensures DecodedSlot(s) == Some(Stored(c, generation)) <==>
      && s.marker == VALID_MARKER
      && Deserialized(s.payload) == Some(c)
      && |s.meta| == META_SIZE
      && s.meta[..META_READ] == MetaBytes(|s.payload|, generation, Crc16(s.payload))[..META_READ]
  {
    hide Crc16, ConfigAt, Validate;
    if |s.meta| == META_SIZE && Deserialized(s.payload).Some? {
      DescriptionMatches(s.meta, |s.payload|, generation, Crc16(s.payload));
    }
  }

  lemma DescriptionMatches(meta: seq<byte>, length: uint16, generation: uint32, crc: uint16)
    requires |meta| == META_SIZE
    ensures meta[..META_READ] == MetaBytes(length, generation, crc)[..META_READ] <==>
      && U32At(meta, 0) == MAGIC && U16At(meta, 4) == CONFIG_VERSION && U16At(meta, 6) == length
      && U32At(meta, 8) == generation && U16At(meta, 12) == crc
  {
    var m := MetaBytes(length, generation, crc);
    MetaFields(length, generation, crc);
    hide MetaBytes, U16At, U32At;
    SameField32(meta, m, 0);
    SameField16(meta, m, 4);
    SameField16(meta, m, 6);
    SameField32(meta, m, 8);
    SameField16(meta, m, 12);
    Pieces(meta);
    Pieces(m);
  }

  lemma SameField16(s: seq<byte>, t: seq<byte>, i: nat)
    requires i + 2 <= |s| == |t|
    ensures U16At(s, i) == U16At(t, i) <==> s[i..i + 2] == t[i..i + 2]
  {
    hide U16At;
    U16RoundTrip(s, i, U16At(t, i));
    U16RoundTrip(t, i, U16At(t, i));
  }

  lemma SameField32(s: seq<byte>, t: seq<byte>, i: nat)
    requires i + 4 <= |s| == |t|
    ensures U32At(s, i) == U32At(t, i) <==> s[i..i + 4] == t[i..i + 4]
  {
    hide U32At;
    U32RoundTrip(s, i, U32At(t, i));
    U32RoundTrip(t, i, U32At(t, i));
  }

  lemma Pieces(m: seq<byte>)
    requires |m| == META_SIZE
    ensures m[..META_READ] == m[0..4] + m[4..6] + m[6..8] + m[8..12] + m[12..14]
    ensures m[0..4] == m[..META_READ][0..4] && m[4..6] == m[..META_READ][4..6] && m[6..8] == m[..META_READ][6..8]
    ensures m[8..12] == m[..META_READ][8..12] && m[12..14] == m[..META_READ][12..14]
  {}

  /** Damage that the CRC is certain to expose: one burst of at most 16 bits, or an odd number of flipped bits. */
  ghost predicate Damaged(payload: seq<byte>, damaged: seq<byte>) {
    && |damaged| == |payload| && damaged != payload
    && (FlipsBetween(payload, damaged) % 2 == 1
        || exists at: nat, skip: nat :: DifferInBurst(payload, damaged, at, skip))
  }

  /** A slot whose payload has suffered such damage no longer decodes. */
  lemma DamageRejected(s: Slot, damaged: seq<byte>)
    requires DecodedSlot(s).Some? && Damaged(s.payload, damaged)
    ensures DecodedSlot(s.(payload := damaged)) == None
  {
    DamageChangesCrc(s.payload, damaged);
    var stored := DecodedSlot(s).value;
    SlotCanonical(s, stored.config, stored.generation);
    if DecodedSlot(s.(payload := damaged)).Some? {
      var other := DecodedSlot(s.(payload := damaged)).value;
      SlotCanonical(s.(payload := damaged), other.config, other.generation);
      hide DecodedSlot, Deserialized, Crc16, MetaBytes, Damaged;
      SizeOfBlob(s.payload);
      DescriptionMatches(s.meta, |s.payload|, stored.generation, Crc16(s.payload));
      DescriptionMatches(s.meta, |damaged|, other.generation, Crc16(damaged));
    }
  }

  lemma SizeOfBlob(payload: seq<byte>)
    ensures Deserialized(payload).Some? ==> |payload| < 0x1_0000
  {}

  lemma DamageChangesCrc(payload: seq<byte>, damaged: seq<byte>)
    requires Damaged(payload, damaged)
    ensures Crc16(payload) != Crc16(damaged)
  {
    hide Crc16, FlipsBetween, DifferInBurst;
    if FlipsBetween(payload, damaged) % 2 == 1 {
      OddFlipsChangeCrc(payload, damaged);
    } else {
      var at: nat, skip: nat :| DifferInBurst(payload, damaged, at, skip);
      BurstChangesCrc(payload, damaged, at, skip);
    }
  }

  /**
    Such damage to the newest configuration makes a load return the one before it, or none, and never what was damaged.
   */
  lemma DamageFallsBack(f: Flash, damaged: seq<byte>)
    requires NewestSlot(f).Some? && Damaged(f.At(NewestSlot(f).value).payload, damaged)
    ensures
      var i := NewestSlot(f).value;
      Loaded(f.With(i, f.At(i).(payload := damaged))) == DecodedSlot(f.At(1 - i))
  {
    var i := NewestSlot(f).value;
    DamageRejected(f.At(i), damaged);
    hide DecodedSlot, Damaged;
  }
}
