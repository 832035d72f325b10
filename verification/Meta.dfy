/** The 112-byte meta struct at fixed little-endian offsets. */
module Meta {
  import opened Bytes

  type Block = b: seq<byte> | |b| == 16 witness seq(16, _ => 0)

  datatype MetaInfo = MetaInfo(
    crcDigest: uint32,
    version: uint32,
    sequence: uint32,
    iv: Block,
    actualSize: uint32,
    lastActualSize: uint32,
    lastCRCDigest: uint32,
    flags: uint64)

  const OFF_CRC: nat := 0
  const OFF_VERSION: nat := 4
  const OFF_SEQUENCE: nat := 8
  const OFF_IV: nat := 12
  const OFF_ACTUAL_SIZE: nat := 28
  const OFF_LAST_ACTUAL_SIZE: nat := 32
  const OFF_LAST_CRC_DIGEST: nat := 36
  const OFF_FLAGS: nat := 104
  const META_SIZE: nat := 112

  const VERSION_ACTUAL_SIZE: uint32 := 3
  const VERSION_FLAG: uint32 := 4

  predicate ExpireEnabled(m: MetaInfo) {
    m.flags % 2 == 1
  }

  /** parseMeta of a buffer that is long enough; shorter ones are an error. */
  function ParseMeta(buf: seq<byte>): MetaInfo
    requires |buf| >= META_SIZE
  {
    MetaInfo(
      GetLe32(buf, OFF_CRC),
      GetLe32(buf, OFF_VERSION),
      GetLe32(buf, OFF_SEQUENCE),
      buf[OFF_IV..OFF_IV + 16],
      GetLe32(buf, OFF_ACTUAL_SIZE),
      GetLe32(buf, OFF_LAST_ACTUAL_SIZE),
      GetLe32(buf, OFF_LAST_CRC_DIGEST),
      GetLe64(buf, OFF_FLAGS))
  }

  function Zeros(n: nat): (s: seq<byte>)
    ensures |s| == n
  {
    seq(n, _ => 0)
  }

  function Marshal(m: MetaInfo): (buf: seq<byte>)
    ensures |buf| == META_SIZE
  {
    Le32(m.crcDigest) + Le32(m.version) + Le32(m.sequence) + m.iv +
    Le32(m.actualSize) + Le32(m.lastActualSize) + Le32(m.lastCRCDigest) +
    Zeros(64) + Le64(m.flags)
  }

  lemma {:induction false} MarshalLayout(m: MetaInfo)
    ensures var b := Marshal(m);
            && HasAt(b, OFF_CRC, Le32(m.crcDigest))
            && HasAt(b, OFF_VERSION, Le32(m.version))
            && HasAt(b, OFF_SEQUENCE, Le32(m.sequence))
            && HasAt(b, OFF_IV, m.iv)
            && HasAt(b, OFF_ACTUAL_SIZE, Le32(m.actualSize))
            && HasAt(b, OFF_LAST_ACTUAL_SIZE, Le32(m.lastActualSize))
            && HasAt(b, OFF_LAST_CRC_DIGEST, Le32(m.lastCRCDigest))
            && HasAt(b, OFF_FLAGS, Le64(m.flags))
  {
    hide Le32, Le64, Zeros;
  }

  /** A marshalled struct parses back, whatever follows it in the file. */
  lemma {:induction false} MetaRoundTrip(m: MetaInfo, rest: seq<byte>)
    ensures ParseMeta(Marshal(m) + rest) == m
  {
    hide Le32, Le64, Marshal, GetLe32, GetLe64;
    var b := Marshal(m) + rest;
    MarshalLayout(m);
    Le32RoundTrip(b, OFF_CRC, m.crcDigest);
    Le32RoundTrip(b, OFF_VERSION, m.version);
    Le32RoundTrip(b, OFF_SEQUENCE, m.sequence);
    Le32RoundTrip(b, OFF_ACTUAL_SIZE, m.actualSize);
    Le32RoundTrip(b, OFF_LAST_ACTUAL_SIZE, m.lastActualSize);
    Le32RoundTrip(b, OFF_LAST_CRC_DIGEST, m.lastCRCDigest);
    Le64RoundTrip(b, OFF_FLAGS, m.flags);
  }

  /** The two stores of an append or override: crc, then actualSize. */
  function Poke(buf: seq<byte>, crc: uint32, actual: uint32): (r: seq<byte>)
    requires |buf| >= META_SIZE
    ensures |r| == |buf|
  {
    Patch(Patch(buf, OFF_CRC, Le32(crc)), OFF_ACTUAL_SIZE, Le32(actual))
  }

  lemma {:induction false} GetLe32Patched(buf: seq<byte>, at: nat, e: seq<byte>, o: nat)
    requires at + |e| <= |buf| && o + 4 <= |buf|
    requires o + 4 <= at || at + |e| <= o
    ensures GetLe32(Patch(buf, at, e), o) == GetLe32(buf, o)
  {
  }

  lemma {:induction false} GetLe64Patched(buf: seq<byte>, at: nat, e: seq<byte>, o: nat)
    requires at + |e| <= |buf| && o + 8 <= |buf|
    requires o + 8 <= at || at + |e| <= o
    ensures GetLe64(Patch(buf, at, e), o) == GetLe64(buf, o)
  {
    GetLe32Patched(buf, at, e, o);
    GetLe32Patched(buf, at, e, o + 4);
  }

  lemma {:induction false} ParsePokedCrc(buf: seq<byte>, crc: uint32)
    requires |buf| >= META_SIZE
    ensures ParseMeta(Patch(buf, OFF_CRC, Le32(crc))) == ParseMeta(buf).(crcDigest := crc)
  {
    hide GetLe32, GetLe64, Le32;
    var e := Le32(crc);
    var b := Patch(buf, OFF_CRC, e);
    Le32RoundTrip(b, OFF_CRC, crc);
    GetLe32Patched(buf, OFF_CRC, e, OFF_VERSION);
    GetLe32Patched(buf, OFF_CRC, e, OFF_SEQUENCE);
    GetLe32Patched(buf, OFF_CRC, e, OFF_ACTUAL_SIZE);
    GetLe32Patched(buf, OFF_CRC, e, OFF_LAST_ACTUAL_SIZE);
    GetLe32Patched(buf, OFF_CRC, e, OFF_LAST_CRC_DIGEST);
    GetLe64Patched(buf, OFF_CRC, e, OFF_FLAGS);
    assert b[12..28] == buf[12..28];
  }

  lemma {:induction false} ParsePokedActual(buf: seq<byte>, actual: uint32)
    requires |buf| >= META_SIZE
    ensures ParseMeta(Patch(buf, OFF_ACTUAL_SIZE, Le32(actual))) == ParseMeta(buf).(actualSize := actual)
  {
    hide GetLe32, GetLe64, Le32;
    var e := Le32(actual);
    var b := Patch(buf, OFF_ACTUAL_SIZE, e);
    Le32RoundTrip(b, OFF_ACTUAL_SIZE, actual);
    GetLe32Patched(buf, OFF_ACTUAL_SIZE, e, OFF_CRC);
    GetLe32Patched(buf, OFF_ACTUAL_SIZE, e, OFF_VERSION);
    GetLe32Patched(buf, OFF_ACTUAL_SIZE, e, OFF_SEQUENCE);
    GetLe32Patched(buf, OFF_ACTUAL_SIZE, e, OFF_LAST_ACTUAL_SIZE);
    GetLe32Patched(buf, OFF_ACTUAL_SIZE, e, OFF_LAST_CRC_DIGEST);
    GetLe64Patched(buf, OFF_ACTUAL_SIZE, e, OFF_FLAGS);
    assert b[12..28] == buf[12..28];
  }

  /** The two-field poke changes those two fields of the parsed struct and no other. */
  lemma {:induction false} ParsePoked(buf: seq<byte>, crc: uint32, actual: uint32)
    requires |buf| >= META_SIZE
    ensures ParseMeta(Poke(buf, crc, actual)) == ParseMeta(buf).(crcDigest := crc, actualSize := actual)
  {
    hide GetLe32, GetLe64, Le32, Patch, ParseMeta;
    ParsePokedCrc(buf, crc);
    ParsePokedActual(Patch(buf, OFF_CRC, Le32(crc)), actual);
  }

  /** Where each field lies: parsed from a buffer in which byte i is i. */
  lemma {:induction false} Layout(buf: seq<byte>)
    requires |buf| == META_SIZE && forall i | 0 <= i < META_SIZE :: buf[i] == i
    ensures ParseMeta(buf) ==
            MetaInfo(0x0302_0100, 0x0706_0504, 0x0B0A_0908,
                     [12, 13, 14, 15, 16, 17, 18, 19, 20, 21, 22, 23, 24, 25, 26, 27],
                     0x1F1E_1D1C, 0x2322_2120, 0x2726_2524, 0x6F6E_6D6C_6B6A_6968)
  {
  }

  /** The struct is 112 bytes, the reserved ones zero. */
  lemma {:induction false} ReservedBytes(m: MetaInfo, i: nat)
    requires 40 <= i < 104
    ensures |Marshal(m)| == 112 && Marshal(m)[i] == 0
  {
    hide Le32, Le64;
    assert Marshal(m)[i] == Zeros(64)[i - 40];
  }

  /** Flag bit 0 turns expiration on, whatever the others. */
  lemma {:induction false} ExpireIsBitZero(m: MetaInfo)
    ensures ExpireEnabled(m) <==> Bit(m.flags, 0)
  {
  }
}
