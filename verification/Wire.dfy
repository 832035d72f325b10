/**
 The protobuf-style wire format: LEB128 varints, fixed-width little-endian words and
 length-delimited fields. The functions say what a read or a write means; the classes
 CodedInput and CodedOutput are the cursor and the growing buffer that compute it.
 */
module Wire {
  import opened Bytes

  datatype Error = UnexpectedEof | VarintOverflow

  /** The outcome of a read and the cursor position it leaves behind. */
  datatype Read<+T> = Ok(value: T, next: nat) | Err(error: Error, next: nat)

  // ---- writing ----

  /** writeRawVarint32 / writeRawVarint64 */
  function Varint(v: nat): (r: seq<byte>)
    ensures |r| >= 1
  {
    if v < 128 then [v] else [128 + v % 128] + Varint(v / 128)
  }

  /** writeData: the length is narrowed to 32 bits. */
  function Data(b: seq<byte>): seq<byte> {
    Varint(Lo32(|b|)) + b
  }

  /** writeInt32: negative values are sign-extended to 64 bits. */
  function Int32Varint(v: int): seq<byte>
    requires -0x8000_0000 <= v < 0x8000_0000
  {
    Varint(if v >= 0 then v else U64 + v)
  }

  // ---- reading ----

  /** The varint whose i-th group of seven bits starts at pos, before narrowing to 64 bits. */
  function RawVarint(s: seq<byte>, pos: nat, i: nat): (r: Read<nat>)
    requires i <= 10 && pos <= |s|
    ensures r.Ok? ==> pos < r.next <= |s|
    ensures r.Err? ==> pos <= r.next <= |s|
    decreases |s| - pos
  {
    if i == 10 then Err(VarintOverflow, pos)
    else if pos == |s| then Err(UnexpectedEof, pos)
    else if s[pos] < 128 then Ok(s[pos], pos + 1)
    else
      match RawVarint(s, pos + 1, i + 1)
      case Ok(v, next) => Ok(s[pos] - 128 + 128 * v, next)
      case Err(e, next) => Err(e, next)
  }

  function ReadVarint(s: seq<byte>, pos: nat): (r: Read<uint64>)
    requires pos <= |s|
    ensures r.Ok? ==> pos < r.next <= |s|
    ensures r.Err? ==> pos <= r.next <= |s|
  {
    match RawVarint(s, pos, 0)
    case Ok(v, next) => Ok(Lo64(v), next)
    case Err(e, next) => Err(e, next)
  }

  function ReadBytes(s: seq<byte>, pos: nat): (r: Read<seq<byte>>)
    requires pos <= |s|
    ensures r.Ok? ==> pos < r.next <= |s|
    ensures r.Err? ==> pos <= r.next <= |s|
  {
    match ReadVarint(s, pos)
    case Err(e, next) => Err(e, next)
    case Ok(n, next) =>
      if n > |s| - next then Err(UnexpectedEof, next) else Ok(s[next..next + n], next + n)
  }

  // ---- the length of a varint ----

  /** v << 7i */
  function Shl7(v: nat, i: nat): nat {
    if i == 0 then v else 128 * Shl7(v, i - 1)
  }

  lemma {:induction false} Shl7Add(a: nat, b: nat, i: nat)
    ensures Shl7(a + b, i) == Shl7(a, i) + Shl7(b, i)
    decreases i
  {
    if i > 0 {
      Shl7Add(a, b, i - 1);
    }
  }

  lemma {:induction false} Shl7Carry(v: nat, i: nat)
    ensures Shl7(128 * v, i) == Shl7(v, i + 1)
    decreases i
  {
    if i > 0 {
      Shl7Carry(v, i - 1);
    }
  }

  lemma {:induction false} Shl7Grows(v: nat, i: nat, j: nat)
    requires i <= j
    ensures Shl7(v, i) <= Shl7(v, j)
    decreases j
  {
    if i < j {
      Shl7Grows(v, i, j - 1);
    }
  }

  lemma {:induction false} VarintLength(v: nat, k: nat)
    requires k > 0
    ensures |Varint(v)| <= k <==> v < Shl7(1, k)
  {
    if k == 1 {
    } else if v < 128 {
      Shl7Grows(1, 1, k);
    } else {
      VarintLength(v / 128, k - 1);
    }
  }

  lemma {:induction false} Shl7Values(v: nat)
    ensures Shl7(v, 5) == 0x8_0000_0000 * v
    ensures Shl7(v, 9) == 0x8000_0000_0000_0000 * v
    ensures Shl7(v, 10) == 0x40_0000_0000_0000_0000 * v
  {
    assert Shl7(v, 1) == 128 * v;
    assert Shl7(v, 3) == 0x20_0000 * v;
    assert Shl7(v, 5) == 0x8_0000_0000 * v;
    assert Shl7(v, 7) == 0x2_0000_0000_0000 * v;
    assert Shl7(v, 9) == 0x8000_0000_0000_0000 * v;
  }

  lemma {:induction false} VarintFits(v: nat)
    ensures v < U32 ==> |Varint(v)| <= 5
    ensures v < U64 ==> |Varint(v)| <= 10
  {
    Shl7Values(1);
    VarintLength(v, 5);
    VarintLength(v, 10);
  }

  lemma {:induction false} VarintLengthMonotone(v: nat, w: nat)
    requires v <= w
    ensures |Varint(v)| <= |Varint(w)|
  {
    if v >= 128 {
      VarintLengthMonotone(v / 128, w / 128);
    }
  }

  // ---- round trips, at any offset and with any bytes after ----

  lemma {:induction false} RawVarintRoundTrip(s: seq<byte>, pos: nat, v: nat, i: nat)
    requires HasAt(s, pos, Varint(v))
    requires i + |Varint(v)| <= 10
    ensures RawVarint(s, pos, i) == Ok(v, pos + |Varint(v)|)
    decreases v
  {
    var e := Varint(v);
    assert s[pos] == s[pos..pos + |e|][0] == e[0];
    if v >= 128 {
      assert s[pos + 1..pos + |e|] == s[pos..pos + |e|][1..] == e[1..] == Varint(v / 128);
      RawVarintRoundTrip(s, pos + 1, v / 128, i + 1);
    }
  }

  /** Every 64-bit value reads back as written, and the read stops where the write stopped. */
  lemma {:induction false} VarintRoundTrip(s: seq<byte>, pos: nat, v: uint64)
    requires HasAt(s, pos, Varint(v))
    ensures ReadVarint(s, pos) == Ok(v, pos + |Varint(v)|)
  {
    VarintFits(v);
    RawVarintRoundTrip(s, pos, v, 0);
  }

  lemma {:induction false} DataRoundTrip(s: seq<byte>, pos: nat, b: seq<byte>)
    requires |b| < U32
    requires HasAt(s, pos, Data(b))
    ensures ReadBytes(s, pos) == Ok(b, pos + |Data(b)|)
  {
    assert Lo32(|b|) == |b|;
    var e, n := Data(b), |Varint(|b|)|;
    assert s[pos..pos + n] == s[pos..pos + |e|][..n] == Varint(|b|);
    assert s[pos + n..pos + |e|] == s[pos..pos + |e|][n..] == b;
    VarintRoundTrip(s, pos, |b|);
  }

  /** readInt32 narrows the 64-bit varint to a signed 32-bit value. */
  function ToInt32(v: uint64): (r: int)
    ensures -0x8000_0000 <= r < 0x8000_0000
  {
    var w := Lo32(v);
    if w < 0x8000_0000 then w else w - U32
  }

  lemma {:induction false} Int32RoundTrip(s: seq<byte>, pos: nat, v: int)
    requires -0x8000_0000 <= v < 0x8000_0000
    requires HasAt(s, pos, Int32Varint(v))
    ensures ReadVarint(s, pos).Ok?
    ensures ToInt32(ReadVarint(s, pos).value) == v
    ensures ReadVarint(s, pos).next == pos + |Int32Varint(v)|
    ensures v < 0 ==> |Int32Varint(v)| == 10
  {
    var w: uint64 := if v >= 0 then v else U64 + v;
    VarintRoundTrip(s, pos, w);
    if v < 0 {
      Shl7Values(1);
      VarintLength(w, 9);
      VarintFits(w);
    }
  }

  // ---- locality: what was read does not depend on what follows ----

  lemma {:induction false} RawVarintLocal(s: seq<byte>, t: seq<byte>, pos: nat, i: nat)
    requires i <= 10 && pos <= |s|
    requires RawVarint(s, pos, i).Ok?
    ensures RawVarint(s + t, pos, i) == RawVarint(s, pos, i)
    decreases |s| - pos
  {
    assert (s + t)[pos] == s[pos];
    if s[pos] >= 128 {
      RawVarintLocal(s, t, pos + 1, i + 1);
    }
  }

  lemma {:induction false} ReadBytesLocal(s: seq<byte>, t: seq<byte>, pos: nat)
    requires pos <= |s|
    requires ReadBytes(s, pos).Ok?
    ensures ReadBytes(s + t, pos) == ReadBytes(s, pos)
  {
    RawVarintLocal(s, t, pos, 0);
    var n := ReadVarint(s, pos);
    assert (s + t)[n.next..n.next + n.value] == s[n.next..n.next + n.value];
  }

  // ---- a field cut short is never accepted ----

  lemma {:induction false} TornVarint(s: seq<byte>, pos: nat, v: nat, i: nat)
    requires pos <= |s| && |s| - pos < |Varint(v)|
    requires s[pos..] == Varint(v)[..|s| - pos]
    requires i + |Varint(v)| <= 10
    ensures RawVarint(s, pos, i).Err?
    decreases v
  {
    if pos < |s| {
      var e := Varint(v);
      assert s[pos] == s[pos..][0] == e[0];
      assert s[pos + 1..] == s[pos..][1..] == e[1..|s| - pos] == Varint(v / 128)[..|s| - pos - 1];
      TornVarint(s, pos + 1, v / 128, i + 1);
    }
  }

  lemma {:induction false} TornData(s: seq<byte>, pos: nat, b: seq<byte>)
    requires |b| < U32
    requires pos <= |s| && |s| - pos < |Data(b)|
    requires s[pos..] == Data(b)[..|s| - pos]
    ensures ReadBytes(s, pos).Err?
  {
    var n := Varint(|b|);
    VarintFits(|b|);
    if |s| - pos < |n| {
      assert s[pos..] == n[..|s| - pos];
      TornVarint(s, pos, |b|, 0);
    } else {
      assert s[pos..pos + |n|] == s[pos..][..|n|] == n;
      VarintRoundTrip(s, pos, |b|);
    }
  }

  // ---- a read consumes at least the canonical encoding, and exactly that only on it ----

  lemma {:induction false} RawVarintCanonical(s: seq<byte>, pos: nat, i: nat)
    requires i <= 10 && pos <= |s|
    requires RawVarint(s, pos, i).Ok?
    ensures var r := RawVarint(s, pos, i);
            && |Varint(r.value)| <= r.next - pos
            && (|Varint(r.value)| == r.next - pos ==> s[pos..r.next] == Varint(r.value))
    decreases |s| - pos
  {
    var r := RawVarint(s, pos, i);
    if s[pos] >= 128 {
      RawVarintCanonical(s, pos + 1, i + 1);
      var q := RawVarint(s, pos + 1, i + 1);
      if q.value > 0 {
        assert Varint(r.value) == [s[pos]] + Varint(q.value);
      }
    }
  }

  /** No field is shorter than its canonical encoding. */
  lemma {:induction false} ReadBytesConsumes(s: seq<byte>, pos: nat)
    requires pos <= |s|
    requires ReadBytes(s, pos).Ok?
    ensures |Data(ReadBytes(s, pos).value)| <= ReadBytes(s, pos).next - pos
  {
    RawVarintCanonical(s, pos, 0);
    VarintLengthMonotone(Lo32(|ReadBytes(s, pos).value|), RawVarint(s, pos, 0).value);
  }

  /** A field as short as its canonical encoding is that encoding. */
  lemma {:induction false} ReadBytesCanonical(s: seq<byte>, pos: nat, b: seq<byte>)
    requires pos <= |s| && |b| < U32
    requires ReadBytes(s, pos) == Ok(b, pos + |Data(b)|)
    ensures HasAt(s, pos, Data(b))
  {
    hide RawVarint, Varint, ReadBytes;
    var mid := pos + |Varint(|b|)|;
    LengthIsCanonical(s, pos, b);
    assert Lo32(|b|) == |b|;
    assert s[pos..mid + |b|] == s[pos..mid] + s[mid..mid + |b|];
  }

  /** The two parts of a field that was read: its length and its bytes. */
  lemma {:induction false} FieldParts(s: seq<byte>, pos: nat, b: seq<byte>)
    requires pos <= |s| && |b| < U32
    requires ReadBytes(s, pos) == Ok(b, pos + |Data(b)|)
    ensures var raw := RawVarint(s, pos, 0);
            raw.Ok? && Lo64(raw.value) == |b| && HasAt(s, raw.next, b) && raw.next == pos + |Varint(|b|)|
  {
    hide RawVarint, Varint, Lo64;
    assert Lo32(|b|) == |b|;
  }

  lemma {:induction false} LengthIsCanonical(s: seq<byte>, pos: nat, b: seq<byte>)
    requires pos <= |s| && |b| < U32
    requires ReadBytes(s, pos) == Ok(b, pos + |Data(b)|)
    ensures HasAt(s, pos, Varint(|b|)) && HasAt(s, pos + |Varint(|b|)|, b)
  {
    hide RawVarint, Varint, Lo64, ReadBytes;
    var raw := RawVarint(s, pos, 0);
    FieldParts(s, pos, b);
    RawVarintCanonical(s, pos, 0);
    if raw.value != |b| {
      OverlongLength(raw.value, |b|);
    }
  }

  lemma {:induction false} OverlongLength(raw: nat, n: nat)
    requires n < U32 && Lo64(raw) == n && raw != n
    ensures |Varint(n)| < |Varint(raw)|
  {
    Shl7Values(1);
    VarintLength(n, 5);
    VarintLength(raw, 5);
  }

  // ---- the format itself ----

  /** The example of the wire format's description: 300 is two groups, the low one first. */
  lemma {:induction false} LowGroupFirst()
    ensures Varint(300) == [0xAC, 0x02] && ReadVarint([0xAC, 0x02], 0) == Ok(300, 2)
  {
    assert Varint(2) == [2];
    assert RawVarint([0xAC, 0x02], 1, 1) == Ok(2, 2);
    assert Lo64(300) == 300;
  }

  /** Ten bytes that all announce another one are refused, after the tenth. */
  lemma {:induction false} TooLongVarint(s: seq<byte>, pos: nat, i: nat)
    requires i <= 10 && pos + 10 - i <= |s| && forall j | pos <= j < pos + 10 - i :: s[j] >= 128
    ensures RawVarint(s, pos, i) == Err(VarintOverflow, pos + 10 - i)
    decreases 10 - i
  {
    if i < 10 {
      TooLongVarint(s, pos + 1, i + 1);
    }
  }

  lemma {:induction false} FullGroups(s: seq<byte>, pos: nat, i: nat, x: byte)
    requires i <= 9 && pos + 10 - i <= |s| && x < 128 && s[pos + 9 - i] == x
    requires forall j | pos <= j < pos + 9 - i :: s[j] == 255
    ensures RawVarint(s, pos, i) == Ok(Shl7(x, 9 - i) + Shl7(1, 9 - i) - 1, pos + 10 - i)
    decreases 9 - i
  {
    if i < 9 {
      FullGroups(s, pos + 1, i + 1, x);
    }
  }

  /** Of the tenth group only the low bit is left of 64. */
  lemma {:induction false} TenthGroup(s: seq<byte>, x: byte)
    requires |s| == 10 && x < 128 && s[9] == x && forall j | 0 <= j < 9 :: s[j] == 255
    ensures ReadVarint(s, 0) == Ok(0x7FFF_FFFF_FFFF_FFFF + (if x % 2 == 1 then 0x8000_0000_0000_0000 else 0), 10)
  {
    hide Shl7, Lo64, RawVarint;
    FullGroups(s, 0, 0, x);
    Shl7Values(x);
    Shl7Values(1);
    var q, t := x / 2, x % 2;
    Lo64Of(q, 0x8000_0000_0000_0000 * t + 0x7FFF_FFFF_FFFF_FFFF);
  }

  /** A field that claims more bytes than are left is refused, with the cursor after its length. */
  lemma {:induction false} TooLongField(s: seq<byte>, pos: nat, n: uint64)
    requires HasAt(s, pos, Varint(n)) && n > |s| - pos - |Varint(n)|
    ensures ReadBytes(s, pos) == Err(UnexpectedEof, pos + |Varint(n)|)
  {
    VarintRoundTrip(s, pos, n);
  }

  // ---- lists of strings ----

  /** The items buffer stringSliceBlob builds. */
  function Items(v: seq<seq<byte>>): seq<byte> {
    if v == [] then [] else Data(v[0]) + Items(v[1..])
  }

  /** decodeStringSlice from a cursor position: stops at the first malformed entry. */
  function DecodeItems(s: seq<byte>, pos: nat): seq<seq<byte>>
    requires pos <= |s|
    decreases |s| - pos
  {
    if pos == |s| then []
    else
      match ReadBytes(s, pos)
      case Err(_, _) => []
      case Ok(b, next) => [b] + DecodeItems(s, next)
  }

  lemma {:induction false} ItemsSnoc(v: seq<seq<byte>>, b: seq<byte>)
    ensures Items(v + [b]) == Items(v) + Data(b)
  {
    if v == [] {
      assert v + [b] == [b] && [b][1..] == [];
    } else {
      assert (v + [b])[1..] == v[1..] + [b];
      ItemsSnoc(v[1..], b);
    }
  }

  lemma {:induction false} DecodeItemsRoundTrip(s: seq<byte>, pos: nat, v: seq<seq<byte>>)
    requires forall i | 0 <= i < |v| :: |v[i]| < U32
    requires pos <= |s| && s[pos..] == Items(v)
    ensures DecodeItems(s, pos) == v
    decreases |v|
  {
    hide Data, ReadBytes;
    if v != [] {
      var e := Data(v[0]);
      SplitTail(s, pos, e, Items(v[1..]));
      DataRoundTrip(s, pos, v[0]);
      DecodeItemsRoundTrip(s, pos + |e|, v[1..]);
      assert [v[0]] + v[1..] == v;
    }
  }

  /** A list of strings survives stringSliceBlob, readBytes and decodeStringSlice. */
  /** The entries before a torn one are kept. */
  lemma {:induction false} TornItems(s: seq<byte>, pos: nat, v: seq<seq<byte>>, b: seq<byte>, n: nat)
    requires |b| < U32 && n < |Data(b)|
    requires forall i | 0 <= i < |v| :: |v[i]| < U32
    requires pos <= |s| && s[pos..] == Items(v) + Data(b)[..n]
    ensures DecodeItems(s, pos) == v
    decreases |v|
  {
    hide Data, ReadBytes;
    if v == [] {
      assert Items(v) + Data(b)[..n] == Data(b)[..n];
      if n > 0 {
        TornData(s, pos, b);
      }
    } else {
      assert Items(v) + Data(b)[..n] == Data(v[0]) + (Items(v[1..]) + Data(b)[..n]);
      SplitTail(s, pos, Data(v[0]), Items(v[1..]) + Data(b)[..n]);
      DataRoundTrip(s, pos, v[0]);
      DataNonEmpty(v[0]);
      TornItems(s, pos + |Data(v[0])|, v[1..], b, n);
    }
  }

  lemma {:induction false} DataNonEmpty(b: seq<byte>)
    ensures |Data(b)| > 0
  {
  }

  lemma {:induction false} StringSliceRoundTrip(v: seq<seq<byte>>)
    requires forall i | 0 <= i < |v| :: |v[i]| < U32
    requires |Items(v)| < U32
    ensures ReadBytes(Data(Items(v)), 0) == Ok(Items(v), |Data(Items(v))|)
    ensures DecodeItems(Items(v), 0) == v
  {
    hide Data, ReadBytes, Items;
    DataRoundTrip(Data(Items(v)), 0, Items(v));
    DecodeItemsRoundTrip(Items(v), 0, v);
  }

  // ---- the cursor and the buffer ----

  class CodedInput {
    const buf: seq<byte>
    var pos: nat

    ghost predicate Valid()
      reads this
    {
      pos <= |buf|
    }

    constructor (b: seq<byte>)
      ensures Valid() && buf == b && pos == 0
    {
      buf, pos := b, 0;
    }

    predicate AtEnd()
      reads this
    {
      pos >= |buf|
    }

    /** Up to ten groups of seven bits, each shifted past the ones before it. */
    method ReadVarint64() returns (r: Read<uint64>)
      requires Valid()
      modifies this
      ensures Valid()
      ensures r == ReadVarint(buf, old(pos)) && pos == r.next
    {
      var x, i := 0, 0;
      while i < 10
        invariant 0 <= i <= 10 && Valid()
        invariant 0 <= x < Shl7(1, i)
        invariant ReadVarint(buf, old(pos)) == Narrow(RawVarint(buf, pos, i), x, i)
      {
        if pos >= |buf| {
          return Err(UnexpectedEof, pos);
        }
        var b := buf[pos];
        pos := pos + 1;
        if b < 128 {
          NarrowTop(x, b, i);
          return Ok(x + Lo64(Shl7(b, i)), pos);
        }
        NextGroup(buf, pos - 1, i, x);
        x := x + Shl7(b - 128, i);
        i := i + 1;
      }
      return Err(VarintOverflow, pos);
    }

    method ReadData() returns (r: Read<seq<byte>>)
      requires Valid()
      modifies this
      ensures Valid()
      ensures r == ReadBytes(buf, old(pos)) && pos == r.next
    {
      var n := ReadVarint64();
      if n.Err? {
        return Err(n.error, n.next);
      }
      if n.value > |buf| - pos {
        return Err(UnexpectedEof, pos);
      }
      var start := pos;
      pos := pos + n.value;
      return Ok(buf[start..pos], pos);
    }
  }

  /** The value whose low i groups make `x` and whose remaining groups are `rest`. */
  function Narrow(rest: Read<nat>, x: nat, i: nat): Read<uint64> {
    match rest
    case Ok(v, next) => Ok(Lo64(x + Shl7(v, i)), next)
    case Err(e, next) => Err(e, next)
  }

  /** Only the tenth group can exceed 64 bits; narrowing it alone narrows the whole value. */
  lemma {:induction false} NarrowTop(x: nat, b: byte, i: nat)
    requires i < 10 && x < Shl7(1, i) && b < 128
    ensures x + Lo64(Shl7(b, i)) == Lo64(x + Shl7(b, i))
  {
    hide Shl7, Lo64;
    Shl7Values(1);
    if i == 9 {
      Shl7Values(b);
      var q, t := b / 2, b % 2;
      assert Shl7(b, 9) == 0x1_0000_0000_0000_0000 * q + 0x8000_0000_0000_0000 * t;
      Lo64Of(q, 0x8000_0000_0000_0000 * t);
      Lo64Of(q, x + 0x8000_0000_0000_0000 * t);
    } else {
      GroupFits(x, b, i);
      Shl7Grows(1, i + 1, 9);
      Lo64Of(0, Shl7(b, i));
      Lo64Of(0, x + Shl7(b, i));
    }
  }

  lemma {:induction false} Lo64Of(q: nat, r: nat)
    requires r < U64
    ensures Lo64(0x1_0000_0000_0000_0000 * q + r) == r
  {
  }

  lemma {:induction false} GroupFits(x: nat, b: byte, i: nat)
    requires x < Shl7(1, i) && b < 128
    ensures x + Shl7(b, i) < Shl7(1, i + 1)
  {
    Shl7Add(b, 1, i);
    Shl7Add(b + 1, 127 - b, i);
    Shl7Carry(1, i);
  }

  lemma {:induction false} NextGroup(s: seq<byte>, pos: nat, i: nat, x: nat)
    requires i < 10 && pos < |s| && s[pos] >= 128 && x < Shl7(1, i)
    ensures Narrow(RawVarint(s, pos, i), x, i) ==
            Narrow(RawVarint(s, pos + 1, i + 1), x + Shl7(s[pos] - 128, i), i + 1)
    ensures x + Shl7(s[pos] - 128, i) < Shl7(1, i + 1)
  {
    GroupFits(x, s[pos] - 128, i);
    var rest := RawVarint(s, pos + 1, i + 1);
    if rest.Ok? {
      Shl7Add(s[pos] - 128, 128 * rest.value, i);
      Shl7Carry(rest.value, i);
    }
  }

  class CodedOutput {
    var buf: seq<byte>

    constructor ()
      ensures buf == []
    {
      buf := [];
    }

    method WriteRawVarint(value: nat)
      modifies this
      ensures buf == old(buf) + Varint(value)
    {
      var v := value;
      while v >= 128
        invariant v >= 0 && buf + Varint(v) == old(buf) + Varint(value)
      {
        buf := buf + [128 + v % 128];
        v := v / 128;
      }
      buf := buf + [v];
    }

    method WriteData(b: seq<byte>)
      modifies this
      ensures buf == old(buf) + Data(b)
    {
      WriteRawVarint(Lo32(|b|));
      buf := buf + b;
    }

    method WriteInt32(v: int)
      requires -0x8000_0000 <= v < 0x8000_0000
      modifies this
      ensures buf == old(buf) + Int32Varint(v)
    {
      if v >= 0 {
        WriteRawVarint(v);
      } else {
        WriteRawVarint(U64 + v);
      }
    }
  }

  method StringSliceBlob(v: seq<seq<byte>>) returns (blob: seq<byte>)
    ensures blob == Data(Items(v))
  {
    var items := new CodedOutput();
    for i := 0 to |v|
      invariant items.buf == Items(v[..i])
    {
      assert v[..i + 1] == v[..i] + [v[i]];
      ItemsSnoc(v[..i], v[i]);
      items.WriteData(v[i]);
    }
    assert v[..|v|] == v;
    var o := new CodedOutput();
    o.WriteData(items.buf);
    assert [] + Data(Items(v)) == Data(Items(v));
    blob := o.buf;
  }

  method DecodeStringSlice(items: seq<byte>) returns (out: seq<seq<byte>>)
    ensures out == DecodeItems(items, 0)
  {
    var ci := new CodedInput(items);
    out := [];
    while !ci.AtEnd()
      invariant ci.Valid() && fresh(ci) && ci.buf == items
      invariant out + DecodeItems(items, ci.pos) == DecodeItems(items, 0)
      decreases |items| - ci.pos
    {
      var s := ci.ReadData();
      if s.Err? {
        break;
      }
      out := out + [s.value];
    }
  }
}
