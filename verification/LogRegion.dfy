/**
 The key-value log: a placeholder varint followed by key/value pairs, replayed
 last-write-wins, where an empty value deletes its key.
 */
module LogRegion {
  import opened Bytes
  import opened Wire

  type Key = seq<byte>
  type Blob = seq<byte>
  type Dict = map<Key, Blob>

  /** A replay that reached the end, or stopped at a malformed field with the pairs before it. */
  datatype Parsed = Done(dict: Dict) | Stuck(dict: Dict)

  datatype Rec = Rec(key: Key, val: Blob)

  function Put(d: Dict, k: Key, v: Blob): Dict {
    if v == [] then d - {k} else d[k := v]
  }

  function Replay(s: seq<byte>, pos: nat, d: Dict): Parsed
    requires pos <= |s|
    decreases |s| - pos
  {
    if pos == |s| then Done(d)
    else
      match ReadBytes(s, pos)
      case Err(_, _) => Stuck(d)
      case Ok(key, next) =>
        if key == [] then Replay(s, next, d)
        else
          match ReadBytes(s, next)
          case Err(_, _) => Stuck(d)
          case Ok(val, end) => Replay(s, end, Put(d, key, val))
  }

  /** parseDict fails on Stuck; parseDictGreedy keeps the dictionary of either outcome. */
  function Parse(s: seq<byte>): Parsed {
    if s == [] then Done(map[])
    else
      match ReadVarint(s, 0)
      case Err(_, _) => Stuck(map[])
      case Ok(_, next) => Replay(s, next, map[])
  }

  // ---- encoding ----

  function Pair(k: Key, v: Blob): seq<byte> {
    Data(k) + Data(v)
  }

  const HOLDER: seq<byte> := [0x80, 0x80, 0x80, 0x01]

  function Records(ps: seq<Rec>): seq<byte> {
    if ps == [] then [] else Pair(ps[0].key, ps[0].val) + Records(ps[1..])
  }

  /** The records of the keys of `order`, in that order. */
  function RecsOf(order: seq<Key>, d: Dict): (ps: seq<Rec>)
    requires forall k | k in order :: k in d
    ensures |ps| == |order|
  {
    if order == [] then [] else [Rec(order[0], d[order[0]])] + RecsOf(order[1..], d)
  }

  function EncodeRegion(order: seq<Key>, d: Dict): seq<byte>
    requires forall k | k in order :: k in d
  {
    HOLDER + Records(RecsOf(order, d))
  }

  lemma {:induction false} HolderIsItemSize()
    ensures HOLDER == Varint(0x200000)
  {
    assert Varint(1) == [1];
    assert Varint(128) == [128] + Varint(1);
    assert Varint(16384) == [128] + Varint(128);
    assert Varint(0x200000) == [128] + Varint(16384);
  }

  /** Lengths the 32-bit length prefix can carry. */
  predicate Fits(r: Rec) {
    |r.key| < U32 && |r.val| < U32
  }

  // ---- replay of records ----

  function Fold(d: Dict, ps: seq<Rec>): Dict
    decreases |ps|
  {
    if ps == [] then d else Fold(Put(d, ps[0].key, ps[0].val), ps[1..])
  }

  lemma {:induction false} ReplayPair(s: seq<byte>, pos: nat, r: Rec, d: Dict)
    requires r.key != [] && Fits(r)
    requires HasAt(s, pos, Pair(r.key, r.val))
    ensures Replay(s, pos, d) == Replay(s, pos + |Pair(r.key, r.val)|, Put(d, r.key, r.val))
  {
    hide Data, ReadBytes;
    var a, b := Data(r.key), Data(r.val);
    SplitField(s, pos, a, b);
    DataRoundTrip(s, pos, r.key);
    DataRoundTrip(s, pos + |a|, r.val);
  }

  lemma {:induction false} SplitField(s: seq<byte>, pos: nat, a: seq<byte>, b: seq<byte>)
    requires HasAt(s, pos, a + b)
    ensures HasAt(s, pos, a) && HasAt(s, pos + |a|, b)
  {
    assert s[pos..pos + |a|] == s[pos..pos + |a + b|][..|a|] == a;
    assert s[pos + |a|..pos + |a| + |b|] == s[pos..pos + |a + b|][|a|..] == b;
  }

  lemma {:induction false} ReplayRecords(s: seq<byte>, pos: nat, ps: seq<Rec>, rest: seq<byte>, d: Dict)
    requires forall r | r in ps :: r.key != [] && Fits(r)
    requires pos <= |s| && s[pos..] == Records(ps) + rest
    ensures pos + |Records(ps)| <= |s|
    ensures Replay(s, pos, d) == Replay(s, pos + |Records(ps)|, Fold(d, ps))
    decreases |ps|
  {
    hide Data, ReadBytes, Pair;
    if ps != [] {
      var r, e := ps[0], Pair(ps[0].key, ps[0].val);
      assert Records(ps) + rest == e + (Records(ps[1..]) + rest);
      SplitTail(s, pos, e, Records(ps[1..]) + rest);
      ReplayPair(s, pos, r, d);
      ReplayRecords(s, pos + |e|, ps[1..], rest, Put(d, r.key, r.val));
    }
  }

  lemma {:induction false} ParseHolder(s: seq<byte>)
    requires |s| >= 4 && s[..4] == HOLDER
    ensures Parse(s) == Replay(s, 4, map[])
  {
    HolderIsItemSize();
    assert s[0..4] == s[..4];
    VarintRoundTrip(s, 0, 0x200000);
  }

  /** Replaying a placeholder and whole records folds them into the empty dictionary. */
  lemma {:induction false} ParseRecords(ps: seq<Rec>)
    requires forall r | r in ps :: r.key != [] && Fits(r)
    ensures Parse(HOLDER + Records(ps)) == Done(Fold(map[], ps))
  {
    hide Data, ReadBytes, Pair;
    var s := HOLDER + Records(ps);
    assert s[4..] == Records(ps) + [];
    ParseHolder(s);
    ReplayRecords(s, 4, ps, [], map[]);
  }

  // ---- append: replay is a homomorphism ----

  lemma {:induction false} ReplayAppend(s: seq<byte>, t: seq<byte>, pos: nat, d: Dict)
    requires pos <= |s|
    requires Replay(s, pos, d).Done?
    ensures Replay(s + t, pos, d) == Replay(s + t, |s|, Replay(s, pos, d).dict)
    decreases |s| - pos
  {
    if pos < |s| {
      ReadBytesLocal(s, t, pos);
      var key := ReadBytes(s, pos);
      if key.value == [] {
        ReplayAppend(s, t, key.next, d);
      } else {
        ReadBytesLocal(s, t, key.next);
        var val := ReadBytes(s, key.next);
        ReplayAppend(s, t, val.next, Put(d, key.value, val.value));
      }
    }
  }

  lemma {:induction false} ParseAppend(s: seq<byte>, t: seq<byte>)
    requires s != [] && Parse(s).Done?
    ensures Parse(s + t) == Replay(s + t, |s|, Parse(s).dict)
  {
    RawVarintLocal(s, t, 0, 0);
    ReplayAppend(s, t, ReadVarint(s, 0).next, map[]);
  }

  /** One appended pair updates its key, or removes it when the value is empty. */
  lemma {:induction false} ParseAppendPair(s: seq<byte>, k: Key, v: Blob)
    requires s != [] && Parse(s).Done?
    requires k != [] && |k| < U32 && |v| < U32
    ensures Parse(s + Pair(k, v)) == Done(Put(Parse(s).dict, k, v))
  {
    var t := Pair(k, v);
    ParseAppend(s, t);
    assert (s + t)[|s|..|s| + |t|] == t;
    ReplayPair(s + t, |s|, Rec(k, v), Parse(s).dict);
  }

  // ---- every replayed dictionary is clean ----

  predicate Clean(d: Dict) {
    forall k | k in d :: k != [] && d[k] != []
  }

  lemma {:induction false} ReplayClean(s: seq<byte>, pos: nat, d: Dict)
    requires pos <= |s| && Clean(d)
    ensures Clean(Replay(s, pos, d).dict)
    decreases |s| - pos
  {
    if pos < |s| && ReadBytes(s, pos).Ok? {
      var key := ReadBytes(s, pos);
      if key.value == [] {
        ReplayClean(s, key.next, d);
      } else if ReadBytes(s, key.next).Ok? {
        var val := ReadBytes(s, key.next);
        ReplayClean(s, val.next, Put(d, key.value, val.value));
      }
    }
  }

  lemma {:induction false} ParseClean(s: seq<byte>)
    ensures Clean(Parse(s).dict)
  {
    if s != [] && ReadVarint(s, 0).Ok? {
      ReplayClean(s, ReadVarint(s, 0).next, map[]);
    }
  }

  // ---- compaction: encoding a dictionary and replaying it gives it back ----

  predicate DistinctKeys(order: seq<Key>) {
    forall i, j | 0 <= i < j < |order| :: order[i] != order[j]
  }

  predicate Lists(order: seq<Key>, d: Dict) {
    && DistinctKeys(order)
    && (forall k | k in order :: k in d)
    && (forall k | k in d :: k in order)
  }

  function Without(d: Dict, order: seq<Key>): Dict {
    map k | k in d && k !in order :: d[k]
  }

  lemma {:induction false} FoldOrder(order: seq<Key>, d: Dict)
    requires DistinctKeys(order) && Clean(d)
    requires forall k | k in order :: k in d
    ensures Fold(Without(d, order), RecsOf(order, d)) == d
    decreases |order|
  {
    if order == [] {
      assert Without(d, order) == d;
    } else {
      var k, rest := order[0], order[1..];
      assert forall x :: x in order <==> x == k || x in rest;
      assert k !in rest;
      assert Put(Without(d, order), k, d[k]) == Without(d, rest);
      FoldOrder(rest, d);
    }
  }

  /** The dictionary a write-back can store: clean, with 32-bit lengths. */
  predicate Storable(d: Dict) {
    Clean(d) && forall k | k in d :: |k| < U32 && |d[k]| < U32
  }

  lemma {:induction false} RecsOfFit(order: seq<Key>, d: Dict)
    requires Storable(d)
    requires forall k | k in order :: k in d
    ensures forall r | r in RecsOf(order, d) :: r.key != [] && Fits(r)
  {
    if order != [] {
      RecsOfFit(order[1..], d);
    }
  }

  lemma {:induction false} ParseEncode(order: seq<Key>, d: Dict)
    requires Lists(order, d) && Storable(d)
    ensures Parse(EncodeRegion(order, d)) == Done(d)
  {
    RecsOfFit(order, d);
    ParseRecords(RecsOf(order, d));
    FoldOrder(order, d);
    assert Without(d, order) == map[];
  }

  // ---- compaction never enlarges a log by more than the placeholder ----

  /** The bytes the live pairs of a dictionary take, each counted once. */
  ghost function Weight(d: Dict): nat {
    if d == map[] then 0
    else
      assert d.Keys != {};
      var k :| k in d;
      |Pair(k, d[k])| + Weight(d - {k})
  }

  lemma {:induction false} WeightRemove(d: Dict, k: Key)
    requires k in d
    ensures Weight(d) == |Pair(k, d[k])| + Weight(d - {k})
    decreases |d|
  {
    assert d.Keys != {};
    var c :| c in d && Weight(d) == |Pair(c, d[c])| + Weight(d - {c});
    if c != k {
      WeightRemove(d - {c}, k);
      WeightRemove(d - {k}, c);
      assert d - {c} - {k} == d - {k} - {c};
    }
  }

  lemma {:induction false} WeightPut(d: Dict, k: Key, v: Blob)
    ensures Weight(Put(d, k, v)) <= Weight(d) + |Pair(k, v)|
  {
    if k in d {
      WeightRemove(d, k);
    } else {
      assert d - {k} == d;
    }
    if v != [] {
      WeightRemove(d[k := v], k);
      assert d[k := v] - {k} == d - {k};
    }
  }

  lemma {:induction false} ReplayWeight(s: seq<byte>, pos: nat, d: Dict)
    requires pos <= |s|
    ensures Weight(Replay(s, pos, d).dict) <= Weight(d) + |s| - pos
    decreases |s| - pos
  {
    if pos < |s| && ReadBytes(s, pos).Ok? {
      var key := ReadBytes(s, pos);
      if key.value == [] {
        ReplayWeight(s, key.next, d);
      } else if ReadBytes(s, key.next).Ok? {
        var val := ReadBytes(s, key.next);
        ReadBytesConsumes(s, pos);
        ReadBytesConsumes(s, key.next);
        WeightPut(d, key.value, val.value);
        ReplayWeight(s, val.next, Put(d, key.value, val.value));
      }
    }
  }

  lemma {:induction false} ParseWeight(s: seq<byte>)
    ensures s == [] ==> Weight(Parse(s).dict) == 0
    ensures s != [] ==> Weight(Parse(s).dict) < |s|
  {
    if s != [] && ReadVarint(s, 0).Ok? {
      ReplayWeight(s, ReadVarint(s, 0).next, map[]);
    }
  }

  lemma {:induction false} EncodedLength(order: seq<Key>, d: Dict)
    requires Lists(order, d)
    ensures |EncodeRegion(order, d)| == 4 + Weight(d)
    decreases |order|
  {
    if order == [] {
      assert d == map[];
    } else {
      var k, rest := order[0], order[1..];
      assert forall x :: x in order <==> x == k || x in rest;
      assert k !in rest;
      WeightRemove(d, k);
      RecsOfLocal(rest, d, d - {k});
      EncodedLength(rest, d - {k});
    }
  }

  lemma {:induction false} RecsOfLocal(order: seq<Key>, d: Dict, e: Dict)
    requires forall k | k in order :: k in d && k in e && d[k] == e[k]
    ensures RecsOf(order, d) == RecsOf(order, e)
  {
    if order != [] {
      RecsOfLocal(order[1..], d, e);
    }
  }

  /** Compacting a log adds at most three bytes to it, and needs four for an empty one. */
  lemma {:induction false} CompactionAddsAtMostThree(s: seq<byte>, order: seq<Key>)
    requires Lists(order, Parse(s).dict)
    ensures |EncodeRegion(order, Parse(s).dict)| <= (if s == [] then 4 else |s| + 3)
  {
    EncodedLength(order, Parse(s).dict);
    ParseWeight(s);
  }

  /** The bound is met: a one-byte log that holds nothing compacts to four bytes. */
  lemma {:induction false} CompactionCanAddThree()
    ensures Parse([0]) == Done(map[]) && |EncodeRegion([], Parse([0]).dict)| == |[0]| + 3
  {
    assert RawVarint([0], 0, 0) == Ok(0, 1);
  }

  /** A single pair is no heavier than the dictionary that holds it. */
  lemma {:induction false} WeightBoundsLengths(d: Dict)
    ensures forall k | k in d :: |k| + |d[k]| < Weight(d)
  {
    forall k | k in d
      ensures |k| + |d[k]| < Weight(d)
    {
      WeightRemove(d, k);
    }
  }

  // ---- a torn log ----

  /** How many whole records fit in the first n bytes. */
  function WholeRecords(ps: seq<Rec>, n: nat): (j: nat)
    ensures j <= |ps|
  {
    if ps == [] || |Pair(ps[0].key, ps[0].val)| > n then 0
    else 1 + WholeRecords(ps[1..], n - |Pair(ps[0].key, ps[0].val)|)
  }

  /** It is the largest such number. */
  lemma {:induction false} WholeRecordsIsLongest(ps: seq<Rec>, n: nat)
    ensures var j := WholeRecords(ps, n);
            && |Records(ps[..j])| <= n
            && (j < |ps| ==> |Records(ps[..j + 1])| > n)
  {
    if ps == [] || |Pair(ps[0].key, ps[0].val)| > n {
      if ps != [] {
        assert ps[..1] == [ps[0]];
      }
    } else {
      var e, rest := |Pair(ps[0].key, ps[0].val)|, ps[1..];
      WholeRecordsIsLongest(rest, n - e);
      var j := WholeRecords(rest, n - e);
      assert ps[..j + 1][1..] == rest[..j];
      if j < |rest| {
        assert ps[..j + 2][1..] == rest[..j + 1];
      }
    }
  }

  lemma {:induction false} TornPair(s: seq<byte>, pos: nat, r: Rec, d: Dict)
    requires r.key != [] && Fits(r)
    requires pos < |s| && |s| - pos < |Pair(r.key, r.val)|
    requires s[pos..] == Pair(r.key, r.val)[..|s| - pos]
    ensures Replay(s, pos, d) == Stuck(d)
  {
    hide Data, ReadBytes;
    var a, b, n := Data(r.key), Data(r.val), |s| - pos;
    if n < |a| {
      assert s[pos..] == a[..n];
      TornData(s, pos, r.key);
    } else {
      assert s[pos..pos + |a|] == s[pos..][..|a|] == a;
      DataRoundTrip(s, pos, r.key);
      assert s[pos + |a|..] == s[pos..][|a|..] == b[..n - |a|];
      TornData(s, pos + |a|, r.val);
    }
  }

  lemma {:induction false} TornRecords(s: seq<byte>, pos: nat, ps: seq<Rec>, d: Dict)
    requires forall r | r in ps :: r.key != [] && Fits(r)
    requires pos <= |s| && |s| - pos <= |Records(ps)|
    requires s[pos..] == Records(ps)[..|s| - pos]
    ensures var j := WholeRecords(ps, |s| - pos);
            var whole := |s| - pos == |Records(ps[..j])|;
            Replay(s, pos, d) == if whole then Done(Fold(d, ps[..j])) else Stuck(Fold(d, ps[..j]))
    decreases |ps|
  {
    hide Data, ReadBytes, Pair;
    if ps != [] {
      var r, rest, n := ps[0], ps[1..], |s| - pos;
      var e := Pair(r.key, r.val);
      if n < |e| {
        assert s[pos..] == e[..n];
        if n > 0 {
          TornPair(s, pos, r, d);
        }
      } else {
        assert s[pos..] == e + Records(rest)[..n - |e|];
        SplitTail(s, pos, e, Records(rest)[..n - |e|]);
        ReplayPair(s, pos, r, d);
        TornRecords(s, pos + |e|, rest, Put(d, r.key, r.val));
        var j := WholeRecords(rest, n - |e|);
        assert ps[..j + 1][1..] == rest[..j] && ps[..j + 1][0] == r;
      }
    }
  }

  /**
   Cut a log anywhere at or past its placeholder: the greedy decode is the replay of
   exactly the whole records before the cut, and the strict decode succeeds only on a
   record boundary.
   */
  lemma {:induction false} SalvageOfTornLog(ps: seq<Rec>, n: nat)
    requires forall r | r in ps :: r.key != [] && Fits(r)
    requires 4 <= n <= 4 + |Records(ps)|
    ensures var j := WholeRecords(ps, n - 4);
            && Parse((HOLDER + Records(ps))[..n]).dict == Fold(map[], ps[..j])
            && (Parse((HOLDER + Records(ps))[..n]).Done? <==> n == 4 + |Records(ps[..j])|)
  {
    hide Data, ReadBytes, Pair;
    var s := (HOLDER + Records(ps))[..n];
    assert s[..4] == HOLDER;
    assert s[4..] == Records(ps)[..n - 4];
    ParseHolder(s);
    TornRecords(s, 4, ps, map[]);
  }

  // ---- what a replayed log means ----

  /** The last record of a key decides: its value, or none if it is empty. */
  lemma {:induction false} LastRecordDecides(d: Dict, ps: seq<Rec>, j: nat)
    requires j < |ps| && forall i | j < i < |ps| :: ps[i].key != ps[j].key
    ensures ps[j].key in Fold(d, ps) <==> ps[j].val != []
    ensures ps[j].val != [] ==> Fold(d, ps)[ps[j].key] == ps[j].val
    decreases |ps|
  {
    var d1 := Put(d, ps[0].key, ps[0].val);
    if j == 0 {
      assert forall i | 0 <= i < |ps[1..]| :: ps[1..][i].key != ps[0].key;
      UntouchedKey(d1, ps[1..], ps[0].key);
    } else {
      assert ps[1..][j - 1] == ps[j];
      assert forall i | j - 1 < i < |ps[1..]| :: ps[1..][i].key != ps[j].key;
      LastRecordDecides(d1, ps[1..], j - 1);
    }
  }

  /** A key without a record keeps what it had. */
  lemma {:induction false} UntouchedKey(d: Dict, ps: seq<Rec>, k: Key)
    requires forall i | 0 <= i < |ps| :: ps[i].key != k
    ensures k in Fold(d, ps) <==> k in d
    ensures k in d ==> Fold(d, ps)[k] == d[k]
    decreases |ps|
  {
    if ps != [] {
      assert ps[0].key != k;
      assert forall i | 0 <= i < |ps[1..]| :: ps[1..][i].key != k;
      UntouchedKey(Put(d, ps[0].key, ps[0].val), ps[1..], k);
    }
  }

  /** After an empty key no value is read: the next field is a key again. */
  lemma {:induction false} EmptyKeySkipped(k: Key, v: Blob)
    requires k != [] && |k| < U32 && v != [] && |v| < U32
    ensures Parse(HOLDER + Data([]) + Pair(k, v)) == Done(map[k := v])
  {
    hide Pair;
    var s := HOLDER + Data([]) + Pair(k, v);
    assert Data([]) == [0];
    assert s[..4] == HOLDER && HasAt(s, 4, Data([]));
    ParseHolder(s);
    DataRoundTrip(s, 4, []);
    assert HasAt(s, 5, Pair(k, v)) && |s| == 5 + |Pair(k, v)|;
    ReplayPair(s, 5, Rec(k, v), map[]);
    assert Put(map[], k, v) == map[k := v];
  }

  /** A log cut inside its placeholder decodes to nothing. */
  lemma {:induction false} TornHolder(n: nat)
    requires 0 < n < 4
    ensures Parse(HOLDER[..n]) == Stuck(map[])
  {
    HolderIsItemSize();
    assert HOLDER[..n][0..] == Varint(0x20_0000)[..n];
    TornVarint(HOLDER[..n], 0, 0x20_0000, 0);
  }
}
