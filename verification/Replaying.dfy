/** The decoding and encoding loops of the log: parseDict, parseDictGreedy and encodeRegion. */
module Replaying {
  import opened Bytes
  import opened Wire
  import opened LogRegion

  /** A slice of the decoded buffer, as parseDict stores it. */
  datatype Slice = Slice(start: nat, len: nat)

  predicate InBounds(s: seq<byte>, views: map<Key, Slice>) {
    forall k | k in views :: views[k].start + views[k].len <= |s|
  }

  /** The dictionary that views into `s` denote. */
  function Resolve(s: seq<byte>, views: map<Key, Slice>): Dict
    requires InBounds(s, views)
  {
    map k | k in views :: s[views[k].start..views[k].start + views[k].len]
  }

  /** Storing a view of the value just read, or dropping the key of an empty one. */
  function PutView(views: map<Key, Slice>, k: Key, start: nat, len: nat): map<Key, Slice> {
    if len > 0 then views[k := Slice(start, len)] else views - {k}
  }

  lemma {:induction false} ResolvePut(s: seq<byte>, views: map<Key, Slice>, k: Key, start: nat, len: nat)
    requires InBounds(s, views) && start + len <= |s|
    ensures InBounds(s, PutView(views, k, start, len))
    ensures Resolve(s, PutView(views, k, start, len)) == Put(Resolve(s, views), k, s[start..start + len])
  {
  }

  method ReplayLoop(ci: CodedInput) returns (views: map<Key, Slice>, ok: bool)
    requires ci.Valid()
    modifies ci
    ensures InBounds(ci.buf, views)
    ensures Replay(ci.buf, old(ci.pos), map[]) ==
            if ok then Done(Resolve(ci.buf, views)) else Stuck(Resolve(ci.buf, views))
  {
    hide ReadBytes, Resolve, Put, PutView, InBounds, Replay;
    views := map[];
    NoViews(ci.buf);
    while !ci.AtEnd()
      invariant ci.Valid() && InBounds(ci.buf, views)
      invariant Replay(ci.buf, old(ci.pos), map[]) == Replay(ci.buf, ci.pos, Resolve(ci.buf, views))
      decreases |ci.buf| - ci.pos
    {
      ReplayUnfolds(ci.buf, ci.pos, Resolve(ci.buf, views));
      var key := ci.ReadData();
      if key.Err? {
        return views, false;
      }
      if key.value == [] {
        continue;
      }
      var val := ci.ReadData();
      if val.Err? {
        return views, false;
      }
      ValueIsSlice(ci.buf, key.next);
      ResolvePut(ci.buf, views, key.value, ci.pos - |val.value|, |val.value|);
      views := PutView(views, key.value, ci.pos - |val.value|, |val.value|);
    }
    ReplayUnfolds(ci.buf, ci.pos, Resolve(ci.buf, views));
    return views, true;
  }

  lemma {:induction false} NoViews(s: seq<byte>)
    ensures InBounds(s, map[]) && Resolve(s, map[]) == map[]
  {
  }

  /** One turn of the replay loop. */
  lemma {:induction false} ReplayUnfolds(s: seq<byte>, pos: nat, d: Dict)
    requires pos <= |s|
    ensures pos == |s| ==> Replay(s, pos, d) == Done(d)
    ensures pos < |s| ==>
              var key := ReadBytes(s, pos);
              && (key.Err? ==> Replay(s, pos, d) == Stuck(d))
              && (key.Ok? && key.value == [] ==> Replay(s, pos, d) == Replay(s, key.next, d))
              && (key.Ok? && key.value != [] ==>
                    var val := ReadBytes(s, key.next);
                    && (val.Err? ==> Replay(s, pos, d) == Stuck(d))
                    && (val.Ok? ==> Replay(s, pos, d) == Replay(s, val.next, Put(d, key.value, val.value))))
  {
    hide ReadBytes, Put;
  }

  lemma {:induction false} ValueIsSlice(s: seq<byte>, pos: nat)
    requires pos <= |s| && ReadBytes(s, pos).Ok?
    ensures var r := ReadBytes(s, pos); |r.value| <= r.next && s[r.next - |r.value|..r.next] == r.value
  {
  }

  /** Strict decode: any malformed field is an error. */
  method ParseDict(plain: seq<byte>) returns (views: map<Key, Slice>, ok: bool)
    ensures InBounds(plain, views)
    ensures ok <==> Parse(plain).Done?
    ensures ok ==> Resolve(plain, views) == Parse(plain).dict
  {
    var ci := new CodedInput(plain);
    if ci.AtEnd() {
      return map[], true;
    }
    var size := ci.ReadVarint64();
    if size.Err? {
      return map[], false;
    }
    views, ok := ReplayLoop(ci);
  }

  /** Tolerant decode: stops at the first malformed field and keeps what came before. */
  method ParseDictGreedy(plain: seq<byte>) returns (views: map<Key, Slice>)
    ensures InBounds(plain, views)
    ensures Resolve(plain, views) == Parse(plain).dict
  {
    var ci := new CodedInput(plain);
    if ci.AtEnd() {
      return map[];
    }
    var size := ci.ReadVarint64();
    if size.Err? {
      return map[];
    }
    var ok;
    views, ok := ReplayLoop(ci);
  }

  lemma {:induction false} RecordsSnoc(ps: seq<Rec>, r: Rec)
    ensures Records(ps + [r]) == Records(ps) + Pair(r.key, r.val)
  {
    hide Pair;
    if ps == [] {
      assert ps + [r] == [r] && [r][1..] == [];
    } else {
      assert (ps + [r])[1..] == ps[1..] + [r];
      RecordsSnoc(ps[1..], r);
    }
  }

  lemma {:induction false} RecsOfSnoc(order: seq<Key>, d: Dict, k: Key)
    requires forall x | x in order + [k] :: x in d
    ensures forall x | x in order :: x in d
    ensures k in d && RecsOf(order + [k], d) == RecsOf(order, d) + [Rec(k, d[k])]
  {
    assert k in order + [k];
    assert forall x | x in order :: x in order + [k];
    if order == [] {
      assert order + [k] == [k] && [k][1..] == [];
    } else {
      assert (order + [k])[1..] == order[1..] + [k];
      RecsOfSnoc(order[1..], d, k);
    }
  }

  lemma {:induction false} StartRegion(d: Dict)
    ensures EncodeRegion([], d) == HOLDER
  {
  }

  lemma {:induction false} ExtendRegion(order: seq<Key>, d: Dict, k: Key)
    requires forall x | x in order + [k] :: x in d
    ensures forall x | x in order :: x in d
    ensures k in d && EncodeRegion(order + [k], d) == EncodeRegion(order, d) + Data(k) + Data(d[k])
  {
    hide Data, Records;
    RecsOfSnoc(order, d, k);
    RecordsSnoc(RecsOf(order, d), Rec(k, d[k]));
  }

  method PackRegion(order: seq<Key>, blob: Dict) returns (region: seq<byte>)
    requires forall k | k in order :: k in blob
    ensures region == EncodeRegion(order, blob)
  {
    HolderIsItemSize();
    var o := new CodedOutput();
    o.WriteRawVarint(0x200000);
    hide Varint, Data, Records, RecsOf;
    StartRegion(blob);
    for i := 0 to |order|
      invariant forall k | k in order[..i] :: k in blob
      invariant o.buf == EncodeRegion(order[..i], blob)
    {
      var k := order[i];
      assert order[..i + 1] == order[..i] + [k];
      ExtendRegion(order[..i], blob, k);
      o.WriteData(k);
      o.WriteData(blob[k]);
    }
    assert order[..|order|] == order;
    region := o.buf;
  }
}
