/** Values that carry a trailing expiration timestamp. */
module Expiry {
  import opened Bytes
  import opened LogRegion

  datatype Lookup = Absent | Present(blob: Blob)

  /** appendExpire's timestamp: 0 means never; the sum wraps at 32 bits. */
  function ExpireAt(seconds: uint32, now: uint32): uint32 {
    if seconds == 0 then 0 else Lo32(now + seconds)
  }

  function Stamp(blob: Blob, at: uint32): Blob {
    blob + Le32(at)
  }

  /** What value() makes of a stored blob at a given time. */
  function Visible(stored: Blob, expire: bool, now: uint32): Lookup {
    if !expire || |stored| < 4 then Present(stored)
    else
      var at := GetLe32(stored, |stored| - 4);
      if at != 0 && at <= now then Absent else Present(stored[..|stored| - 4])
  }

  function Value(d: Dict, expire: bool, key: Key, now: uint32): Lookup {
    if key in d then Visible(d[key], expire, now) else Absent
  }

  /** The map a reader sees at a given time. */
  function VisibleMap(d: Dict, expire: bool, now: uint32): Dict {
    map k | k in d && Visible(d[k], expire, now).Present? :: Visible(d[k], expire, now).blob
  }

  /** The time at which each key is looked at; the clock is read anew for every one. */
  type Clock = Key -> uint32

  /** What a loop over the keys that reads the clock for each of them finds live. */
  function VisibleAt(d: Dict, expire: bool, at: Clock): Dict {
    map k | k in d && Visible(d[k], expire, at(k)).Present? :: Visible(d[k], expire, at(k)).blob
  }

  /** EnableAutoKeyExpire gives every stored value a never-expiring timestamp. */
  function StampAll(d: Dict): Dict {
    map k | k in d :: Stamp(d[k], 0)
  }

  /** A stamped value reads back as the value itself until its timestamp passes. */
  lemma {:induction false} StampedVisible(blob: Blob, at: uint32, now: uint32)
    ensures Visible(Stamp(blob, at), true, now) == if at == 0 || at > now then Present(blob) else Absent
  {
    hide Le32, GetLe32;
    var s := Stamp(blob, at);
    assert s[|s| - 4..|s| - 4 + 4] == Le32(at);
    Le32RoundTrip(s, |s| - 4, at);
    assert s[..|s| - 4] == blob;
  }

  /** Enabling expiration changes nothing a reader sees, now or later. */
  lemma {:induction false} EnablePreservesVisible(d: Dict, t: uint32)
    ensures VisibleMap(StampAll(d), true, t) == VisibleMap(d, false, t)
  {
    hide Stamp;
    forall k | k in d
      ensures Visible(StampAll(d)[k], true, t) == Present(d[k])
    {
      StampedVisible(d[k], 0, t);
    }
  }

  /** Between the first and the last reading, what was live all the time is found, and what never was is not. */
  lemma {:induction false} ClockBetween(d: Dict, expire: bool, at: Clock, t0: uint32, t1: uint32)
    requires forall k | k in d :: t0 <= at(k) <= t1
    ensures VisibleMap(d, expire, t1).Keys <= VisibleAt(d, expire, at).Keys <= VisibleMap(d, expire, t0).Keys
    ensures forall k | k in VisibleAt(d, expire, at) :: VisibleAt(d, expire, at)[k] == VisibleMap(d, expire, t0)[k]
    ensures t0 == t1 ==> VisibleAt(d, expire, at) == VisibleMap(d, expire, t0)
  {
    hide GetLe32;
  }

  /** Enabling with no duration and disabling, whenever its loop reads the clock, is the identity. */
  lemma {:induction false} EnableThenDisable(d: Dict, at: Clock)
    ensures VisibleAt(StampAll(d), true, at) == d
  {
    hide Visible, Stamp;
    forall k | k in d
      ensures Visible(StampAll(d)[k], true, at(k)) == Present(d[k])
    {
      StampedVisible(d[k], 0, at(k));
    }
  }

  lemma {:induction false} PlainVisible(blob: Blob, t: uint32)
    ensures Visible(blob, false, t) == Present(blob)
  {
  }

  /**
   A set under expiration is seen by a reader at time t exactly when its timestamp is
   zero or still ahead; every other key is seen as before.
   */
  lemma {:induction false} SetVisible(d: Dict, key: Key, blob: Blob, seconds: uint32, now: uint32, t: uint32)
    ensures var at := ExpireAt(seconds, now);
            VisibleMap(d[key := Stamp(blob, at)], true, t) ==
            if at == 0 || at > t then VisibleMap(d, true, t)[key := blob] else VisibleMap(d, true, t) - {key}
  {
    hide Visible, Stamp;
    StampedVisible(blob, ExpireAt(seconds, now), t);
  }

  /** With no 32-bit overflow a set is visible for its whole duration and no longer. */
  lemma {:induction false} SetVisibleForDuration(d: Dict, key: Key, blob: Blob, seconds: uint32, now: uint32, t: uint32)
    requires seconds > 0 && now + seconds < U32
    ensures key in VisibleMap(d[key := Stamp(blob, ExpireAt(seconds, now))], true, t) <==> t < now + seconds
  {
    hide Visible, Stamp, VisibleMap;
    SetVisible(d, key, blob, seconds, now, t);
  }

  /** No visible value is empty: the condition under which disabling keeps every visible key. */
  predicate NoEmptyVisible(d: Dict, at: Clock) {
    forall k | k in d :: Visible(d[k], true, at(k)) != Present([])
  }

  /** A reader can see an empty value only in a stored blob of exactly the timestamp's size. */
  lemma {:induction false} EmptyVisibleIsBareStamp(stored: Blob, now: uint32)
    requires stored != []
    ensures Visible(stored, true, now) == Present([]) <==>
            |stored| == 4 && (GetLe32(stored, 0) == 0 || GetLe32(stored, 0) > now)
  {
  }

  /** A stored value too short to hold a timestamp is handed out whole. */
  lemma {:induction false} ShortValueWhole(stored: Blob, now: uint32)
    requires |stored| < 4
    ensures Visible(stored, true, now) == Present(stored)
  {
  }

  /** The visible map is what the gets of its time answer. */
  lemma {:induction false} VisibleMapIsGets(d: Dict, expire: bool, k: Key, t: uint32)
    ensures Value(d, expire, k, t) ==
            if k in VisibleMap(d, expire, t) then Present(VisibleMap(d, expire, t)[k]) else Absent
  {
    hide Visible;
  }
}
