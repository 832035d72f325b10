/** Byte-wise string order and the sorted listing of a set of keys (sort.Strings). */
module KeyOrder {
  import opened Bytes
  import opened LogRegion

  predicate Less(a: Key, b: Key) {
    b != [] && (a == [] || a[0] < b[0] || (a[0] == b[0] && Less(a[1..], b[1..])))
  }

  lemma {:induction false} LessIsTotal(a: Key, b: Key)
    ensures Less(a, b) || a == b || Less(b, a)
    ensures Less(a, b) ==> a != b && !Less(b, a)
  {
    if a != [] && b != [] && a[0] == b[0] {
      LessIsTotal(a[1..], b[1..]);
      assert a == [a[0]] + a[1..] && b == [b[0]] + b[1..];
    }
  }

  lemma {:induction false} LessIsTransitive(a: Key, b: Key, c: Key)
    requires Less(a, b) && Less(b, c)
    ensures Less(a, c)
  {
    if a != [] && a[0] == b[0] == c[0] {
      LessIsTransitive(a[1..], b[1..], c[1..]);
    }
  }

  /** Bytes are compared at the first place where the keys differ; a proper prefix comes first. */
  lemma {:induction false} LessAtFirstDifference(a: Key, b: Key, i: nat)
    requires i <= |a| && i <= |b| && a[..i] == b[..i]
    ensures i == |a| && i < |b| ==> Less(a, b)
    ensures i < |a| && i < |b| && a[i] != b[i] ==> (Less(a, b) <==> a[i] < b[i])
    decreases i
  {
    if i > 0 {
      assert a[0] == a[..i][0] == b[..i][0] == b[0];
      assert a[1..][..i - 1] == a[..i][1..] == b[..i][1..] == b[1..][..i - 1];
      LessAtFirstDifference(a[1..], b[1..], i - 1);
    }
  }

  predicate Sorted(ks: seq<Key>) {
    ks == [] || ((forall k | k in ks[1..] :: Less(ks[0], k)) && Sorted(ks[1..]))
  }

  function Insert(k: Key, ks: seq<Key>): seq<Key> {
    if ks == [] || Less(k, ks[0]) then [k] + ks else [ks[0]] + Insert(k, ks[1..])
  }

  lemma {:induction false} InsertSorted(k: Key, ks: seq<Key>)
    requires Sorted(ks) && k !in ks
    ensures Sorted(Insert(k, ks))
    ensures forall x :: x in Insert(k, ks) <==> x == k || x in ks
  {
    if ks != [] {
      var rest := ks[1..];
      assert forall x :: x in ks <==> x == ks[0] || x in rest;
      LessIsTotal(k, ks[0]);
      if Less(k, ks[0]) {
        forall x | x in ks
          ensures Less(k, x)
        {
          if x != ks[0] {
            LessIsTransitive(k, ks[0], x);
          }
        }
        assert ([k] + ks)[1..] == ks;
      } else {
        InsertSorted(k, rest);
        assert ([ks[0]] + Insert(k, rest))[1..] == Insert(k, rest);
      }
    }
  }

  ghost function SortedKeys(s: set<Key>): (ks: seq<Key>)
    ensures Sorted(ks)
    ensures forall k :: k in ks <==> k in s
  {
    if s == {} then []
    else
      var k :| k in s;
      InsertSorted(k, SortedKeys(s - {k}));
      Insert(k, SortedKeys(s - {k}))
  }

  /** A set has one sorted listing, whatever order its elements were collected in. */
  lemma {:induction false} SortedIsUnique(a: seq<Key>, b: seq<Key>)
    requires Sorted(a) && Sorted(b)
    requires forall k :: k in a <==> k in b
    ensures a == b
  {
    assert b == [] || b[0] in b;
    if a != [] {
      assert a[0] in b && b[0] in a;
      LessIsTotal(a[0], b[0]);
      LessIsTotal(a[0], a[0]);
      forall k
        ensures k in a[1..] <==> k in b[1..]
      {
        assert k in a <==> k == a[0] || k in a[1..];
        assert k in b <==> k == b[0] || k in b[1..];
      }
      SortedIsUnique(a[1..], b[1..]);
      assert a == [a[0]] + a[1..] && b == [b[0]] + b[1..];
    }
  }

  lemma {:induction false} SortedIsDistinct(ks: seq<Key>)
    requires Sorted(ks)
    ensures DistinctKeys(ks)
  {
    if ks != [] {
      SortedIsDistinct(ks[1..]);
      LessIsTotal(ks[0], ks[0]);
      forall i, j | 0 <= i < j < |ks|
        ensures ks[i] != ks[j]
      {
        assert ks[j] == ks[1..][j - 1];
        if i > 0 {
          assert ks[i] == ks[1..][i - 1];
        }
      }
    }
  }

  /** The region fullWriteback packs: the live pairs in key order. */
  ghost function Packed(d: Dict): seq<byte> {
    EncodeRegion(SortedKeys(d.Keys), d)
  }

  lemma {:induction false} SortedKeysList(d: Dict)
    ensures Lists(SortedKeys(d.Keys), d)
  {
    SortedIsDistinct(SortedKeys(d.Keys));
  }

  /** Compaction preserves meaning. */
  lemma {:induction false} PackedParses(d: Dict)
    requires Storable(d)
    ensures Parse(Packed(d)) == Done(d)
  {
    SortedKeysList(d);
    ParseEncode(SortedKeys(d.Keys), d);
  }

  lemma {:induction false} PackedLength(d: Dict)
    ensures |Packed(d)| == 4 + Weight(d)
  {
    SortedKeysList(d);
    EncodedLength(SortedKeys(d.Keys), d);
  }

  lemma {:induction false} PackedOne(k: Key, v: Blob)
    ensures Packed(map[k := v]) == HOLDER + Pair(k, v)
  {
    hide Pair;
    var d := map[k := v];
    assert [k][1..] == [];
    assert Sorted([k]);
    SortedIsUnique(SortedKeys(d.Keys), [k]);
    assert RecsOf([k], d) == [Rec(k, v)] + RecsOf([], d) == [Rec(k, v)];
    OneRecord(Rec(k, v));
  }

  /** Two records are packed with the smaller key first. */
  lemma {:induction false} PackedTwo(k: Key, v: Blob, l: Key, w: Blob)
    requires Less(k, l)
    ensures k != l && Packed(map[k := v, l := w]) == HOLDER + Pair(k, v) + Pair(l, w)
  {
    hide Pair, Less;
    LessIsTotal(k, l);
    var d := map[k := v, l := w];
    assert [k, l][1..] == [l] && [l][1..] == [];
    assert Sorted([l]);
    assert Sorted([k, l]);
    SortedIsUnique(SortedKeys(d.Keys), [k, l]);
    assert RecsOf([l], d) == [Rec(l, w)] + RecsOf([], d) == [Rec(l, w)];
    assert RecsOf([k, l], d) == [Rec(k, v)] + RecsOf([l], d) == [Rec(k, v), Rec(l, w)];
    OneRecord(Rec(l, w));
    assert [Rec(k, v), Rec(l, w)][1..] == [Rec(l, w)];
  }

  lemma {:induction false} OneRecord(r: Rec)
    ensures Records([r]) == Pair(r.key, r.val)
  {
    hide Pair;
    assert [r][1..] == [];
    assert Pair(r.key, r.val) + [] == Pair(r.key, r.val);
  }

  /** Collects the keys in any order, inserting each in its place. */
  method CollectKeys<T>(d: map<Key, T>) returns (ks: seq<Key>)
    ensures ks == SortedKeys(d.Keys)
  {
    ks := [];
    var left := d.Keys;
    while left != {}
      invariant Sorted(ks) && left <= d.Keys
      invariant forall k :: k in ks <==> k in d.Keys - left
      decreases |left|
    {
      var k :| k in left;
      InsertSorted(k, ks);
      ks := Insert(k, ks);
      left := left - {k};
    }
    SortedIsUnique(ks, SortedKeys(d.Keys));
  }
}
