/** File sizing: page rounding, growth with headroom, and the shrinking loop of Trim. */
module Growth {
  import opened Bytes

  type PageSize = n: nat | n >= 4096 witness 4096

  function Max(a: nat, b: nat): nat {
    if a < b then b else a
  }

  /** pageRoundUp */
  function PageRoundUp(page: PageSize, n: nat): nat {
    if n <= page then page else (n + page - 1) / page * page
  }

  lemma {:induction false} PageRoundUpBounds(page: PageSize, n: nat)
    ensures n <= PageRoundUp(page, n)
    ensures page <= PageRoundUp(page, n)
    ensures PageRoundUp(page, n) < Max(n, 1) + page
  {
    if n > page {
      var q := (n + page - 1) / page;
      assert n + page - 1 == q * page + (n + page - 1) % page;
      assert q >= 1 ==> q * page >= page;
    }
  }

  /** Whole pages. */
  lemma {:induction false} PageRoundUpIsPages(page: PageSize, n: nat)
    ensures exists q: nat :: PageRoundUp(page, n) == q * page
  {
    if n <= page {
      assert PageRoundUp(page, n) == 1 * page;
    } else {
      assert PageRoundUp(page, n) == (n + page - 1) / page * page;
    }
  }

  lemma {:induction false} PageRoundUpMonotone(page: PageSize, a: nat, b: nat)
    requires a <= b
    ensures PageRoundUp(page, a) <= PageRoundUp(page, b)
  {
    PageRoundUpBounds(page, b);
    if page < a {
      DivMonotone(a + page - 1, b + page - 1, page);
    }
  }

  lemma {:induction false} DivMonotone(a: nat, b: nat, p: nat)
    requires a <= b && p > 0
    ensures a / p * p <= b / p * p
  {
    var q, r := a / p, b / p;
    assert a == q * p + a % p && b == r * p + b % p;
    if r < q {
      assert (r + 1) * p <= q * p;
    }
  }

  // ---- growth ----

  /** Doubled until it exceeds the target. */
  function Doubled(size: nat, target: nat): (r: nat)
    requires size >= 1
    ensures r > target && r >= size
    decreases target - size
  {
    if target >= size then Doubled(size * 2, target) else size
  }

  /** Doubling stops at the first size that fits: a file that had to grow ends at most twice the target. */
  lemma {:induction false} DoubledIsTight(size: nat, target: nat)
    requires 1 <= size <= target
    ensures Doubled(size, target) <= 2 * target
    decreases target - size
  {
    if size * 2 <= target {
      DoubledIsTight(size * 2, target);
    }
  }

  /** It is the size times a power of two. */
  lemma {:induction false} DoubledIsPower(size: nat, target: nat) returns (j: nat)
    requires size >= 1
    ensures Doubled(size, target) == size * Pow2(j) && (j > 0 ==> size * Pow2(j - 1) <= target)
    decreases target - size
  {
    hide Pow2;
    if target >= size {
      var i := DoubledIsPower(size * 2, target);
      j := i + 1;
      PowStep(size, i);
      if i > 0 {
        PowStep(size, i - 1);
      }
    } else {
      j := 0;
    }
    PowZero(size);
  }

  lemma {:induction false} PowZero(size: nat)
    ensures size * Pow2(0) == size
  {
  }

  lemma {:induction false} PowStep(size: nat, i: nat)
    ensures size * Pow2(i + 1) == size * 2 * Pow2(i)
  {
    assert Pow2(i + 1) == 2 * Pow2(i);
    assert size * (2 * Pow2(i)) == size * 2 * Pow2(i);
  }

  /** Room for max(8, half as many) more average pairs after `count` live keys. */
  function FutureUsage(lenNeeded: nat, count: nat): nat {
    var later := count + 1;
    (lenNeeded + later - 1) / later * Max(8, later / 2)
  }

  /** The size the file is asked to exceed, and whether a rewrite has to grow it. */
  function Target(payload: nat, count: nat, incoming: nat): nat {
    var lenNeeded := 4 + payload + incoming;
    if incoming > 0 then lenNeeded + FutureUsage(lenNeeded, count) else lenNeeded
  }

  predicate MustGrow(size: nat, payload: nat, count: nat, needSync: bool, incoming: nat) {
    || 4 + payload + incoming >= size
    || (incoming > 0 && needSync && Target(payload, count, incoming) >= size)
  }

  /** The file size after fullWritebackGrow. */
  function GrownSize(page: PageSize, size: nat, payload: nat, count: nat, needSync: bool, incoming: nat): nat {
    if MustGrow(size, payload, count, needSync, incoming)
    then PageRoundUp(page, Doubled(Max(size, 1), Target(payload, count, incoming)))
    else size
  }

  /** The payload always fits the file, grown or not, and the file never shrinks. */
  lemma {:induction false} PayloadFits(
      page: PageSize, size: nat, payload: nat, count: nat, needSync: bool, incoming: nat)
    ensures var r := GrownSize(page, size, payload, count, needSync, incoming);
            r >= size && r > 4 + payload + incoming
  {
    hide FutureUsage;
    if MustGrow(size, payload, count, needSync, incoming) {
      PageRoundUpBounds(page, Doubled(Max(size, 1), Target(payload, count, incoming)));
    }
  }

  lemma {:induction false} MulMonotone(a: nat, b: nat, c: nat)
    requires a <= b
    ensures a * c <= b * c
  {
  }

  /** The headroom is at least eight seventeenths of the bytes needed. */
  lemma {:induction false} HeadroomShare(lenNeeded: nat, count: nat)
    ensures 17 * FutureUsage(lenNeeded, count) >= 8 * lenNeeded
  {
    var c := count + 1;
    var avg, q := (lenNeeded + c - 1) / c, Max(8, c / 2);
    assert avg * c >= lenNeeded by {
      assert lenNeeded + c - 1 == avg * c + (lenNeeded + c - 1) % c;
    }
    assert 17 * q >= 8 * c;
    MulMonotone(8 * c, 17 * q, avg);
    assert 8 * c * avg == 8 * (avg * c);
    assert 17 * q * avg == 17 * (avg * q);
  }

  /** After a set-triggered rewrite of a non-empty store the free tail holds the headroom. */
  lemma {:induction false} HeadroomIsFree(page: PageSize, size: nat, payload: nat, count: nat, incoming: nat)
    requires incoming > 0
    ensures GrownSize(page, size, payload, count, true, incoming) - 4 - payload
            > incoming + FutureUsage(4 + payload + incoming, count)
  {
    hide FutureUsage;
    if MustGrow(size, payload, count, true, incoming) {
      PageRoundUpBounds(page, Doubled(Max(size, 1), Target(payload, count, incoming)));
    }
  }

  /** A rewrite that fits leaves the file alone; only a pending record of a non-empty store asks for headroom. */
  lemma {:induction false} KeptSize(page: PageSize, size: nat, payload: nat, count: nat, needSync: bool, incoming: nat)
    requires 4 + payload + incoming < size
    requires incoming == 0 || !needSync || 4 + payload + incoming + FutureUsage(4 + payload + incoming, count) < size
    ensures GrownSize(page, size, payload, count, needSync, incoming) == size
  {
    hide FutureUsage;
  }

  /** Without a pending record a rewrite that must grow asks for no headroom. */
  lemma {:induction false} NoHeadroomWithoutRecord(page: PageSize, size: nat, payload: nat, count: nat, needSync: bool)
    requires size >= 1
    ensures var r := GrownSize(page, size, payload, count, needSync, 0);
            r == size || (4 + payload >= size && r <= PageRoundUp(page, 2 * (4 + payload)))
  {
    if 4 + payload >= size {
      DoubledIsTight(size, 4 + payload);
      PageRoundUpMonotone(page, Doubled(size, 4 + payload), 2 * (4 + payload));
    }
  }

  /** Headroom for as many average records, rounded up, as max(8, half the keys to come). */
  lemma {:induction false} HeadroomIs(average: nat, count: nat, slack: nat)
    requires slack <= count
    ensures average * (count + 1) >= slack ==>
              FutureUsage(average * (count + 1) - slack, count) == average * Max(8, (count + 1) / 2)
  {
    var later := count + 1;
    if average * later >= slack {
      var n := average * later - slack;
      assert n + later - 1 == average * later + (later - 1 - slack);
      DivUnique(n + later - 1, later, average, later - 1 - slack);
    }
  }

  lemma {:induction false} DivUnique(n: nat, d: nat, q: nat, r: nat)
    requires n == q * d + r && r < d
    ensures n / d == q
  {
    assert n == n / d * d + n % d;
    if n / d < q {
      MulMonotone(n / d + 1, q, d);
    } else if n / d > q {
      MulMonotone(q + 1, n / d, d);
    }
  }

  lemma {:induction false} AverageBounds(n: nat, later: nat)
    requires 1 <= n && 1 <= later
    ensures var average := (n + later - 1) / later; average * later <= n + later - 1 && average <= n
  {
    var average := (n + later - 1) / later;
    assert n + later - 1 == average * later + (n + later - 1) % later;
    assert (n + 1) * later == n * later + later;
    MulMonotone(1, later, n);
    if average > n {
      MulMonotone(n + 1, average, later);
    }
  }

  lemma {:induction false} HalfOfThem(average: nat, later: nat, n: nat)
    requires average * later <= n + later - 1 && later <= n
    ensures average * (later / 2) <= n
  {
    var half := later / 2;
    MulMonotone(2 * half, later, average);
    assert 2 * half * average == 2 * (average * half);
    assert later * average == average * later;
  }

  /** The headroom is at most eight times the bytes needed when every live key takes a byte of them. */
  lemma {:induction false} HeadroomBounded(lenNeeded: nat, count: nat)
    requires count + 1 <= lenNeeded
    ensures FutureUsage(lenNeeded, count) <= 8 * lenNeeded
  {
    var later := count + 1;
    AverageBounds(lenNeeded, later);
    HalfOfThem((lenNeeded + later - 1) / later, later, lenNeeded);
  }

  /** A rewrite leaves the size, or asks for at most eighteen times what it needs, in whole pages. */
  lemma {:induction false} GrowthBounded(
      page: PageSize, size: nat, payload: nat, count: nat, needSync: bool, incoming: nat)
    requires count <= payload && size >= 1
    ensures var r := GrownSize(page, size, payload, count, needSync, incoming);
            r == size || r <= 18 * (4 + payload + incoming) + page
  {
    hide FutureUsage;
    var target := Target(payload, count, incoming);
    HeadroomBounded(4 + payload + incoming, count);
    if MustGrow(size, payload, count, needSync, incoming) {
      DoubledIsTight(size, target);
      PageRoundUpBounds(page, Doubled(Max(size, 1), target));
    }
  }

  method GrowTo(page: PageSize, size: nat, payload: nat, count: nat, needSync: bool, incoming: nat) returns (r: nat)
    ensures r == GrownSize(page, size, payload, count, needSync, incoming)
  {
    var lenNeeded := 4 + payload + incoming;
    var target := lenNeeded;
    var grow := lenNeeded >= size;
    if incoming > 0 {
      target := lenNeeded + FutureUsage(lenNeeded, count);
      if needSync && target >= size {
        grow := true;
      }
    }
    if !grow {
      return size;
    }
    var newSize := Max(size, 1);
    while target >= newSize
      invariant newSize >= 1 && Doubled(newSize, target) == Doubled(Max(size, 1), target)
      decreases target - newSize
    {
      newSize := newSize * 2;
    }
    r := PageRoundUp(page, newSize);
  }

  // ---- Trim ----

  /** Halved while it is more than twice the bytes in use. */
  function Halved(target: nat, used: nat): (r: nat)
    requires used >= 1
    ensures r <= target && r <= 2 * used
    ensures r < target ==> r >= used
    decreases target
  {
    if target > used * 2 then Halved(target / 2, used) else target
  }

  /** Where Trim's halving loop stops, floored at one page. */
  function TrimTarget(page: PageSize, size: nat, actual: nat): nat {
    Max(Halved(size, actual + 4), PageRoundUp(page, 0))
  }

  /** The file size Trim leaves: unchanged when already tight. */
  function TrimmedSize(page: PageSize, size: nat, actual: nat): nat {
    var target := TrimTarget(page, size, actual);
    if target >= size then size else PageRoundUp(page, target)
  }

  lemma {:induction false} HalvedKeepsUsed(target: nat, used: nat)
    requires 1 <= used <= target
    ensures used <= Halved(target, used)
  {
  }

  /** Trim never cuts the region off, and leaves at most twice the bytes in use, page-rounded. */
  lemma {:induction false} TrimBounds(page: PageSize, size: nat, actual: nat)
    requires actual + 4 <= size && page <= size
    ensures var r := TrimmedSize(page, size, actual);
            && actual + 4 <= r && page <= r
            && r <= Max(page, PageRoundUp(page, 2 * (actual + 4)))
  {
    var h := Halved(size, actual + 4);
    HalvedKeepsUsed(size, actual + 4);
    var target := Max(h, page);
    PageRoundUpBounds(page, target);
    PageRoundUpBounds(page, 2 * (actual + 4));
    PageRoundUpMonotone(page, target, Max(page, 2 * (actual + 4)));
  }

  method ShrinkTarget(page: PageSize, size: nat, actual: nat) returns (target: nat)
    ensures target == TrimTarget(page, size, actual)
  {
    var floor := PageRoundUp(page, 0);
    target := size;
    while target > (actual + 4) * 2
      invariant target >= 0 && Halved(target, actual + 4) == Halved(size, actual + 4)
    {
      target := target / 2;
    }
    if target < floor {
      target := floor;
    }
  }

  /** The loop halves and does not cut to fit: ten pages with 6000 bytes in use end at three, not two. */
  lemma {:induction false} TrimHalves()
    ensures TrimmedSize(4096, 40960, 5996) == 12288
  {
    assert Halved(10240, 6000) == 10240;
    assert Halved(20480, 6000) == 10240;
    assert Halved(40960, 6000) == 10240;
    assert PageRoundUp(4096, 10240) == 12288;
  }
}
