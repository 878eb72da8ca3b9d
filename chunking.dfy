/**
 * NTILE chunk assignment as defined for the NTILE window function in
 * ISO/IEC 9075-2 (SQL:2003 and later), section 6.10: `NTILE(C)` over an
 * ordered sequence of R rows splits it into C contiguous buckets numbered
 * from 1, where the first `R mod C` buckets hold `R/C + 1` rows and the
 * remaining ones `R/C`. Both checksum queries use it with the table list's
 * chunk count.
 */
module Chunking {

  /** `n` copies of `v`. */
  function Repeat(v: int, n: nat): (s: seq<int>)
    ensures |s| == n
    ensures forall i :: 0 <= i < n ==> s[i] == v
  {
    seq(n, i => v)
  }

  /** Every id moved one bucket up. */
  function Shift(s: seq<int>): (t: seq<int>)
    ensures |t| == |s|
    ensures forall i :: 0 <= i < |s| ==> t[i] == s[i] + 1
  {
    seq(|s|, i requires 0 <= i < |s| => s[i] + 1)
  }

  /**
   * The bucket ids of `c` buckets laid out in order, the first `s` holding
   * `q + 1` rows each and the others `q`.
   */
  function Tiles(q: nat, s: nat, c: nat): (ids: seq<int>)
    requires s <= c
    ensures forall i :: 0 <= i < |ids| ==> 1 <= ids[i] <= c
    decreases c
  {
    if c == 0 then []
    else Repeat(1, if s > 0 then q + 1 else q) + Shift(Tiles(q, if s > 0 then s - 1 else 0, c - 1))
  }

  lemma {:induction false} TilesLength(q: nat, s: nat, c: nat)
    requires s <= c
    ensures |Tiles(q, s, c)| == c * q + s
    decreases c
  {
    if c > 0 {
      TilesLength(q, if s > 0 then s - 1 else 0, c - 1);
      MulStepDown(c, q);
    }
  }

  lemma MulStepDown(k: nat, q: nat)
    requires k >= 1
    ensures k * q == (k - 1) * q + q
  {
  }

  /**
   * `NTILE(C)` over R ordered rows: the bucket number of every row position,
   * the first `R mod C` buckets holding `R/C + 1` rows and the others `R/C`.
   */
  function Ntile(r: nat, c: nat): (ids: seq<int>)
    requires c >= 1
    ensures |ids| == r
    ensures forall i :: 0 <= i < r ==> 1 <= ids[i] <= c
  {
    TilesLength(r / c, r % c, c);
    Tiles(r / c, r % c, c)
  }

  /** The number of rows the standard puts in bucket `b`. */
  function BucketSize(b: int, r: nat, c: nat): nat
    requires c >= 1
  {
    if 1 <= b <= c then (if b <= r % c then r / c + 1 else r / c) else 0
  }

  /** Quotient and remainder are determined by the division equation. */
  lemma DivModUnique(n: int, d: int, q: int, s: int)
    requires d > 0 && 0 <= s < d && n == d * q + s
    ensures n / d == q && n % d == s
  {
    var q0, s0 := n / d, n % d;
    assert d * q0 + s0 == d * q + s;
    if q0 > q {
      assert d * (q0 - q) == s - s0;
      MulAtLeast(d, q0 - q);
    } else if q0 < q {
      assert d * (q - q0) == s0 - s;
      MulAtLeast(d, q - q0);
    }
  }

  lemma MulAtLeast(d: int, k: int)
    requires d > 0 && k >= 1
    ensures d * k >= d
  {
  }

  /** Occurrences of `b` among the ids. */
  function Count(ids: seq<int>, b: int): nat {
    multiset(ids)[b]
  }

  lemma CountRepeat(v: int, n: nat, b: int)
    ensures Count(Repeat(v, n), b) == if b == v then n else 0
  {
    if n > 0 {
      assert Repeat(v, n) == Repeat(v, n - 1) + [v];
      CountRepeat(v, n - 1, b);
    }
  }

  lemma {:induction false} CountShift(s: seq<int>, b: int)
    ensures Count(Shift(s), b) == Count(s, b - 1)
  {
    if s != [] {
      var n := |s| - 1;
      assert s == s[..n] + [s[n]];
      assert Shift(s) == Shift(s[..n]) + [s[n] + 1];
      CountShift(s[..n], b);
    }
  }

  /** A value no id equals does not occur. */
  lemma CountAbsent(ids: seq<int>, b: int)
    requires forall i :: 0 <= i < |ids| ==> ids[i] != b
    ensures Count(ids, b) == 0
  {
    assert b !in ids;
  }

  /** The size of bucket `b` in the layout `Tiles(q, s, c)`. */
  function TileSize(b: int, q: nat, s: nat, c: nat): nat {
    if 1 <= b <= c then (if b <= s then q + 1 else q) else 0
  }

  lemma {:induction false} TilesCount(q: nat, s: nat, c: nat, b: int)
    requires s <= c
    ensures Count(Tiles(q, s, c), b) == TileSize(b, q, s, c)
    decreases c
  {
    if c > 0 {
      if b <= 1 {
        TilesCountLow(q, s, c, b);
      } else {
        var s' := if s > 0 then s - 1 else 0;
        TilesSplitCount(q, s, c, b);
        TilesCount(q, s', c - 1, b - 1);
        TileSizeStep(q, s, c, b, Count(Tiles(q, s', c - 1), b - 1));
      }
    }
  }

  /** Bucket 1 holds the first bucket's rows, and no bucket below 1 holds any. */
  lemma TilesCountLow(q: nat, s: nat, c: nat, b: int)
    requires 1 <= c && s <= c && b <= 1
    ensures Count(Tiles(q, s, c), b) == TileSize(b, q, s, c)
  {
    var s' := if s > 0 then s - 1 else 0;
    TilesSplitCount(q, s, c, b);
    CountAbsent(Tiles(q, s', c - 1), b - 1);
    TileSizeStep(q, s, c, b, 0);
  }

  /** How one bucket's size follows from the first bucket and the rest's sizes. */
  lemma TileSizeStep(q: nat, s: nat, c: nat, b: int, k: nat)
    requires 1 <= c && s <= c
    requires b <= 1 ==> k == 0
    requires b > 1 ==> k == TileSize(b - 1, q, if s > 0 then s - 1 else 0, c - 1)
    ensures TileSize(b, q, s, c) == (if b == 1 then (if s > 0 then q + 1 else q) else 0) + k
  {
  }

  /** Bucket `b` holds the first bucket's rows if it is the first, else bucket `b - 1` of the rest. */
  lemma TilesSplitCount(q: nat, s: nat, c: nat, b: int)
    requires 1 <= c && s <= c
    ensures Count(Tiles(q, s, c), b) ==
      (if b == 1 then (if s > 0 then q + 1 else q) else 0) + Count(Tiles(q, if s > 0 then s - 1 else 0, c - 1), b - 1)
  {
    var first := if s > 0 then q + 1 else q;
    var rest := Tiles(q, if s > 0 then s - 1 else 0, c - 1);
    assert Tiles(q, s, c) == Repeat(1, first) + Shift(rest);
    assert multiset(Repeat(1, first) + Shift(rest)) == multiset(Repeat(1, first)) + multiset(Shift(rest));
    CountRepeat(1, first, b);
    CountShift(rest, b);
  }

  /** NTILE puts exactly `BucketSize(b, R, C)` rows in bucket `b`. */
  lemma NtileCount(r: nat, c: nat, b: int)
    requires c >= 1
    ensures Count(Ntile(r, c), b) == BucketSize(b, r, c)
  {
    TilesCount(r / c, r % c, c, b);
  }

  /** Bucket ids never decrease along the ordering, and rise by at most one from a row to the next. */
  lemma {:induction false} TilesSorted(q: nat, s: nat, c: nat)
    requires s <= c
    ensures forall i, j :: 0 <= i <= j < |Tiles(q, s, c)| ==> Tiles(q, s, c)[i] <= Tiles(q, s, c)[j]
    ensures forall i :: 0 <= i < |Tiles(q, s, c)| - 1 ==> Tiles(q, s, c)[i + 1] <= Tiles(q, s, c)[i] + 1
    decreases c
  {
    if c > 0 {
      var first := if s > 0 then q + 1 else q;
      var s' := if s > 0 then s - 1 else 0;
      TilesSorted(q, s', c - 1);
      var rest := Tiles(q, s', c - 1);
      var ids := Tiles(q, s, c);
      assert ids == Repeat(1, first) + Shift(rest);
      forall i | 0 <= i < |ids| - 1 ensures ids[i + 1] <= ids[i] + 1 {
        if i + 1 > first {
          assert ids[i + 1] == rest[i + 1 - first] + 1 && ids[i] == rest[i - first] + 1;
        } else if i + 1 == first {
          TilesFirst(q, s', c - 1);
          assert ids[i + 1] == rest[0] + 1;
        }
      }
    }
  }

  /** A non-empty layout starts in bucket 1. */
  lemma TilesFirst(q: nat, s: nat, c: nat)
    requires s <= c && |Tiles(q, s, c)| > 0
    ensures Tiles(q, s, c)[0] == 1
  {
  }

  /** Chunk id is non-decreasing along the order and never skips a bucket. */
  lemma NtileSorted(r: nat, c: nat)
    requires c >= 1
    ensures forall i, j :: 0 <= i <= j < r ==> Ntile(r, c)[i] <= Ntile(r, c)[j]
    ensures forall i :: 0 <= i < r - 1 ==> Ntile(r, c)[i + 1] <= Ntile(r, c)[i] + 1
  {
    TilesSorted(r / c, r % c, c);
  }

  /** The first `R mod C` buckets are one row larger than the others, and sizes never increase. */
  lemma BucketsBalanced(r: nat, c: nat, b: int, b': int)
    requires c >= 1 && 1 <= b <= b' <= c
    ensures BucketSize(b', r, c) <= BucketSize(b, r, c) <= BucketSize(b', r, c) + 1
    ensures BucketSize(b, r, c) == r / c + 1 <==> b <= r % c
  {
  }

  /** A bucket is non-empty exactly when its number lies in 1..min(C, R). */
  lemma BucketOccupied(b: int, r: nat, c: nat)
    requires c >= 1
    ensures BucketSize(b, r, c) >= 1 <==> 1 <= b <= c && b <= r
  {
    if 1 <= b <= c && b > r {
      DivModUnique(r, c, 0, r);
    }
    if 1 <= b <= c && b <= r && r / c == 0 {
      DivModUnique(r, c, 0, r);
    }
  }

  /** The total size of buckets 1..k. */
  function SizesUpTo(k: nat, r: nat, c: nat): nat
    requires c >= 1
  {
    if k == 0 then 0 else SizesUpTo(k - 1, r, c) + BucketSize(k, r, c)
  }

  lemma {:induction false} SizesUpToClosed(k: nat, r: nat, c: nat)
    requires 1 <= c && k <= c
    ensures SizesUpTo(k, r, c) == k * (r / c) + (if k <= r % c then k else r % c)
  {
    if k > 0 {
      SizesUpToClosed(k - 1, r, c);
      MulStepDown(k, r / c);
    }
  }

  /** The bucket sizes add up to the row count. */
  lemma SizesSum(r: nat, c: nat)
    requires c >= 1
    ensures SizesUpTo(c, r, c) == r
  {
    SizesUpToClosed(c, r, c);
  }

  /** The bucket ids that occur, in ascending order: what `GROUP BY chunk_id ORDER BY chunk_id` yields. */
  function Occurring(ids: seq<int>, c: nat): (bs: seq<int>)
    ensures forall k :: 0 <= k < |bs| ==> 1 <= bs[k] <= c && bs[k] in ids
    ensures forall b :: 1 <= b <= c && b in ids ==> b in bs
    ensures forall k, l :: 0 <= k < l < |bs| ==> bs[k] < bs[l]
  {
    if c == 0 then []
    else if c in ids then Occurring(ids, c - 1) + [c]
    else Occurring(ids, c - 1)
  }

  /** 1, 2, ..., n. */
  function UpTo(n: nat): (s: seq<int>)
    ensures |s| == n
    ensures forall k :: 0 <= k < n ==> s[k] == k + 1
  {
    seq(n, k => k + 1)
  }

  function Min(a: int, b: int): int {
    if a <= b then a else b
  }

  /** The chunk ids NTILE produces are exactly 1..min(C, R), in order. */
  lemma NtileOccurring(r: nat, c: nat, k: nat)
    requires 1 <= c && k <= c
    ensures Occurring(Ntile(r, c), k) == UpTo(Min(k, r))
  {
    var ids := Ntile(r, c);
    forall b | 1 <= b <= k
      ensures b in ids <==> b <= r
    {
      NtileHas(r, c, b);
    }
    OccurringPrefix(ids, k, r);
  }

  /** When exactly the ids 1..m of 1..k occur, the occurring ones up to k are 1..min(k, m). */
  lemma {:induction false} OccurringPrefix(ids: seq<int>, k: nat, m: nat)
    requires forall b :: 1 <= b <= k ==> (b in ids <==> b <= m)
    ensures Occurring(ids, k) == UpTo(Min(k, m))
  {
    if k > 0 {
      OccurringPrefix(ids, k - 1, m);
      if k <= m {
        assert UpTo(k) == UpTo(k - 1) + [k];
      }
    }
  }

  /** Bucket `k` of 1..C occurs in `NTILE(C)` over R rows exactly when `k <= R`. */
  lemma NtileHas(r: nat, c: nat, k: nat)
    requires 1 <= k <= c
    ensures k in Ntile(r, c) <==> k <= r
  {
    NtileCount(r, c, k);
    BucketOccupied(k, r, c);
    assert Count(Ntile(r, c), k) >= 1 <==> k in multiset(Ntile(r, c));
  }
}
