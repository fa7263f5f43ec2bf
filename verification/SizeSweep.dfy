/** The arithmetic of the size-driven cleanup (app/cache/sqlite_cache.py): how many of the
    oldest rows the batches delete, as a function of the row sizes, oldest first. */
module SizeSweep {
  import opened Sequences

  function Sum(sizes: seq<nat>): nat {
    if sizes == [] then 0 else sizes[0] + Sum(sizes[1..])
  }

  /** Rows the next batch asks for. */
  function Batch(total: nat, count: nat, limit: int): (r: nat)
    requires count > 0 && total > limit
    ensures 1 <= r <= 100
  {
    var excess := total - limit;
    var average := Max(1, total / count);
    Min(100, Max(1, excess / average + 1))
  }

  /** Rows deleted until the rest fits or nothing is left. */
  function Sweep(sizes: seq<nat>, limit: int): (r: nat)
    ensures r <= |sizes|
    decreases |sizes|
  {
    if Sum(sizes) <= limit || sizes == [] then 0
    else
      var b := Min(Batch(Sum(sizes), |sizes|, limit), |sizes|);
      b + Sweep(sizes[b..], limit)
  }

  /** Length of the shortest oldest-first prefix whose deletion makes the rest fit. */
  function Shortest(sizes: seq<nat>, limit: int): (r: nat)
    ensures r <= |sizes|
  {
    if Sum(sizes) <= limit || sizes == [] then 0 else 1 + Shortest(sizes[1..], limit)
  }

  lemma {:induction false} ShortestIsShortest(sizes: seq<nat>, limit: int)
    ensures var k := Shortest(sizes, limit);
      && (Sum(sizes[k..]) <= limit || k == |sizes|)
      && (forall j :: 0 <= j < k ==> Sum(sizes[j..]) > limit)
  {
    assert sizes[0..] == sizes;
    if Sum(sizes) > limit && sizes != [] {
      ShortestIsShortest(sizes[1..], limit);
      var k := Shortest(sizes, limit);
      assert sizes[1..][k - 1..] == sizes[k..];
      forall j | 0 <= j < k
        ensures Sum(sizes[j..]) > limit
      {
        if j > 0 {
          assert sizes[1..][j - 1..] == sizes[j..];
        }
      }
    }
  }

  /** Deleting `b` rows too many at most, the shortest prefix shrinks by `b`. */
  lemma {:induction false} ShortestDrop(sizes: seq<nat>, limit: int, b: nat)
    requires b <= |sizes|
    ensures Shortest(sizes[b..], limit) == Max(0, Shortest(sizes, limit) - b)
  {
    if b > 0 {
      assert sizes[1..][b - 1..] == sizes[b..];
      if Sum(sizes) <= limit {
        SumSuffix(sizes, b);
      } else {
        ShortestDrop(sizes[1..], limit, b - 1);
      }
    } else {
      assert sizes[0..] == sizes;
    }
  }

  lemma {:induction false} SumSuffix(sizes: seq<nat>, b: nat)
    requires b <= |sizes|
    ensures Sum(sizes[b..]) <= Sum(sizes)
  {
    if b > 0 {
      SumSuffix(sizes[1..], b - 1);
      assert sizes[1..][b - 1..] == sizes[b..];
    } else {
      assert sizes[0..] == sizes;
    }
  }

  /** The sweep reaches the shortest prefix and passes it by at most 99 rows; what is left
      fits, or nothing is left. */
  lemma {:induction false} SweepBounds(sizes: seq<nat>, limit: int)
    ensures var n := Sweep(sizes, limit);
      && Shortest(sizes, limit) <= n <= Shortest(sizes, limit) + 99
      && (Sum(sizes[n..]) <= limit || n == |sizes|)
    decreases |sizes|
  {
    if Sum(sizes) <= limit || sizes == [] {
      assert sizes[0..] == sizes;
    } else {
      var b := Min(Batch(Sum(sizes), |sizes|, limit), |sizes|);
      SweepBounds(sizes[b..], limit);
      ShortestDrop(sizes, limit, b);
      var rest := Sweep(sizes[b..], limit);
      assert sizes[b..][rest..] == sizes[b + rest..];
    }
  }

  // ---------------------------------------------------------- the overshoot

  /** Rows the next batch deletes. */
  function Taken(sizes: seq<nat>, limit: int): (r: nat)
    requires sizes != [] && Sum(sizes) > limit
    ensures 1 <= r <= |sizes|
  {
    Min(Batch(Sum(sizes), |sizes|, limit), |sizes|)
  }

  /** The rows that are left before the last batch. */
  function BeforeLast(sizes: seq<nat>, limit: int): (r: seq<nat>)
    requires sizes != [] && Sum(sizes) > limit
    ensures r != [] && Sum(r) > limit && |r| <= |sizes|
    decreases |sizes|
  {
    var rest := sizes[Taken(sizes, limit)..];
    if rest == [] || Sum(rest) <= limit then sizes else BeforeLast(rest, limit)
  }

  /** It is a state the sweep goes through: the sizes but for an oldest-first prefix. */
  lemma {:induction false} BeforeLastIsSuffix(sizes: seq<nat>, limit: int)
    requires sizes != [] && Sum(sizes) > limit
    ensures var last := BeforeLast(sizes, limit); last == sizes[|sizes| - |last|..]
    decreases |sizes|
  {
    var rest := sizes[Taken(sizes, limit)..];
    if rest != [] && Sum(rest) > limit {
      BeforeLastIsSuffix(rest, limit);
      var n := |BeforeLast(rest, limit)|;
      assert rest[|rest| - n..] == sizes[|sizes| - n..];
    } else {
      assert sizes[0..] == sizes;
    }
  }

  /** What one batch leaves to the others. */
  lemma OneBatchOf(sizes: seq<nat>, limit: int)
    requires sizes != [] && Sum(sizes) > limit
    ensures var b := Taken(sizes, limit);
      && Sweep(sizes, limit) == b + Sweep(sizes[b..], limit)
      && Shortest(sizes[b..], limit) == Max(0, Shortest(sizes, limit) - b)
  {
    SweepUnfold(sizes, limit, Taken(sizes, limit));
    ShortestDrop(sizes, limit, Taken(sizes, limit));
  }

  /** How many rows too many go is decided by the last batch alone. */
  lemma {:induction false} LastBatchDecides(sizes: seq<nat>, limit: int)
    requires sizes != [] && Sum(sizes) > limit
    ensures var last := BeforeLast(sizes, limit);
      && Shortest(last, limit) <= Taken(last, limit)
      && Sweep(sizes, limit) - Shortest(sizes, limit) == Taken(last, limit) - Shortest(last, limit)
    decreases |sizes|
  {
    var rest := sizes[Taken(sizes, limit)..];
    OneBatchOf(sizes, limit);
    if rest != [] && Sum(rest) > limit {
      LastBatchDecides(rest, limit);
    }
  }

  /** No row too many goes exactly when the last row of the last batch had to: without its
      deletion the rest would not fit. */
  lemma ExactSweepIff(sizes: seq<nat>, limit: int)
    requires sizes != [] && Sum(sizes) > limit
    ensures var last := BeforeLast(sizes, limit);
      && last == sizes[|sizes| - |last|..]
      && (Sweep(sizes, limit) == Shortest(sizes, limit) <==> Sum(last[Taken(last, limit) - 1..]) > limit)
  {
    BeforeLastIsSuffix(sizes, limit);
    LastRowDecides(sizes, limit);
  }

  lemma LastRowDecides(sizes: seq<nat>, limit: int)
    requires sizes != [] && Sum(sizes) > limit
    ensures var last := BeforeLast(sizes, limit);
      Sweep(sizes, limit) == Shortest(sizes, limit) <==> Sum(last[Taken(last, limit) - 1..]) > limit
  {
    LastBatchDecides(sizes, limit);
    LastRowNeeded(BeforeLast(sizes, limit), limit);
  }

  lemma LastRowNeeded(last: seq<nat>, limit: int)
    requires last != [] && Sum(last) > limit && Shortest(last, limit) <= Taken(last, limit)
    ensures Sum(last[Taken(last, limit) - 1..]) > limit <==> Shortest(last, limit) == Taken(last, limit)
  {
    ShortestIff(last, limit, Taken(last, limit) - 1);
  }

  /** A proper suffix is too large exactly when the shortest prefix goes beyond it. */
  lemma ShortestIff(sizes: seq<nat>, limit: int, j: nat)
    requires j < |sizes|
    ensures Sum(sizes[j..]) > limit <==> j < Shortest(sizes, limit)
  {
    ShortestIsShortest(sizes, limit);
    var k := Shortest(sizes, limit);
    if k <= j {
      assert sizes[k..][j - k..] == sizes[j..];
      SumSuffix(sizes[k..], j - k);
    }
  }

  function Zeros(k: nat): (r: seq<nat>)
    ensures |r| == k
  {
    seq(k, _ => 0)
  }

  lemma {:induction false} SumZeros(k: nat)
    ensures Sum(Zeros(k)) == 0
  {
    if k > 0 {
      SumZeros(k - 1);
      assert Zeros(k)[1..] == Zeros(k - 1);
    }
  }

  /** Every overshoot up to 99 occurs: one large row and `k` empty ones all go at once,
      although the large one would have been enough. */
  lemma OvershootOccurs(k: nat)
    requires k <= 99
    ensures Shortest([100] + Zeros(k), 0) == 1 && Sweep([100] + Zeros(k), 0) == 1 + k
  {
    var sizes := [100] + Zeros(k);
    SumZeros(k);
    assert sizes[1..] == Zeros(k);
    assert Sum(sizes) == 100;
    BatchCovers(k + 1);
    SweepUnfold(sizes, 0, k + 1);
    assert sizes[k + 1..] == [];
  }

  lemma BatchCovers(n: nat)
    requires 1 <= n <= 100
    ensures Batch(100, n, 0) >= n
  {
    var a := 100 / n;
    assert a * n <= 100;
    QuotientAtLeast(100, a, n);
  }

  lemma QuotientAtLeast(x: nat, a: nat, n: nat)
    requires a > 0 && a * n <= x
    ensures x / a >= n
  {
    var q := x / a;
    Difference(q + 1, n, a);
    assert x < q * a + a && (q + 1) * a == q * a + a;
    MultipleOrder(q + 1, n, a);
  }

  // -------------------------------------------------- rows of one size

  predicate AllEqual(sizes: seq<nat>, z: nat) { forall k :: 0 <= k < |sizes| ==> sizes[k] == z }

  lemma {:induction false} SumEqual(sizes: seq<nat>, z: nat)
    requires AllEqual(sizes, z)
    ensures Sum(sizes) == |sizes| * z
  {
    if sizes != [] {
      SumEqual(sizes[1..], z);
    }
  }

  lemma {:induction false} AtLeastOne(d: nat, z: nat)
    requires d >= 1
    ensures d * z >= z
  {
    if d > 1 {
      AtLeastOne(d - 1, z);
      assert d * z == (d - 1) * z + z;
    }
  }

  lemma Difference(a: int, b: int, z: nat)
    ensures (a - b) * z == a * z - b * z
  {
  }

  lemma MultipleOrder(a: int, b: int, z: nat)
    requires z > 0
    ensures a * z <= b * z <==> a <= b
  {
    Difference(a, b, z);
    Difference(b, a, z);
    if a < b {
      AtLeastOne(b - a, z);
    } else if b < a {
      AtLeastOne(a - b, z);
    }
  }

  lemma DivisionUnique(x: int, z: nat, q: int, r: int)
    requires z > 0 && x == q * z + r && 0 <= r < z
    ensures x / z == q && x % z == r
  {
    var p := x / z;
    assert p * z <= x < p * z + z;
    Difference(p, q, z);
    Difference(q, p, z);
    if q < p {
      AtLeastOne(p - q, z);
    } else if p < q {
      AtLeastOne(q - p, z);
    }
  }

  lemma QuotientShift(x: nat, z: nat, k: nat)
    requires z > 0
    ensures (x - k * z) / z == x / z - k && (x - k * z) % z == x % z
  {
    Difference(x / z, k, z);
    DivisionUnique(x - k * z, z, x / z - k, x % z);
  }

  /** Rows that must go when every row has size `z`: the excess in rows, rounded up. */
  function Needed(excess: nat, z: nat): nat
    requires z > 0
  {
    if excess % z == 0 then excess / z else excess / z + 1
  }

  /** What the batches delete: one row too many for a whole number of rows that is not a
      multiple of 100. */
  function Deleted(excess: nat, z: nat): nat
    requires z > 0
  {
    if excess % z == 0 && (excess / z) % 100 != 0 then excess / z + 1 else Needed(excess, z)
  }

  lemma QuotientBound(x: nat, z: nat, n: nat)
    requires z > 0 && x <= n * z
    ensures 0 <= x / z <= n
    ensures x < (x / z + 1) * z
  {
    var q := x / z;
    assert q * z <= x < q * z + z;
    MultipleOrder(q, n, z);
  }

  lemma AverageOfEqual(n: nat, z: nat, total: nat)
    requires z > 0 && n > 0 && total == n * z
    ensures total / n == z
  {
    DivisionUnique(total, n, z, 0);
  }

  /** The size of a batch over `n` equal rows. */
  lemma EqualBatch(n: nat, z: nat, total: nat, limit: nat)
    requires z > 0 && n > 0 && total / n == z && total > limit
    ensures Batch(total, n, limit) == Min(100, (total - limit) / z + 1)
  {
  }

  /** What is left after deleting `b` of `n` equal rows. */
  lemma EqualRest(sizes: seq<nat>, z: nat, b: nat)
    requires AllEqual(sizes, z) && b <= |sizes|
    ensures Sum(sizes) == |sizes| * z
    ensures AllEqual(sizes[b..], z) && Sum(sizes[b..]) == |sizes| * z - b * z
  {
    SumEqual(sizes, z);
    SumEqual(sizes[b..], z);
    Difference(|sizes|, b, z);
  }

  /** The first batch over equal rows. */
  lemma FirstBatch(sizes: seq<nat>, z: nat, limit: nat)
    requires z > 0 && AllEqual(sizes, z) && Sum(sizes) > limit
    ensures sizes != []
    ensures var q := (Sum(sizes) - limit) / z;
      && 0 <= q <= |sizes|
      && Sum(sizes) - limit < (q + 1) * z
      && Batch(Sum(sizes), |sizes|, limit) == Min(100, q + 1)
  {
    EqualRest(sizes, z, 0);
    AverageOfEqual(|sizes|, z, Sum(sizes));
    QuotientBound(Sum(sizes) - limit, z, |sizes|);
    EqualBatch(|sizes|, z, Sum(sizes), limit);
  }

  lemma SweepUnfold(sizes: seq<nat>, limit: int, b: nat)
    requires sizes != [] && Sum(sizes) > limit && b == Min(Batch(Sum(sizes), |sizes|, limit), |sizes|)
    ensures b <= |sizes| && Sweep(sizes, limit) == b + Sweep(sizes[b..], limit)
  {
  }

  /** One batch is enough. */
  lemma OneBatch(sizes: seq<nat>, z: nat, limit: nat)
    requires z > 0 && AllEqual(sizes, z) && Sum(sizes) > limit
    requires (Sum(sizes) - limit) / z < 100
    ensures Sweep(sizes, limit) == Min(|sizes|, Deleted(Sum(sizes) - limit, z))
  {
    FirstBatch(sizes, z, limit);
    var q := (Sum(sizes) - limit) / z;
    var b := Min(q + 1, |sizes|);
    SweepUnfold(sizes, limit, b);
    EqualRest(sizes, z, b);
    assert Sum(sizes[b..]) <= limit;
    PositiveExcess(Sum(sizes) - limit, z);
  }

  lemma PositiveExcess(excess: nat, z: nat)
    requires z > 0 && excess > 0 && excess / z < 100
    ensures Deleted(excess, z) == excess / z + 1
  {
    var q := excess / z;
    assert excess == q * z + excess % z;
    if excess % z == 0 {
      assert q != 0;
    }
  }

  /** With equal sizes the sweep deletes exactly `Deleted` rows, or all of them if there
      are fewer. */
  lemma {:induction false} SweepEqualSizes(sizes: seq<nat>, z: nat, limit: nat)
    requires z > 0 && AllEqual(sizes, z) && Sum(sizes) > limit
    ensures Sweep(sizes, limit) == Min(|sizes|, Deleted(Sum(sizes) - limit, z))
    decreases |sizes|
  {
    var excess := Sum(sizes) - limit;
    if excess / z < 100 {
      OneBatch(sizes, z, limit);
    } else {
      FirstBatch(sizes, z, limit);
      SweepUnfold(sizes, limit, 100);
      EqualRest(sizes, z, 100);
      var rest := sizes[100..];
      assert Sum(rest) == Sum(sizes) - 100 * z;
      if Sum(rest) > limit {
        SweepEqualSizes(rest, z, limit);
        HundredLess(excess, z);
      } else {
        ExactHundred(excess, z);
      }
    }
  }

  lemma ExactHundred(excess: nat, z: nat)
    requires z > 0 && excess / z >= 100 && excess <= 100 * z
    ensures Deleted(excess, z) == 100
  {
    var q := excess / z;
    assert q * z <= excess;
    MultipleOrder(q, 100, z);
    assert q == 100;
    DivisionUnique(excess, z, 100, excess - 100 * z);
  }

  lemma HundredLess(excess: nat, z: nat)
    requires z > 0 && excess > 100 * z
    ensures Deleted(excess - 100 * z, z) + 100 == Deleted(excess, z)
  {
    QuotientShift(excess, z, 100);
  }

  lemma NeededLess(excess: nat, z: nat)
    requires z > 0 && excess > z
    ensures Needed(excess - z, z) + 1 == Needed(excess, z)
  {
    QuotientShift(excess, z, 1);
  }

  lemma NeededOne(excess: nat, z: nat)
    requires z > 0 && 0 < excess <= z
    ensures Needed(excess, z) == 1
  {
    if excess == z {
      DivisionUnique(excess, z, 1, 0);
    } else {
      DivisionUnique(excess, z, 0, excess);
    }
  }

  /** `Needed` is the shortest prefix that fits. */
  lemma {:induction false} ShortestEqualSizes(sizes: seq<nat>, z: nat, limit: nat)
    requires z > 0 && AllEqual(sizes, z) && Sum(sizes) > limit
    ensures Shortest(sizes, limit) == Needed(Sum(sizes) - limit, z)
  {
    var excess := Sum(sizes) - limit;
    assert Sum(sizes) == z + Sum(sizes[1..]);
    if Sum(sizes[1..]) > limit {
      ShortestEqualSizes(sizes[1..], z, limit);
      NeededLess(excess, z);
    } else {
      NeededOne(excess, z);
    }
  }

  /** Rows of one size: at most one more than the shortest prefix goes, and exactly one
      more when the excess is a whole number of rows, not a multiple of 100, and a row is
      left to delete. */
  lemma EqualSizesOvershoot(sizes: seq<nat>, z: nat, limit: nat)
    requires z > 0 && AllEqual(sizes, z) && Sum(sizes) > limit
    ensures var excess := Sum(sizes) - limit;
      var k := Shortest(sizes, limit);
      Sweep(sizes, limit) == k + if excess % z == 0 && (excess / z) % 100 != 0 && k < |sizes| then 1 else 0
  {
    SweepEqualSizes(sizes, z, limit);
    ShortestEqualSizes(sizes, z, limit);
  }
}
