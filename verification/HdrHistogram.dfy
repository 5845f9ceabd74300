/**
 `HdrHistogram`: log-linear buckets, 32 per power of two. Cell arithmetic first, then
 the histogram as counts over the recorded values, then the class whose percentile
 loop is proved against the true rank statistic.
 */
module HdrHistogram {
  import opened Words

  const SUB_BITS: nat := 5
  const SUB_COUNT: nat := 32
  const NUM_CELLS: nat := 64 * SUB_COUNT

  /** Recorded values are non-negative int64 nanoseconds. */
  const MAX_NS: nat := 0x7FFF_FFFF_FFFF_FFFF

  // ---- cells

  /** v >> k */
  function Shr(v: nat, k: nat): nat {
    QuotientIsNat(v, Pow2(k));
    v / Pow2(k)
  }

  lemma QuotientIsNat(v: nat, p: nat)
    requires p > 0
    ensures v / p >= 0
  {
    MultipleFarFromZero(v / p, p);
    assert v == (v / p) * p + v % p;
  }

  /** Position of the leading set bit. */
  function Exponent(v: u64): (e: nat)
    requires v != 0
    ensures e < 64
  {
    63 - Clz(v)
  }

  /** v lies in [2^e, 2^(e+1)) for its exponent e. */
  lemma ExponentSpec(v: u64)
    requires v != 0
    ensures Pow2(Exponent(v)) <= v < 2 * Pow2(Exponent(v))
  {
    TwoTo64();
    HighestDigit(v, 64, Exponent(v));
  }

  lemma {:induction false} HighestDigit(v: nat, k: nat, e: nat)
    requires v < Pow2(k) && e < k && Bit(v, e)
    requires forall b: nat :: e < b < k ==> !Bit(v, b)
    ensures Pow2(e) <= v < 2 * Pow2(e)
  {
    if k == e + 1 {
      DigitSet(v, e);
    } else {
      assert !Bit(v, k - 1);
      TopDigitClear(v, k);
      HighestDigit(v, k - 1, e);
    }
  }

  lemma {:induction false} DigitSet(v: nat, e: nat)
    requires Bit(v, e)
    ensures v >= Pow2(e)
  {
    if e > 0 { DigitSet(v / 2, e - 1); }
  }

  /** The cell of a value: exact below 32, then octave and linear sub-bucket, clamped to the last cell. */
  function IndexFor(v: u64): (i: nat)
    ensures i < NUM_CELLS
  {
    if v < SUB_COUNT then v
    else
      ExponentAtLeast(v);
      var octave := Exponent(v) - SUB_BITS;
      var sub := Shr(v, octave) - SUB_COUNT;
      var idx := SUB_COUNT * (octave + 1) + sub;
      if idx < NUM_CELLS then idx else NUM_CELLS - 1
  }

  /** The value a cell reports: the middle of its range. */
  function ValueAt(idx: nat): nat {
    if idx < SUB_COUNT then idx
    else
      var rel := idx - SUB_COUNT;
      var octave, sub := rel / SUB_COUNT, rel % SUB_COUNT;
      (SUB_COUNT + sub) * Pow2(octave) + Pow2(octave) / 2
  }

  lemma ShrBounds(v: nat, k: nat)
    ensures Shr(v, k) * Pow2(k) <= v < (Shr(v, k) + 1) * Pow2(k)
  {
  }

  /** For values of 32 and up the sub-bucket lies in 32 .. 63 before its offset is taken. */
  lemma ExponentAtLeast(v: u64)
    requires v >= SUB_COUNT
    ensures Exponent(v) >= SUB_BITS
    ensures SUB_COUNT <= Shr(v, Exponent(v) - SUB_BITS) < 2 * SUB_COUNT
  {
    var e := Exponent(v);
    ExponentSpec(v);
    assert Pow2(5) == 32 && Pow2(4) == 16;
    if e < SUB_BITS { Pow2Mono(e, 4); }
    var o := e - SUB_BITS;
    Pow2Add(SUB_BITS, o);
    ShrBetween(v, Pow2(o));
  }

  lemma ShrBetween(v: nat, p: nat)
    requires p > 0 && 32 * p <= v < 64 * p
    ensures 32 <= v / p < 64
  {
    var q := v / p;
    assert q * p <= v < (q + 1) * p;
    if q < 32 { MulMono(q + 1, 32, p); }
    if q >= 64 { MulMono(64, q, p); }
  }

  lemma MulMono(a: nat, b: nat, p: nat)
    requires a <= b
    ensures a * p <= b * p
  {
  }

  function Octave(v: u64): nat
    requires v >= SUB_COUNT
  {
    ExponentAtLeast(v);
    Exponent(v) - SUB_BITS
  }

  /** The clamp is never taken: every 64-bit value has a cell of its own octave. */
  lemma NeverClamped(v: u64)
    requires v >= SUB_COUNT
    ensures IndexFor(v) == SUB_COUNT * Octave(v) + Shr(v, Octave(v)) < NUM_CELLS - 1
  {
    ExponentAtLeast(v);
  }

  lemma ExponentMono(u: u64, v: u64)
    requires 0 < u <= v
    ensures Exponent(u) <= Exponent(v)
  {
    ExponentSpec(u);
    ExponentSpec(v);
    if Exponent(u) > Exponent(v) { Pow2Mono(Exponent(v) + 1, Exponent(u)); }
  }

  /** Larger values never land in smaller cells. */
  lemma IndexMono(u: u64, v: u64)
    requires u <= v
    ensures IndexFor(u) <= IndexFor(v)
  {
    if v >= SUB_COUNT {
      NeverClamped(v);
      ExponentAtLeast(v);
      if u >= SUB_COUNT {
        NeverClamped(u);
        ExponentAtLeast(u);
        ExponentMono(u, v);
        if Octave(u) == Octave(v) { DivMono(u, v, Pow2(Octave(u))); }
      }
    }
  }

  lemma DivMono(u: nat, v: nat, p: nat)
    requires p > 0 && u <= v
    ensures u / p <= v / p
  {
    if u / p > v / p { MulMono(v / p + 1, u / p, p); }
  }

  lemma {:induction false} ValueAtCell(octave: nat, s: nat)
    requires SUB_COUNT <= s < 2 * SUB_COUNT
    ensures ValueAt(SUB_COUNT * octave + s) == s * Pow2(octave) + Pow2(octave) / 2
  {
    var rel := SUB_COUNT * octave + s - SUB_COUNT;
    ModUnique(rel, SUB_COUNT, octave, s - SUB_COUNT);
  }

  function Dist(a: nat, b: nat): nat {
    if a >= b then a - b else b - a
  }

  /** Decoding the cell of a value misses it by at most one part in 64. */
  lemma DecodeError(v: u64)
    ensures 64 * Dist(ValueAt(IndexFor(v)), v) <= v
  {
    if v >= SUB_COUNT {
      NeverClamped(v);
      ExponentAtLeast(v);
      var o := Octave(v);
      var s, p := Shr(v, o), Pow2(o);
      ValueAtCell(o, s);
      ShrBounds(v, o);
      assert s * p <= v < s * p + p;
      assert 32 * p <= s * p by { MulMono(32, s, p); }
      if o > 0 { assert p == 2 * Pow2(o - 1); }
    }
  }

  /** Decoding any recordable value stays an int64. */
  lemma DecodeFits(v: nat)
    requires v <= MAX_NS
    ensures ValueAt(IndexFor(v)) <= MAX_NS
  {
    if v >= SUB_COUNT {
      NeverClamped(v);
      ExponentAtLeast(v);
      var o := Octave(v);
      ValueAtCell(o, Shr(v, o));
      ExponentSpec(v);
      OctaveAtMost57(v);
      TopCellFits(Shr(v, o), Pow2(o));
    }
  }

  lemma OctaveAtMost57(v: nat)
    requires SUB_COUNT <= v <= MAX_NS
    ensures Octave(v) <= 57 && Pow2(Octave(v)) <= 0x200_0000_0000_0000
  {
    ExponentAtLeast(v);
    ExponentSpec(v);
    TwoTo64();
    assert TWO64 == 2 * Pow2(63);
    if Exponent(v) >= 63 { Pow2Mono(63, Exponent(v)); }
    Pow2Add(7, 57);
    assert Pow2(7) == 128;
    Pow2Mono(Octave(v), 57);
  }

  lemma TopCellFits(s: nat, p: nat)
    requires s <= 63 && p <= 0x200_0000_0000_0000
    ensures s * p + p / 2 <= MAX_NS
  {
    MulMono(s, 63, p);
  }

  /** Decoded values grow with the cell. */
  lemma ValueAtMono(i: nat, j: nat)
    requires i <= j
    ensures ValueAt(i) <= ValueAt(j)
  {
    if SUB_COUNT <= i < j {
      var oi, si := (i - SUB_COUNT) / SUB_COUNT, (i - SUB_COUNT) % SUB_COUNT;
      var oj, sj := (j - SUB_COUNT) / SUB_COUNT, (j - SUB_COUNT) % SUB_COUNT;
      if oi == oj {
        MulMono(SUB_COUNT + si, SUB_COUNT + sj, Pow2(oi));
      } else {
        Pow2Mono(oi + 1, oj);
        MulMono(SUB_COUNT + si, 63, Pow2(oi));
        MulMono(SUB_COUNT, SUB_COUNT + sj, Pow2(oj));
      }
    } else if i < SUB_COUNT <= j {
      MulMono(1, Pow2((j - SUB_COUNT) / SUB_COUNT), SUB_COUNT + (j - SUB_COUNT) % SUB_COUNT);
    }
  }

  // ---- the recorded values

  predicate Recordable(vals: seq<nat>) {
    forall i :: 0 <= i < |vals| ==> vals[i] <= MAX_NS
  }

  function CellCount(vals: seq<nat>, i: nat): nat
    requires Recordable(vals)
  {
    if vals == [] then 0
    else CellCount(vals[..|vals| - 1], i) + if IndexFor(vals[|vals| - 1]) == i then 1 else 0
  }

  function CellsBelow(vals: seq<nat>, i: nat): (c: nat)
    requires Recordable(vals)
    ensures c <= |vals|
  {
    if vals == [] then 0
    else CellsBelow(vals[..|vals| - 1], i) + if IndexFor(vals[|vals| - 1]) < i then 1 else 0
  }

  /** How many recorded values are at most x. */
  function CountLe(vals: seq<nat>, x: int): (c: nat)
    ensures c <= |vals|
  {
    if vals == [] then 0 else CountLe(vals[..|vals| - 1], x) + if vals[|vals| - 1] <= x then 1 else 0
  }

  function MaxOf(vals: seq<nat>): (m: nat)
    ensures forall i :: 0 <= i < |vals| ==> vals[i] <= m
    ensures m == 0 || m in vals
  {
    if vals == [] then 0
    else
      var m := MaxOf(vals[..|vals| - 1]);
      if vals[|vals| - 1] > m then vals[|vals| - 1] else m
  }

  function SumOf(vals: seq<nat>): nat {
    if vals == [] then 0 else SumOf(vals[..|vals| - 1]) + vals[|vals| - 1]
  }

  /** x is the k-th smallest recorded value. */
  predicate IsRank(vals: seq<nat>, k: nat, x: nat) {
    x in vals && CountLe(vals, x - 1) < k <= CountLe(vals, x)
  }

  lemma {:induction false} CountLeMono(vals: seq<nat>, x: int, y: int)
    requires x <= y
    ensures CountLe(vals, x) <= CountLe(vals, y)
  {
    if vals != [] { CountLeMono(vals[..|vals| - 1], x, y); }
  }

  lemma {:induction false} CountAll(vals: seq<nat>, x: int)
    requires forall i :: 0 <= i < |vals| ==> vals[i] <= x
    ensures CountLe(vals, x) == |vals|
  {
    if vals != [] { CountAll(vals[..|vals| - 1], x); }
  }

  lemma {:induction false} CountNone(vals: seq<nat>)
    ensures CountLe(vals, -1) == 0
  {
    if vals != [] { CountNone(vals[..|vals| - 1]); }
  }

  /** A step in the count at x means x was recorded. */
  lemma {:induction false} CountStep(vals: seq<nat>, x: nat)
    requires CountLe(vals, x - 1) < CountLe(vals, x)
    ensures x in vals
  {
    if vals[|vals| - 1] != x { CountStep(vals[..|vals| - 1], x); }
  }

  /** The smallest x from `from` up that at least k recorded values do not exceed. */
  function RankFrom(vals: seq<nat>, k: nat, from: nat): (x: nat)
    requires CountLe(vals, from - 1) < k <= |vals|
    ensures IsRank(vals, k, x)
    decreases MaxOf(vals) + 1 - from
  {
    if CountLe(vals, from) >= k then
      CountStep(vals, from);
      from
    else
      assert from < MaxOf(vals) by { if from >= MaxOf(vals) { CountAll(vals, from); } }
      RankFrom(vals, k, from + 1)
  }

  /** The k-th smallest recorded value. */
  function Rank(vals: seq<nat>, k: nat): (x: nat)
    requires 1 <= k <= |vals|
    ensures IsRank(vals, k, x)
  {
    CountNone(vals);
    RankFrom(vals, k, 0)
  }

  lemma RankUnique(vals: seq<nat>, k: nat, x: nat, y: nat)
    requires IsRank(vals, k, x) && IsRank(vals, k, y)
    ensures x == y
  {
    if x < y { CountLeMono(vals, x, y - 1); }
    if y < x { CountLeMono(vals, y, x - 1); }
  }

  lemma RankMono(vals: seq<nat>, k: nat, m: nat)
    requires 1 <= k <= m <= |vals|
    ensures Rank(vals, k) <= Rank(vals, m)
  {
    var x, y := Rank(vals, k), Rank(vals, m);
    if y < x { CountLeMono(vals, y, x - 1); }
  }

  // ---- counting cells is counting values

  lemma {:induction false} CellsStep(vals: seq<nat>, i: nat)
    requires Recordable(vals)
    ensures CellsBelow(vals, i + 1) == CellsBelow(vals, i) + CellCount(vals, i)
  {
    if vals != [] { CellsStep(vals[..|vals| - 1], i); }
  }

  lemma {:induction false} CellsStart(vals: seq<nat>)
    requires Recordable(vals)
    ensures CellsBelow(vals, 0) == 0
  {
    if vals != [] { CellsStart(vals[..|vals| - 1]); }
  }

  lemma {:induction false} CellsEnd(vals: seq<nat>)
    requires Recordable(vals)
    ensures CellsBelow(vals, NUM_CELLS) == |vals|
  {
    if vals != [] { CellsEnd(vals[..|vals| - 1]); }
  }

  lemma {:induction false} CellsCoverValues(vals: seq<nat>, x: nat)
    requires Recordable(vals) && x <= MAX_NS
    ensures CellsBelow(vals, IndexFor(x)) <= CountLe(vals, x - 1)
    ensures CountLe(vals, x) <= CellsBelow(vals, IndexFor(x) + 1)
  {
    if vals != [] {
      CellsCoverValues(vals[..|vals| - 1], x);
      var v := vals[|vals| - 1];
      if v <= x { IndexMono(v, x); } else { IndexMono(x, v); }
      if v == x { assert IndexFor(v) == IndexFor(x); } else if v > x { IndexMono(x, v); }
    }
  }

  /** The first cell whose running total reaches k is the cell of the k-th smallest value. */
  lemma CellOfRank(vals: seq<nat>, k: nat, i: nat)
    requires Recordable(vals) && 1 <= k <= |vals|
    requires CellsBelow(vals, i) < k <= CellsBelow(vals, i + 1)
    ensures i == IndexFor(Rank(vals, k))
  {
    var x := Rank(vals, k);
    assert x <= MAX_NS;
    CellsCoverValues(vals, x);
    if i < IndexFor(x) { CellsMono(vals, i + 1, IndexFor(x)); }
    if i > IndexFor(x) { CellsMono(vals, IndexFor(x) + 1, i); }
  }

  lemma {:induction false} CellsMono(vals: seq<nat>, i: nat, j: nat)
    requires Recordable(vals) && i <= j
    ensures CellsBelow(vals, i) <= CellsBelow(vals, j)
  {
    if vals != [] { CellsMono(vals[..|vals| - 1], i, j); }
  }

  // ---- percentiles

  /** The rank a percentile asks for, at least 1. */
  function Target(pct: real, n: nat): (k: nat)
    requires pct >= 0.0
    ensures k >= 1
  {
    var t := (pct / 100.0 * n as real).Floor;
    if t == 0 then 1 else t
  }

  /** The reported percentile in terms of the true rank statistic. */
  function Percentile(vals: seq<nat>, pct: real): nat
    requires Recordable(vals) && pct >= 0.0
  {
    if |vals| == 0 then 0 else AtRank(vals, Target(pct, |vals|))
  }

  /** The decoded cell of the k-th smallest value, capped at the maximum. */
  function AtRank(vals: seq<nat>, k: nat): nat
    requires Recordable(vals) && 1 <= k
  {
    if k > |vals| then MaxOf(vals)
    else
      var v := ValueAt(IndexFor(Rank(vals, k)));
      if v < MaxOf(vals) then v else MaxOf(vals)
  }

  lemma TargetInRange(pct: real, n: nat)
    requires 0.0 <= pct <= 100.0 && n >= 1
    ensures 1 <= Target(pct, n) <= n
  {
    assert pct / 100.0 * n as real <= n as real;
  }

  lemma TargetMono(p: real, q: real, n: nat)
    requires 0.0 <= p <= q
    ensures Target(p, n) <= Target(q, n)
  {
    assert p / 100.0 * n as real <= q / 100.0 * n as real;
  }

  /** The target is the whole number of values the percentage makes, and 1 when it makes none. */
  lemma TargetIsShare(pct: real, n: nat)
    requires pct >= 0.0
    ensures var k := Target(pct, n) as real;
      if pct * n as real >= 100.0 then k * 100.0 <= pct * n as real < (k + 1.0) * 100.0 else k == 1.0
  {
    var share := pct / 100.0 * n as real;
    assert share * 100.0 == pct * n as real;
  }

  /**
   x is the value at a percentile, by counts alone. With share pct percent of the values:
   one more than the values below x is within the share, one more than the values up to x
   exceeds it. When the share is less than one value, x is the smallest.
   */
  predicate AtPercentile(vals: seq<nat>, pct: real, x: nat) {
    var share := pct * |vals| as real;
    && x in vals
    && if share >= 100.0
       then 100.0 * (CountLe(vals, x - 1) + 1) as real <= share < 100.0 * (CountLe(vals, x) + 1) as real
       else forall i :: 0 <= i < |vals| ==> x <= vals[i]
  }

  lemma {:induction false} CountSome(vals: seq<nat>, x: nat)
    requires x in vals
    ensures CountLe(vals, x) >= 1
  {
    if vals[|vals| - 1] != x { CountSome(vals[..|vals| - 1], x); }
  }

  lemma {:induction false} CountBelowLeast(vals: seq<nat>, x: nat)
    requires forall i :: 0 <= i < |vals| ==> x <= vals[i]
    ensures CountLe(vals, x - 1) == 0
  {
    if vals != [] { CountBelowLeast(vals[..|vals| - 1], x); }
  }

  /** The counts single out the value of the target rank. */
  lemma AtPercentileIsRank(vals: seq<nat>, pct: real, x: nat)
    requires 0.0 <= pct <= 100.0 && vals != [] && AtPercentile(vals, pct, x)
    ensures IsRank(vals, Target(pct, |vals|), x)
  {
    TargetIsShare(pct, |vals|);
    CountSome(vals, x);
    if pct * |vals| as real < 100.0 { CountBelowLeast(vals, x); }
  }

  /** A percentile misses the true value by at most one part in 64 and never exceeds the maximum. */
  lemma PercentileError(vals: seq<nat>, pct: real, x: nat)
    requires Recordable(vals) && vals != [] && 0.0 <= pct <= 100.0 && AtPercentile(vals, pct, x)
    ensures 64 * Dist(Percentile(vals, pct), x) <= x
    ensures Percentile(vals, pct) <= MaxOf(vals)
  {
    var k := Target(pct, |vals|);
    AtPercentileIsRank(vals, pct, x);
    TargetInRange(pct, |vals|);
    RankUnique(vals, k, x, Rank(vals, k));
    assert x <= MaxOf(vals) <= MAX_NS;
    DecodeError(x);
  }

  /** There always is such a value. */
  lemma PercentileExists(vals: seq<nat>, pct: real)
    requires 0.0 <= pct <= 100.0 && vals != []
    ensures exists x: nat :: AtPercentile(vals, pct, x)
  {
    TargetInRange(pct, |vals|);
    var k := Target(pct, |vals|);
    var x := Rank(vals, k);
    TargetIsShare(pct, |vals|);
    if pct * |vals| as real < 100.0 {
      forall i | 0 <= i < |vals| ensures x <= vals[i] {
        CountSome(vals, vals[i]);
        if vals[i] < x { CountLeMono(vals, vals[i], x - 1); }
      }
    }
    assert AtPercentile(vals, pct, x);
  }

  /** Percentiles never decrease. */
  lemma PercentileMono(vals: seq<nat>, p: real, q: real)
    requires Recordable(vals) && 0.0 <= p <= q
    ensures Percentile(vals, p) <= Percentile(vals, q)
  {
    TargetMono(p, q, |vals|);
    if vals != [] && Target(q, |vals|) <= |vals| {
      var x, y := Rank(vals, Target(p, |vals|)), Rank(vals, Target(q, |vals|));
      RankMono(vals, Target(p, |vals|), Target(q, |vals|));
      IndexMono(x, y);
      ValueAtMono(IndexFor(x), IndexFor(y));
    }
  }

  // ---- the class

  class HdrHistogram {
    const counts: array<nat>
    var count: nat
    var sum: u64
    var max: nat
    ghost var vals: seq<nat>  // everything recorded, clamped at zero

    ghost predicate Valid()
      reads this, counts
    {
      && counts.Length == NUM_CELLS
      && Recordable(vals)
      && (forall i :: 0 <= i < NUM_CELLS ==> counts[i] == CellCount(vals, i))
      && count == |vals|
      && sum == SumOf(vals) % TWO64
      && max == MaxOf(vals)
    }

    constructor ()
      ensures Valid() && fresh(counts) && vals == []
    {
      counts := new nat[NUM_CELLS](_ => 0);
      count, sum, max := 0, 0, 0;
      vals := [];
    }

    method RecordNs(ns: int)
      requires Valid() && ns <= MAX_NS
      modifies this, counts
      ensures Valid() && vals == old(vals) + [if ns < 0 then 0 else ns]
    {
      var v: nat := if ns < 0 then 0 else ns;
      ghost var was := vals;
      vals := was + [v];
      assert vals[..|vals| - 1] == was;
      var i := IndexFor(v);
      counts[i] := counts[i] + 1;
      count := count + 1;
      SumWraps(SumOf(was), v);
      sum := (sum + v) % TWO64;
      if v > max { max := v; }
    }

    /** The percentile loop finds the cell of the target rank. */
    method PercentileNs(pct: real) returns (r: nat)
      requires Valid() && pct >= 0.0
      ensures r == Percentile(vals, pct)
      ensures pct <= 100.0 && vals != [] ==>
        forall x: nat :: AtPercentile(vals, pct, x) ==> 64 * Dist(r, x) <= x && r <= MaxOf(vals)
    {
      var n := count;
      if n == 0 { return 0; }
      var target := (pct / 100.0 * n as real).Floor;
      if target == 0 { target := 1; }
      assert target == Target(pct, n);
      r := ValueOfRank(target);
      if pct <= 100.0 {
        forall x: nat | AtPercentile(vals, pct, x) ensures 64 * Dist(r, x) <= x && r <= MaxOf(vals) {
          PercentileError(vals, pct, x);
        }
      }
    }

    /** The counting loop of percentileNs. */
    method ValueOfRank(target: nat) returns (r: nat)
      requires Valid() && target >= 1
      ensures r == AtRank(vals, target)
    {
      var cum := 0;
      var mx := max;
      CellsStart(vals);
      for i := 0 to NUM_CELLS
        invariant cum == CellsBelow(vals, i) && cum < target
      {
        cum := cum + counts[i];
        CellsStep(vals, i);
        if cum >= target {
          CellOfRank(vals, target, i);
          var v := ValueAt(i);
          return if v < mx then v else mx;
        }
      }
      CellsEnd(vals);
      return mx;
    }
  }

  lemma SumWraps(s: nat, v: nat)
    ensures (s % TWO64 + v) % TWO64 == (s + v) % TWO64
  {
    var q := s / TWO64;
    var t := s % TWO64 + v;
    assert s + v == q * TWO64 + t;
    ModUnique(s + v, TWO64, q + t / TWO64, t % TWO64);
  }
}
