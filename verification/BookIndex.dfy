/**
 The two-level bitmap over one ladder: a bit per slot, and a summary word with a
 bit per bitmap word. `IndexOk` is the relation every operation keeps; under it
 the zero-count lookups find the best live slots.
 */
module BookIndex {
  import opened Words
  import opened BookSpec

  /** A summary digit is set exactly when its bitmap word is non-zero. */
  predicate SummaryOk(bits: seq<u64>, summary: u64) {
    && |bits| <= 64
    && forall w: nat :: w < 64 ==> (Bit(summary, w) <==> w < |bits| && bits[w] != 0)
  }

  /** A bitmap digit is set exactly when its slot holds a positive quantity. */
  predicate BitsOk(slots: seq<real>, bits: seq<u64>) {
    && |slots| == 64 * |bits|
    && forall w: nat, j: nat :: w < |bits| && j < 64 ==> (Bit(bits[w], j) <==> slots[64 * w + j] > 0.0)
  }

  predicate IndexOk(slots: seq<real>, bits: seq<u64>, summary: u64) {
    SummaryOk(bits, summary) && BitsOk(slots, bits)
  }

  function SetBits(bits: seq<u64>, idx: nat): (r: seq<u64>)
    requires idx < 64 * |bits|
    ensures |r| == |bits|
  {
    bits[idx / 64 := WithBit(bits[idx / 64], idx % 64)]
  }

  function ClearBits(bits: seq<u64>, idx: nat): (r: seq<u64>)
    requires idx < 64 * |bits|
    ensures |r| == |bits|
  {
    bits[idx / 64 := WithoutBit(bits[idx / 64], idx % 64)]
  }

  function ClearSummary(bits: seq<u64>, summary: u64, w: nat): u64
    requires w < |bits| <= 64
  {
    if bits[w] == 0 then WithoutBit(summary, w) else summary
  }

  /** Writing a positive quantity and setting its bit keeps the index. */
  lemma SetKeepsIndex(slots: seq<real>, bits: seq<u64>, summary: u64, idx: nat, qty: real)
    requires IndexOk(slots, bits, summary) && idx < |slots| && qty > 0.0
    ensures IndexOk(slots[idx := qty], SetBits(bits, idx), WithBit(summary, idx / 64))
  {
    var w0, j0 := idx / 64, idx % 64;
    assert idx == 64 * w0 + j0;
    forall w: nat, j: nat | w < |bits| && j < 64
      ensures Bit(SetBits(bits, idx)[w], j) <==> slots[idx := qty][64 * w + j] > 0.0
    {
      assert 64 * w + j == idx <==> w == w0 && j == j0;
    }
  }

  /** Writing a dead quantity and clearing its bit keeps the index. */
  lemma ClearKeepsIndex(slots: seq<real>, bits: seq<u64>, summary: u64, idx: nat, qty: real)
    requires IndexOk(slots, bits, summary) && idx < |slots| && qty <= 0.0
    ensures IndexOk(slots[idx := qty], ClearBits(bits, idx), ClearSummary(ClearBits(bits, idx), summary, idx / 64))
  {
    var w0, j0 := idx / 64, idx % 64;
    assert idx == 64 * w0 + j0;
    forall w: nat, j: nat | w < |bits| && j < 64
      ensures Bit(ClearBits(bits, idx)[w], j) <==> slots[idx := qty][64 * w + j] > 0.0
    {
      assert 64 * w + j == idx <==> w == w0 && j == j0;
    }
    if bits[w0] == 0 {
      ZeroWord(bits[w0]);
      ZeroWord(ClearBits(bits, idx)[w0]);
    }
  }

  /** Index of the highest set bit by two leading-zero counts, or -1. */
  function HighestSet(bits: seq<u64>, summary: u64): int
    requires SummaryOk(bits, summary)
  {
    if summary == 0 then -1 else
      var w := 63 - Clz(summary);
      assert Bit(summary, w);
      w * 64 + (63 - Clz(bits[w]))
  }

  /** Index of the lowest set bit by two trailing-zero counts, or the capacity. */
  function LowestSet(bits: seq<u64>, summary: u64): int
    requires SummaryOk(bits, summary)
  {
    if summary == 0 then 64 * |bits| else
      var w := SummaryCtz(bits, summary);
      w * 64 + Ctz(bits[w])
  }

  function SummaryCtz(bits: seq<u64>, summary: u64): (w: nat)
    requires SummaryOk(bits, summary) && summary != 0
    ensures w < |bits| && bits[w] != 0 && forall v: nat :: v < w ==> bits[v] == 0
  {
    CtzBound(summary);
    assert forall v: nat :: v < Ctz(summary) ==> !Bit(summary, v);
    Ctz(summary)
  }

  lemma CtzBound(w: u64)
    requires w != 0
    ensures Ctz(w) < 64
  {
    if Ctz(w) >= 64 { ZeroWord(w); }
  }

  lemma EmptySummary(slots: seq<real>, bits: seq<u64>, summary: u64)
    requires IndexOk(slots, bits, summary) && summary == 0
    ensures forall i :: 0 <= i < |slots| ==> slots[i] <= 0.0
  {
    ZeroWord(summary);
    forall i | 0 <= i < |slots| ensures slots[i] <= 0.0 {
      DeadWord(slots, bits, i / 64, i);
    }
  }

  lemma DeadWord(slots: seq<real>, bits: seq<u64>, w: nat, i: nat)
    requires BitsOk(slots, bits) && i < |slots| && w == i / 64
    requires w < |bits| ==> !Bit(bits[w], i % 64) || bits[w] == 0
    ensures slots[i] <= 0.0
  {
    ZeroWord(bits[w]);
    assert !Bit(bits[w], i % 64);
    assert i == 64 * w + i % 64;
  }

  /** The leading-zero lookup finds the last live slot. */
  lemma HighestSetIsHighestLive(slots: seq<real>, bits: seq<u64>, summary: u64)
    requires IndexOk(slots, bits, summary)
    ensures HighestSet(bits, summary) == HighestLive(slots)
  {
    if summary == 0 {
      EmptySummary(slots, bits, summary);
    } else {
      var w := 63 - Clz(summary);
      assert Bit(summary, w);
      var j := 63 - Clz(bits[w]);
      assert Bit(bits[w], j);
      var h := 64 * w + j;
      assert slots[h] > 0.0;
      forall i | h < i < |slots| ensures slots[i] <= 0.0 {
        assert i / 64 >= w;
        assert i / 64 > w || i % 64 > j;
        DeadWord(slots, bits, i / 64, i);
      }
    }
  }

  /** The trailing-zero lookup finds the first live slot. */
  lemma LowestSetIsLowestLive(slots: seq<real>, bits: seq<u64>, summary: u64)
    requires IndexOk(slots, bits, summary)
    ensures LowestSet(bits, summary) == LowestLive(slots)
  {
    if summary == 0 {
      EmptySummary(slots, bits, summary);
    } else {
      var w := SummaryCtz(bits, summary);
      CtzBound(bits[w]);
      var j := Ctz(bits[w]);
      assert Bit(bits[w], j);
      var l := 64 * w + j;
      assert slots[l] > 0.0;
      forall i | 0 <= i < l ensures slots[i] <= 0.0 {
        assert i / 64 < w || (i / 64 == w && i % 64 < j);
        DeadWord(slots, bits, i / 64, i);
      }
    }
  }
}
