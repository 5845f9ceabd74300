/**
 `BoundedBook<Capacity>`: the order book of the engine, over arrays updated in
 place. `Valid` ties the bitmaps, summaries and cached bests to the slots, and every
 method is proved to act on `Value` as the ladder operation of `BookSpec` does.
 */
module BoundedBook {
  import opened Types
  import opened Words
  import opened BookIndex
  import Spec = BookSpec
  import Props = BookProperties

  class BoundedBook {
    const cap: nat
    const bids: array<real>
    const asks: array<real>
    const bidBits: array<u64>
    const askBits: array<u64>
    var refTick: int
    var haveRef: bool
    var bidSummary: u64
    var askSummary: u64
    var bestBid: int
    var bestAsk: int
    var rebaseCount: nat

    /** What the book means: its two ladders and its window. */
    ghost function Value(): Spec.Book
      reads this, bids, asks
    {
      Spec.Book(cap, refTick, haveRef, bids[..], asks[..], rebaseCount)
    }

    ghost const Repr: set<object> := {this, bids, asks, bidBits, askBits}

    ghost predicate Shape()
      reads this
    {
      && Spec.CapacityOk(cap)
      && bids.Length == asks.Length == cap
      && bidBits.Length == askBits.Length == cap / 64
      && bids != asks && bidBits != askBits
    }

    /** Bitmaps and summaries index exactly the live slots. */
    ghost predicate Indexed()
      reads this, bids, asks, bidBits, askBits
    {
      && Shape()
      && IndexOk(bids[..], bidBits[..], bidSummary)
      && IndexOk(asks[..], askBits[..], askSummary)
    }

    ghost predicate Valid()
      reads this, bids, asks, bidBits, askBits
    {
      && Indexed()
      && Spec.Wf(Value())
      && bestBid == Spec.HighestLive(bids[..])
      && bestAsk == Spec.LowestLive(asks[..])
    }

    constructor (capacity: nat)
      requires Spec.CapacityOk(capacity)
      ensures Valid() && fresh(Repr)
      ensures cap == capacity && Value() == Spec.Empty(capacity)
    {
      cap := capacity;
      bids := new real[capacity](_ => 0.0);
      asks := new real[capacity](_ => 0.0);
      bidBits := new u64[capacity / 64](_ => 0);
      askBits := new u64[capacity / 64](_ => 0);
      refTick, haveRef := 0, false;
      bidSummary, askSummary := 0, 0;
      bestBid, bestAsk := -1, capacity;
      rebaseCount := 0;
      new;
      EmptyIndex(bids[..], bidBits[..]);
      EmptyIndex(asks[..], askBits[..]);
      assert bids[..] == Spec.Empty(capacity).bids;
      assert asks[..] == Spec.Empty(capacity).asks;
    }

    method Clear()
      requires Valid()
      modifies this, bids, asks, bidBits, askBits
      ensures Valid() && Value() == Spec.Clear(old(Value()))
    {
      hide IndexOk, Spec.HighestLive, Spec.LowestLive, Spec.LowestLiveFrom;
      FillReal(bids);
      FillReal(asks);
      FillWords(bidBits);
      FillWords(askBits);
      bidSummary, askSummary := 0, 0;
      bestBid, bestAsk := -1, cap;
      haveRef := false;
      ghost var r := Spec.Clear(old(Value()));
      assert bids[..] == r.bids && asks[..] == r.asks;
      assert r == Spec.Book(cap, refTick, false, bids[..], asks[..], rebaseCount);
      hide Spec.Clear;
      EmptyIndex(bids[..], bidBits[..]);
      EmptyIndex(asks[..], askBits[..]);
    }

    method SeedReference(price: int)
      requires Valid()
      modifies this
      ensures Valid() && Value() == Spec.Seed(old(Value()), price)
    {
      if haveRef { return; }
      refTick := price;
      haveRef := true;
    }

    method Update(side: Side, price: int, qty: real)
      requires Valid()
      modifies this, bids, asks, bidBits, askBits
      ensures Valid() && Value() == Spec.Update(old(Value()), side, price, qty)
    {
      if !haveRef {
        refTick := price;
        haveRef := true;
      }
      ghost var b0 := Value();
      assert b0 == Spec.Seed(old(Value()), price) && Valid();
      var idx := cap / 2 + (price - refTick);
      if idx < 0 || idx >= cap { return; }
      assert idx == Spec.SlotOf(b0, price);
      if side == Bid { UpdateBid(idx, qty); } else { UpdateAsk(idx, qty); }
      assert Value() == Spec.SetSlot(b0, side, idx, qty);
      RecenterIfNearEdge();
    }

    /** The bid branch of update: slot, bitmap and best index. */
    method UpdateBid(slot: nat, qty: real)
      requires Valid() && haveRef && slot < cap
      modifies this, bids, bidBits
      ensures Valid() && Value() == Spec.SetSlot(old(Value()), Bid, slot, qty)
    {
      hide SummaryOk, BitsOk;
      ghost var was, wasBits := bids[..], bidBits[..];
      bids[slot] := qty;
      assert bids[..] == was[slot := qty];
      if qty > 0.0 {
        SetKeepsIndex(was, wasBits, bidSummary, slot, qty);
        bidSummary := SetBit(bidBits, bidSummary, slot);
        if slot > bestBid { bestBid := slot; }
        HighestAfterSet(was, slot, qty);
      } else {
        ClearKeepsIndex(was, wasBits, bidSummary, slot, qty);
        bidSummary := ClearBit(bidBits, bidSummary, slot);
        if slot == bestBid {
          bestBid := HighestSet(bidBits[..], bidSummary);
          HighestSetIsHighestLive(bids[..], bidBits[..], bidSummary);
        } else {
          HighestAfterClear(was, slot, qty);
        }
      }
    }

    /** The ask branch of update. */
    method UpdateAsk(slot: nat, qty: real)
      requires Valid() && haveRef && slot < cap
      modifies this, asks, askBits
      ensures Valid() && Value() == Spec.SetSlot(old(Value()), Ask, slot, qty)
    {
      hide SummaryOk, BitsOk;
      ghost var was, wasBits := asks[..], askBits[..];
      asks[slot] := qty;
      assert asks[..] == was[slot := qty];
      if qty > 0.0 {
        SetKeepsIndex(was, wasBits, askSummary, slot, qty);
        askSummary := SetBit(askBits, askSummary, slot);
        if slot < bestAsk { bestAsk := slot; }
        LowestAfterSet(was, slot, qty);
      } else {
        ClearKeepsIndex(was, wasBits, askSummary, slot, qty);
        askSummary := ClearBit(askBits, askSummary, slot);
        if slot == bestAsk {
          bestAsk := LowestSet(askBits[..], askSummary);
          LowestSetIsLowestLive(asks[..], askBits[..], askSummary);
        } else {
          LowestAfterClear(was, slot, qty);
        }
      }
    }

    method TopOfBook(side: Side) returns (top: Option<PriceLevel>)
      requires Valid()
      ensures top == Props.Top(Value(), side)
      ensures Props.IsBest(Spec.Levels(Value(), side), side, top)
    {
      Props.TopIsBest(Value(), side);
      if side == Bid {
        if bestBid < 0 { return None; }
        return Some(PriceLevel(refTick + (bestBid - cap / 2), bids[bestBid]));
      } else {
        if bestAsk >= cap { return None; }
        return Some(PriceLevel(refTick + (bestAsk - cap / 2), asks[bestAsk]));
      }
    }

    /** Copies the n best levels into out, best first, and returns how many there were. */
    method Depth(side: Side, out: array<PriceLevel>, n: nat) returns (filled: nat)
      requires Valid() && n <= out.Length
      modifies out
      ensures filled <= n && out[..filled] == Props.Depth(Value(), side, n)
      ensures out[filled..] == old(out[filled..])
    {
      if side == Bid {
        filled := WalkDown(Value(), bids, refTick - cap / 2, bestBid, out, n);
      } else {
        filled := WalkUp(Value(), asks, refTick - cap / 2, bestAsk, out, n);
      }
    }

    method RecenterIfNearEdge()
      requires Valid() && haveRef
      modifies this, bids, asks, bidBits, askBits
      ensures Valid() && Value() == Spec.Recenter(old(Value()))
    {
      hide IndexOk, Spec.Rebase, Spec.AllZero;
      var haveBid := bestBid >= 0;
      var haveAsk := bestAsk < cap;
      if !haveBid && !haveAsk { return; }
      var lo := if haveBid then bestBid else bestAsk;
      var hi := if haveAsk then bestAsk else bestBid;
      if haveBid && haveAsk {
        lo := if bestAsk < bestBid then bestAsk else bestBid;
        hi := if bestBid < bestAsk then bestAsk else bestBid;
      }
      if lo >= cap / 8 && hi < cap - cap / 8 { return; }
      var newRef := refTick + ((lo + hi) / 2 - cap / 2);
      if newRef != refTick { Rebase(newRef); }
    }

    method Rebase(newRef: int)
      requires Valid() && haveRef
      modifies this, bids, asks, bidBits, askBits
      ensures Valid() && Value() == Spec.Rebase(old(Value()), newRef)
    {
      hide IndexOk, Spec.HighestLive, Spec.LowestLive, Spec.LowestLiveFrom, Spec.AllZero;
      ghost var r := Spec.Rebase(Value(), newRef);
      var nb, na := ShiftedCopies(bids, asks, newRef - refTick);
      assert nb[..] == r.bids && na[..] == r.asks;
      assert r == Spec.Book(cap, newRef, true, nb[..], na[..], rebaseCount + 1);
      hide Spec.Shift, Spec.Rebase;
      CopyInto(bids, nb);
      CopyInto(asks, na);
      refTick := newRef;
      RebuildIndex();
      rebaseCount := rebaseCount + 1;
      assert bids[..] == r.bids && asks[..] == r.asks;
    }

    method RebuildIndex()
      requires Shape()
      modifies this`bidSummary, this`askSummary, this`bestBid, this`bestAsk, bidBits, askBits
      ensures Indexed()
      ensures bestBid == Spec.HighestLive(bids[..]) && bestAsk == Spec.LowestLive(asks[..])
    {
      FillWords(bidBits);
      FillWords(askBits);
      bidSummary, askSummary := ScanBoth(bids, asks, bidBits, askBits);
      bestBid := HighestSet(bidBits[..], bidSummary);
      bestAsk := LowestSet(askBits[..], askSummary);
      HighestSetIsHighestLive(bids[..], bidBits[..], bidSummary);
      LowestSetIsLowestLive(asks[..], askBits[..], askSummary);
    }
  }

  /**
   The fuzz test, for every sequence of operations: the levels reported afterwards carry the
   quantities of a plain map, and while every tick stays central they are that map.
   */
  method Replay(capacity: nat, ops: seq<Props.Op>) returns (book: BoundedBook)
    requires Spec.CapacityOk(capacity)
    ensures book.Valid() && fresh(book.Repr)
    ensures forall side :: Props.SubMap(Spec.Levels(book.Value(), side), Props.PlainSide(Props.PlainRun(ops), side))
    ensures Props.InBand(capacity, ops) ==>
      forall side :: Spec.Levels(book.Value(), side) == Props.PlainSide(Props.PlainRun(ops), side)
  {
    book := new BoundedBook(capacity);
    for i := 0 to |ops|
      invariant book.Valid() && fresh(book.Repr)
      invariant book.Value() == Props.Run(Spec.Empty(capacity), ops[..i])
    {
      match ops[i] {
        case OpClear => book.Clear();
        case OpSeed(tick) => book.SeedReference(tick);
        case OpUpdate(side, tick, qty) => book.Update(side, tick, qty);
      }
      assert ops[..i + 1][..i] == ops[..i];
    }
    assert ops[..|ops|] == ops;
    forall side ensures Props.SubMap(Spec.Levels(book.Value(), side), Props.PlainSide(Props.PlainRun(ops), side)) {
      Props.ReportedLevelsAreCurrent(capacity, ops, side);
    }
    if Props.InBand(capacity, ops) {
      forall side ensures Spec.Levels(book.Value(), side) == Props.PlainSide(Props.PlainRun(ops), side) {
        Props.BandedBookIsTheMap(capacity, ops, side);
      }
    }
  }

  /** The level a slot shows, if any. */
  function Shown(tick: int, qty: real): seq<PriceLevel> {
    if qty > 0.0 then [PriceLevel(tick, qty)] else []
  }

  /** The body of depth's loops: a live slot is written to the next free place. */
  method Visit(out: array<PriceLevel>, filled: nat, tick: int, qty: real) returns (next: nat)
    requires filled < out.Length
    modifies out
    ensures filled <= next <= filled + 1
    ensures out[..next] == old(out[..filled]) + Shown(tick, qty)
    ensures out[next..] == old(out[next..])
  {
    next := filled;
    if qty > 0.0 {
      out[next] := PriceLevel(tick, qty);
      next := next + 1;
    }
  }

  /** The bid loop of depth: from the best bid down, slot i holding price base + i. */
  method WalkDown(ghost b: Spec.Book, slots: array<real>, base: int, best: int, out: array<PriceLevel>, n: nat)
    returns (filled: nat)
    requires Spec.Wf(b) && slots[..] == b.bids && base == b.ref - b.cap / 2
    requires best == Spec.HighestLive(b.bids) && n <= out.Length
    modifies out
    ensures filled <= n && out[..filled] == Props.Depth(b, Bid, n)
    ensures out[filled..] == old(out[filled..])
  {
    filled := 0;
    BidLadder(b);
    hide Spec.HighestLive, Props.Down, Props.Ladder, Props.Depth, Shown;
    ghost var done: seq<PriceLevel> := [];
    var i := best;
    while i >= 0 && filled < n
      invariant -1 <= i < slots.Length && filled <= n
      invariant out[..filled] == done && Props.Ladder(b, Bid) == done + Props.Down(b, i + 1)
      invariant out[filled..] == old(out[filled..])
      modifies out
    {
      ghost var x := Shown(base + i, slots[i]);
      assert base + i == Spec.TickOf(b, i) && slots[i] == b.bids[i];
      DownStep(b, i);
      Regroup(done, x, Props.Down(b, i));
      filled := Visit(out, filled, base + i, slots[i]);
      done := done + x;
      i := i - 1;
    }
    DownDone(b, i + 1, done, n);
  }

  /** The ask loop of depth: from the best ask up. */
  method WalkUp(ghost b: Spec.Book, slots: array<real>, base: int, best: int, out: array<PriceLevel>, n: nat)
    returns (filled: nat)
    requires Spec.Wf(b) && slots[..] == b.asks && base == b.ref - b.cap / 2
    requires best == Spec.LowestLive(b.asks) && n <= out.Length
    modifies out
    ensures filled <= n && out[..filled] == Props.Depth(b, Ask, n)
    ensures out[filled..] == old(out[filled..])
  {
    filled := 0;
    AskLadder(b);
    hide Spec.LowestLive, Props.Up, Props.Ladder, Props.Depth, Shown;
    ghost var done: seq<PriceLevel> := [];
    var i := best;
    while i < slots.Length && filled < n
      invariant 0 <= i <= slots.Length && filled <= n
      invariant out[..filled] == done && Props.Ladder(b, Ask) == done + Props.Up(b, i)
      invariant out[filled..] == old(out[filled..])
      modifies out
    {
      ghost var x := Shown(base + i, slots[i]);
      assert base + i == Spec.TickOf(b, i) && slots[i] == b.asks[i];
      UpStep(b, i);
      Regroup(done, x, Props.Up(b, i + 1));
      filled := Visit(out, filled, base + i, slots[i]);
      done := done + x;
      i := i + 1;
    }
    UpDone(b, i, done, n);
  }

  /** The copy loop of rebase: both ladders read `shift` slots further along. */
  method ShiftedCopies(bids: array<real>, asks: array<real>, shift: int) returns (nb: array<real>, na: array<real>)
    requires bids.Length == asks.Length
    ensures fresh(nb) && fresh(na) && nb != na
    ensures nb[..] == Spec.Shift(bids[..], shift) && na[..] == Spec.Shift(asks[..], shift)
  {
    var cap := bids.Length;
    nb := new real[cap](_ => 0.0);
    na := new real[cap](_ => 0.0);
    ghost var sb, sa := Spec.Shift(bids[..], shift), Spec.Shift(asks[..], shift);
    for i := 0 to cap
      invariant forall k :: 0 <= k < i ==> nb[k] == sb[k] && na[k] == sa[k]
      invariant forall k :: i <= k < cap ==> nb[k] == 0.0 && na[k] == 0.0
      modifies nb, na
    {
      var src := i + shift;
      if src >= 0 && src < cap {
        nb[i] := bids[src];
        na[i] := asks[src];
      }
    }
  }

  /** The scan loop of rebuildIndex over cleared bitmaps. */
  method ScanBoth(bids: array<real>, asks: array<real>, bidBits: array<u64>, askBits: array<u64>)
    returns (bidSummary: u64, askSummary: u64)
    requires bidBits != askBits && bids.Length == asks.Length
    requires bids.Length == 64 * bidBits.Length == 64 * askBits.Length <= 4096
    requires forall w :: 0 <= w < bidBits.Length ==> bidBits[w] == 0
    requires forall w :: 0 <= w < askBits.Length ==> askBits[w] == 0
    modifies bidBits, askBits
    ensures IndexOk(bids[..], bidBits[..], bidSummary) && IndexOk(asks[..], askBits[..], askSummary)
  {
    hide IndexOk;
    bidSummary, askSummary := 0, 0;
    EmptyIndex(Scanned(bids[..], 0), bidBits[..]);
    EmptyIndex(Scanned(asks[..], 0), askBits[..]);
    for i := 0 to bids.Length
      invariant IndexOk(Scanned(bids[..], i), bidBits[..], bidSummary)
      invariant IndexOk(Scanned(asks[..], i), askBits[..], askSummary)
      modifies bidBits, askBits
    {
      bidSummary := IndexSlot(bids, bidBits, bidSummary, i);
      askSummary := IndexSlot(asks, askBits, askSummary, i);
    }
    assert Scanned(bids[..], bids.Length) == bids[..] && Scanned(asks[..], asks.Length) == asks[..];
  }

  /** Array assignment. */
  method CopyInto(dst: array<real>, src: array<real>)
    requires dst.Length == src.Length && dst != src
    modifies dst
    ensures dst[..] == src[..]
  {
    forall i | 0 <= i < dst.Length { dst[i] := src[i]; }
  }

  /** std::array::fill on the quantities and on the words. */
  method FillReal(a: array<real>)
    modifies a
    ensures a[..] == seq(a.Length, _ => 0.0)
  {
    forall i | 0 <= i < a.Length { a[i] := 0.0; }
  }

  method FillWords(a: array<u64>)
    modifies a
    ensures forall w :: 0 <= w < a.Length ==> a[w] == 0
  {
    forall w | 0 <= w < a.Length { a[w] := 0; }
  }

  method SetBit(bits: array<u64>, summary: u64, idx: nat) returns (s: u64)
    requires idx < 64 * bits.Length <= 4096
    modifies bits
    ensures bits[..] == SetBits(old(bits[..]), idx) && s == WithBit(summary, idx / 64)
  {
    bits[idx / 64] := WithBit(bits[idx / 64], idx % 64);
    s := WithBit(summary, idx / 64);
  }

  /** One step of the rebuild scan on one side: sets the bit of a live slot. */
  method IndexSlot(slots: array<real>, bits: array<u64>, summary: u64, i: nat) returns (s: u64)
    requires i < slots.Length
    requires IndexOk(Scanned(slots[..], i), bits[..], summary)
    modifies bits
    ensures IndexOk(Scanned(slots[..], i + 1), bits[..], s)
  {
    s := summary;
    if slots[i] > 0.0 {
      ScanLive(slots[..], bits[..], summary, i);
      s := SetBit(bits, summary, i);
    } else {
      ScanDead(slots[..], bits[..], summary, i);
    }
  }

  method ClearBit(bits: array<u64>, summary: u64, idx: nat) returns (s: u64)
    requires idx < 64 * bits.Length <= 4096
    modifies bits
    ensures bits[..] == ClearBits(old(bits[..]), idx)
    ensures s == ClearSummary(bits[..], summary, idx / 64)
  {
    var w := idx / 64;
    bits[w] := WithoutBit(bits[w], idx % 64);
    s := summary;
    if bits[w] == 0 { s := WithoutBit(summary, w); }
  }

  lemma EmptyIndex(slots: seq<real>, bits: seq<u64>)
    requires |slots| == 64 * |bits| && |bits| <= 64
    requires forall i :: 0 <= i < |slots| ==> slots[i] <= 0.0
    requires forall w :: 0 <= w < |bits| ==> bits[w] == 0
    ensures IndexOk(slots, bits, 0)
  {
    ZeroWord(0);
  }

  // ---- how one write moves the best index

  lemma HighestAfterSet(s: seq<real>, k: nat, qty: real)
    requires k < |s| && qty > 0.0
    ensures Spec.HighestLive(s[k := qty]) == if k > Spec.HighestLive(s) then k else Spec.HighestLive(s)
  {
    var r, h := s[k := qty], Spec.HighestLive(s);
    assert r[k] > 0.0;
    if h >= 0 { assert r[h] > 0.0; }
  }

  lemma HighestAfterClear(s: seq<real>, k: nat, qty: real)
    requires k < |s| && qty <= 0.0 && k != Spec.HighestLive(s)
    ensures Spec.HighestLive(s[k := qty]) == Spec.HighestLive(s)
  {
    var r, h := s[k := qty], Spec.HighestLive(s);
    if h >= 0 { assert r[h] > 0.0; }
    assert forall i :: h < i < |r| ==> r[i] <= 0.0;
  }

  lemma LowestAfterSet(s: seq<real>, k: nat, qty: real)
    requires k < |s| && qty > 0.0
    ensures Spec.LowestLive(s[k := qty]) == if k < Spec.LowestLive(s) then k else Spec.LowestLive(s)
  {
    var r, h := s[k := qty], Spec.LowestLive(s);
    assert r[k] > 0.0;
    if h < |s| { assert r[h] > 0.0; }
  }

  lemma LowestAfterClear(s: seq<real>, k: nat, qty: real)
    requires k < |s| && qty <= 0.0 && k != Spec.LowestLive(s)
    ensures Spec.LowestLive(s[k := qty]) == Spec.LowestLive(s)
  {
    var r, h := s[k := qty], Spec.LowestLive(s);
    if h < |s| { assert r[h] > 0.0; }
    assert forall i :: 0 <= i < h ==> r[i] <= 0.0;
  }

  // ---- the depth walk may start at the touch

  lemma {:induction false} SkipDeadBids(b: Spec.Book, i: nat)
    requires Spec.Wf(b) && Spec.HighestLive(b.bids) < i <= b.cap
    ensures Props.Down(b, i) == Props.Down(b, Spec.HighestLive(b.bids) + 1)
  {
    if i > Spec.HighestLive(b.bids) + 1 { SkipDeadBids(b, i - 1); }
  }

  lemma {:induction false} SkipDeadAsks(b: Spec.Book, i: nat)
    requires Spec.Wf(b) && i <= Spec.LowestLive(b.asks)
    ensures Props.Up(b, i) == Props.Up(b, Spec.LowestLive(b.asks))
    decreases b.cap - i
  {
    if i < Spec.LowestLive(b.asks) { SkipDeadAsks(b, i + 1); }
  }

  /** The whole ladder, read from the touch on. */
  lemma BidLadder(b: Spec.Book)
    requires Spec.Wf(b)
    ensures Props.Ladder(b, Bid) == [] + Props.Down(b, Spec.HighestLive(b.bids) + 1)
  {
    SkipDeadBids(b, b.cap);
  }

  lemma AskLadder(b: Spec.Book)
    requires Spec.Wf(b)
    ensures Props.Ladder(b, Ask) == [] + Props.Up(b, Spec.LowestLive(b.asks))
  {
    SkipDeadAsks(b, 0);
  }

  lemma DownStep(b: Spec.Book, i: nat)
    requires Spec.Wf(b) && i < b.cap
    ensures Props.Down(b, i + 1) == Shown(Spec.TickOf(b, i), b.bids[i]) + Props.Down(b, i)
  {
  }

  lemma UpStep(b: Spec.Book, i: nat)
    requires Spec.Wf(b) && i < b.cap
    ensures Props.Up(b, i) == Shown(Spec.TickOf(b, i), b.asks[i]) + Props.Up(b, i + 1)
  {
  }

  lemma Regroup<T>(a: seq<T>, x: seq<T>, rest: seq<T>)
    ensures a + (x + rest) == (a + x) + rest
  {
  }

  /** A walk that has n levels, or no slot left, has the n first levels. */
  lemma DownDone(b: Spec.Book, i: nat, done: seq<PriceLevel>, n: nat)
    requires Spec.Wf(b) && i <= b.cap && Props.Ladder(b, Bid) == done + Props.Down(b, i)
    requires |done| <= n && (i == 0 || |done| == n)
    ensures done == Props.Depth(b, Bid, n)
  {
  }

  lemma UpDone(b: Spec.Book, i: nat, done: seq<PriceLevel>, n: nat)
    requires Spec.Wf(b) && i <= b.cap && Props.Ladder(b, Ask) == done + Props.Up(b, i)
    requires |done| <= n && (i == b.cap || |done| == n)
    ensures done == Props.Depth(b, Ask, n)
  {
  }

  // ---- the rebuild scan

  /** The first i slots, the rest read as empty. */
  ghost function Scanned(s: seq<real>, i: nat): (r: seq<real>)
    requires i <= |s|
    ensures |r| == |s|
  {
    seq(|s|, k requires 0 <= k < |s| => if k < i then s[k] else 0.0)
  }

  lemma ScanLive(s: seq<real>, bits: seq<u64>, summary: u64, i: nat)
    requires i < |s| && s[i] > 0.0 && IndexOk(Scanned(s, i), bits, summary)
    ensures IndexOk(Scanned(s, i + 1), SetBits(bits, i), WithBit(summary, i / 64))
  {
    SetKeepsIndex(Scanned(s, i), bits, summary, i, s[i]);
    assert Scanned(s, i)[i := s[i]] == Scanned(s, i + 1);
  }

  lemma ScanDead(s: seq<real>, bits: seq<u64>, summary: u64, i: nat)
    requires i < |s| && s[i] <= 0.0 && IndexOk(Scanned(s, i), bits, summary)
    ensures IndexOk(Scanned(s, i + 1), bits, summary)
  {
    assert forall k :: 0 <= k < |s| ==> (Scanned(s, i)[k] > 0.0 <==> Scanned(s, i + 1)[k] > 0.0);
  }
}
