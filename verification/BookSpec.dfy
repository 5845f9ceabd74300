/**
 The price ladder as a value: what `BoundedBook` means, without its bitmaps and
 cached bests. `Levels` reads it as a plain tick-to-quantity map.
 */
module BookSpec {
  import opened Types

  /** Two ladders of `cap` slots; slot i of either holds the price ref + i - cap/2. */
  datatype Book = Book(cap: nat, ref: int, haveRef: bool, bids: seq<real>, asks: seq<real>, rebases: nat)

  /**
   The source asks for a power of two with 1 to 64 bitmap words; the argument only
   needs a whole number of words, so it is made for every such capacity.
   */
  predicate CapacityOk(cap: nat) {
    64 <= cap <= 4096 && cap % 64 == 0
  }

  predicate AllZero(s: seq<real>) {
    forall i :: 0 <= i < |s| ==> s[i] == 0.0
  }

  predicate Wf(b: Book) {
    && CapacityOk(b.cap)
    && |b.bids| == b.cap
    && |b.asks| == b.cap
    && (!b.haveRef ==> AllZero(b.bids) && AllZero(b.asks))
  }

  function Slots(b: Book, side: Side): seq<real> {
    if side == Bid then b.bids else b.asks
  }

  /** The slot a tick falls in, possibly outside 0 .. cap. */
  function SlotOf(b: Book, tick: int): int {
    b.cap / 2 + tick - b.ref
  }

  function TickOf(b: Book, slot: int): int {
    b.ref + slot - b.cap / 2
  }

  predicate InWindow(b: Book, tick: int) {
    0 <= SlotOf(b, tick) < b.cap
  }

  /** The live levels of one side, as a map from ticks to quantities. */
  function Levels(b: Book, side: Side): map<int, real>
    requires Wf(b)
  {
    map t: int | TickOf(b, 0) <= t < TickOf(b, b.cap) && Slots(b, side)[SlotOf(b, t)] > 0.0
      :: Slots(b, side)[SlotOf(b, t)]
  }

  // ---- best live slots

  /** Index of the last live slot, or -1. */
  function HighestLive(s: seq<real>): (r: int)
    ensures -1 <= r < |s|
    ensures r >= 0 ==> s[r] > 0.0
    ensures forall i :: r < i < |s| ==> s[i] <= 0.0
  {
    if |s| == 0 then -1
    else if s[|s| - 1] > 0.0 then |s| - 1
    else HighestLive(s[..|s| - 1])
  }

  /** Index of the first live slot at or after i, or |s|. */
  function LowestLiveFrom(s: seq<real>, i: nat): (r: int)
    requires i <= |s|
    ensures i <= r <= |s|
    ensures r < |s| ==> s[r] > 0.0
    ensures forall j :: i <= j < r ==> s[j] <= 0.0
    decreases |s| - i
  {
    if i == |s| || s[i] > 0.0 then i else LowestLiveFrom(s, i + 1)
  }

  function LowestLive(s: seq<real>): (r: int)
    ensures 0 <= r <= |s|
    ensures r < |s| ==> s[r] > 0.0
    ensures forall j :: 0 <= j < r ==> s[j] <= 0.0
  {
    LowestLiveFrom(s, 0)
  }

  // ---- operations

  function Empty(cap: nat): (b: Book)
    requires CapacityOk(cap)
    ensures Wf(b)
  {
    Book(cap, 0, false, seq(cap, _ => 0.0), seq(cap, _ => 0.0), 0)
  }

  function Clear(b: Book): (r: Book)
    requires Wf(b)
    ensures Wf(r)
  {
    Book(b.cap, b.ref, false, seq(b.cap, _ => 0.0), seq(b.cap, _ => 0.0), b.rebases)
  }

  function Seed(b: Book, tick: int): (r: Book)
    requires Wf(b)
    ensures Wf(r)
  {
    if b.haveRef then b else b.(ref := tick, haveRef := true)
  }

  function SetSlot(b: Book, side: Side, slot: int, qty: real): (r: Book)
    requires Wf(b) && b.haveRef && 0 <= slot < b.cap
    ensures Wf(r)
  {
    if side == Bid then b.(bids := b.bids[slot := qty]) else b.(asks := b.asks[slot := qty])
  }

  function Update(b: Book, side: Side, tick: int, qty: real): (r: Book)
    requires Wf(b)
    ensures Wf(r) && r.haveRef && r.cap == b.cap
  {
    var b0 := Seed(b, tick);
    if InWindow(b0, tick) then Recenter(SetSlot(b0, side, SlotOf(b0, tick), qty)) else b0
  }

  function Shift(s: seq<real>, shift: int): (r: seq<real>)
    ensures |r| == |s|
  {
    seq(|s|, i requires 0 <= i < |s| => if 0 <= i + shift < |s| then s[i + shift] else 0.0)
  }

  function Rebase(b: Book, newRef: int): (r: Book)
    requires Wf(b) && b.haveRef
    ensures Wf(r) && r.haveRef && r.cap == b.cap
  {
    var shift := newRef - b.ref;
    b.(ref := newRef, bids := Shift(b.bids, shift), asks := Shift(b.asks, shift), rebases := b.rebases + 1)
  }

  predicate HasBid(b: Book) {
    HighestLive(b.bids) >= 0
  }

  predicate HasAsk(b: Book) {
    LowestLive(b.asks) < |b.asks|
  }

  /** The lower of the two touches, as a slot. */
  function Lo(b: Book): int
    requires Wf(b) && (HasBid(b) || HasAsk(b))
  {
    var bid, ask := HighestLive(b.bids), LowestLive(b.asks);
    if !HasBid(b) then ask else if !HasAsk(b) then bid else if bid < ask then bid else ask
  }

  /** The higher of the two touches, as a slot. */
  function Hi(b: Book): int
    requires Wf(b) && (HasBid(b) || HasAsk(b))
  {
    var bid, ask := HighestLive(b.bids), LowestLive(b.asks);
    if !HasAsk(b) then bid else if !HasBid(b) then ask else if bid < ask then ask else bid
  }

  function Margin(cap: nat): nat {
    cap / 8
  }

  predicate NearEdge(b: Book)
    requires Wf(b) && (HasBid(b) || HasAsk(b))
  {
    !(Lo(b) >= Margin(b.cap) && Hi(b) < b.cap - Margin(b.cap))
  }

  function CenterRef(b: Book): int
    requires Wf(b) && (HasBid(b) || HasAsk(b))
  {
    b.ref + ((Lo(b) + Hi(b)) / 2 - b.cap / 2)
  }

  function Recenter(b: Book): (r: Book)
    requires Wf(b) && b.haveRef
    ensures Wf(r) && r.haveRef && r.cap == b.cap
  {
    if !HasBid(b) && !HasAsk(b) then b
    else if !NearEdge(b) then b
    else if CenterRef(b) != b.ref then Rebase(b, CenterRef(b))
    else b
  }

  // ---- what the operations do to the map

  function Put(m: map<int, real>, tick: int, qty: real): map<int, real> {
    if qty > 0.0 then m[tick := qty] else m - {tick}
  }

  function Restrict(m: map<int, real>, b: Book): map<int, real> {
    map t | t in m && InWindow(b, t) :: m[t]
  }

  /** What the map says of one tick. */
  predicate LevelIs(b: Book, side: Side, t: int)
    requires Wf(b)
  {
    && (t in Levels(b, side) <==> InWindow(b, t) && Slots(b, side)[SlotOf(b, t)] > 0.0)
    && (t in Levels(b, side) ==> Levels(b, side)[t] == Slots(b, side)[SlotOf(b, t)])
  }

  lemma LevelAt(b: Book, side: Side, t: int)
    requires Wf(b)
    ensures LevelIs(b, side, t)
  {
  }

  /** Writing the slot of a tick puts or removes that tick on its side, and leaves the other side alone. */
  lemma LevelsOfSetSlot(b: Book, side: Side, tick: int, qty: real)
    requires Wf(b) && b.haveRef && InWindow(b, tick)
    ensures Levels(SetSlot(b, side, SlotOf(b, tick), qty), side) == Put(Levels(b, side), tick, qty)
    ensures Levels(SetSlot(b, side, SlotOf(b, tick), qty), Opposite(side)) == Levels(b, Opposite(side))
  {
    var r := SetSlot(b, side, SlotOf(b, tick), qty);
    SameSlots(b, r, Opposite(side));
    hide Levels;
    forall t: int ensures LevelIs(b, side, t) && LevelIs(r, side, t) {
      LevelAt(b, side, t);
      LevelAt(r, side, t);
    }
    assert Levels(r, side).Keys == Put(Levels(b, side), tick, qty).Keys;
  }

  lemma SameSlots(b: Book, r: Book, side: Side)
    requires Wf(b) && Wf(r) && b.ref == r.ref && b.cap == r.cap && Slots(b, side) == Slots(r, side)
    ensures Levels(r, side) == Levels(b, side)
  {
    assert Levels(r, side).Keys == Levels(b, side).Keys;
  }

  lemma LevelsOfRebase(b: Book, newRef: int, side: Side)
    requires Wf(b) && b.haveRef
    ensures Levels(Rebase(b, newRef), side) == Restrict(Levels(b, side), Rebase(b, newRef))
  {
    var r := Rebase(b, newRef);
    hide Levels;
    forall t: int ensures LevelIs(b, side, t) && LevelIs(r, side, t) {
      LevelAt(b, side, t);
      LevelAt(r, side, t);
      if InWindow(r, t) { assert SlotOf(r, t) + (newRef - b.ref) == SlotOf(b, t); }
    }
    assert Levels(r, side).Keys == Restrict(Levels(b, side), r).Keys;
  }

  /** A recentre restricts both maps to the window it moves to, and changes nothing else. */
  lemma LevelsOfRecenter(b: Book, side: Side)
    requires Wf(b) && b.haveRef
    ensures Levels(Recenter(b), side) == Restrict(Levels(b, side), Recenter(b))
  {
    if Recenter(b) == b {
      assert Restrict(Levels(b, side), b) == Levels(b, side);
    } else {
      LevelsOfRebase(b, CenterRef(b), side);
    }
  }
}
