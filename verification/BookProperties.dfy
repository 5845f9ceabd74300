/**
 What the ladder guarantees over whole runs: agreement with a plain map, the
 meaning of the touches and of the depth walk, and what a recentre preserves.
 */
module BookProperties {
  import opened Types
  import opened BookSpec

  // ---- touches

  /** The better of two ticks on a side: bids want high, asks want low. */
  predicate Better(side: Side, a: int, b: int) {
    if side == Bid then a > b else a < b
  }

  function Top(b: Book, side: Side): Option<PriceLevel>
    requires Wf(b)
  {
    if side == Bid then
      var i := HighestLive(b.bids);
      if i < 0 then None else Some(PriceLevel(TickOf(b, i), b.bids[i]))
    else
      var i := LowestLive(b.asks);
      if i >= b.cap then None else Some(PriceLevel(TickOf(b, i), b.asks[i]))
  }

  /** The best entry of a map, stated without reference to slots. */
  predicate IsBest(m: map<int, real>, side: Side, top: Option<PriceLevel>) {
    match top
    case None => m == map[]
    case Some(l) =>
      && l.ticks in m && m[l.ticks] == l.qty
      && forall t :: t in m && t != l.ticks ==> Better(side, l.ticks, t)
  }

  /** The touch is the best live level, and there is none exactly when the side is empty. */
  lemma TopIsBest(b: Book, side: Side)
    requires Wf(b)
    ensures IsBest(Levels(b, side), side, Top(b, side))
  {
    var s := Slots(b, side);
    forall t | t in Levels(b, side)
      ensures Top(b, side).Some? && (t == Top(b, side).value.ticks || Better(side, Top(b, side).value.ticks, t))
    {
      assert s[SlotOf(b, t)] > 0.0;
    }
    if Top(b, side).Some? {
      var i := if side == Bid then HighestLive(s) else LowestLive(s);
      assert SlotOf(b, TickOf(b, i)) == i;
    }
  }

  lemma BestIsUnique(m: map<int, real>, side: Side, x: Option<PriceLevel>, y: Option<PriceLevel>)
    requires IsBest(m, side, x) && IsBest(m, side, y)
    ensures x == y
  {
  }

  /** Equal maps have equal touches, whatever their windows. */
  lemma TopFromLevels(b: Book, r: Book, side: Side)
    requires Wf(b) && Wf(r) && Levels(b, side) == Levels(r, side)
    ensures Top(b, side) == Top(r, side)
  {
    TopIsBest(b, side);
    TopIsBest(r, side);
    BestIsUnique(Levels(b, side), side, Top(b, side), Top(r, side));
  }

  // ---- the depth walk

  /** Live levels of a bid ladder from slot i-1 down to 0. */
  function Down(b: Book, i: nat): seq<PriceLevel>
    requires Wf(b) && i <= b.cap
  {
    if i == 0 then []
    else if b.bids[i - 1] > 0.0 then [PriceLevel(TickOf(b, i - 1), b.bids[i - 1])] + Down(b, i - 1)
    else Down(b, i - 1)
  }

  /** Live levels of an ask ladder from slot i up. */
  function Up(b: Book, i: nat): seq<PriceLevel>
    requires Wf(b) && i <= b.cap
    decreases b.cap - i
  {
    if i == b.cap then []
    else if b.asks[i] > 0.0 then [PriceLevel(TickOf(b, i), b.asks[i])] + Up(b, i + 1)
    else Up(b, i + 1)
  }

  /** All live levels of a side, best first. */
  function Ladder(b: Book, side: Side): seq<PriceLevel>
    requires Wf(b)
  {
    if side == Bid then Down(b, b.cap) else Up(b, 0)
  }

  function Take<T>(s: seq<T>, n: nat): seq<T> {
    if |s| <= n then s else s[..n]
  }

  /** The first n live levels. */
  function Depth(b: Book, side: Side, n: nat): seq<PriceLevel>
    requires Wf(b)
  {
    Take(Ladder(b, side), n)
  }

  predicate BestFirst(side: Side, ls: seq<PriceLevel>) {
    forall i, j :: 0 <= i < j < |ls| ==> Better(side, ls[i].ticks, ls[j].ticks)
  }

  predicate LiveBid(b: Book, l: PriceLevel, hi: int)
    requires Wf(b) && hi <= b.cap
  {
    0 <= SlotOf(b, l.ticks) < hi && b.bids[SlotOf(b, l.ticks)] == l.qty && l.qty > 0.0
  }

  lemma {:induction false} DownSpec(b: Book, i: nat)
    requires Wf(b) && i <= b.cap
    ensures BestFirst(Bid, Down(b, i))
    ensures forall l :: l in Down(b, i) <==> LiveBid(b, l, i)
  {
    if i > 0 {
      DownSpec(b, i - 1);
      var x, rest := PriceLevel(TickOf(b, i - 1), b.bids[i - 1]), Down(b, i - 1);
      forall l ensures LiveBid(b, l, i) <==> (LiveBid(b, l, i - 1) || (l == x && b.bids[i - 1] > 0.0)) {
        if SlotOf(b, l.ticks) == i - 1 { assert l.ticks == x.ticks; }
      }
      forall k | 0 <= k < |rest| ensures x.ticks > rest[k].ticks {
        assert LiveBid(b, rest[k], i - 1);
      }
    }
  }

  predicate LiveAsk(b: Book, l: PriceLevel, lo: int)
    requires Wf(b) && 0 <= lo
  {
    lo <= SlotOf(b, l.ticks) < b.cap && b.asks[SlotOf(b, l.ticks)] == l.qty && l.qty > 0.0
  }

  lemma {:induction false} UpSpec(b: Book, i: nat)
    requires Wf(b) && i <= b.cap
    ensures BestFirst(Ask, Up(b, i))
    ensures forall l :: l in Up(b, i) <==> LiveAsk(b, l, i)
    decreases b.cap - i
  {
    if i < b.cap {
      UpSpec(b, i + 1);
      var x, rest := PriceLevel(TickOf(b, i), b.asks[i]), Up(b, i + 1);
      forall l ensures LiveAsk(b, l, i) <==> (LiveAsk(b, l, i + 1) || (l == x && b.asks[i] > 0.0)) {
        if SlotOf(b, l.ticks) == i { assert l.ticks == x.ticks; }
      }
      forall k | 0 <= k < |rest| ensures x.ticks < rest[k].ticks {
        assert LiveAsk(b, rest[k], i + 1);
      }
    }
  }

  /** The ladder lists exactly the live levels, strictly best first. */
  lemma LadderSpec(b: Book, side: Side)
    requires Wf(b)
    ensures BestFirst(side, Ladder(b, side))
    ensures forall l: PriceLevel :: l in Ladder(b, side) <==> l.ticks in Levels(b, side) && Levels(b, side)[l.ticks] == l.qty
  {
    if side == Bid {
      DownSpec(b, b.cap);
      assert forall l: PriceLevel :: LiveBid(b, l, b.cap) <==> l.ticks in Levels(b, Bid) && Levels(b, Bid)[l.ticks] == l.qty;
    } else {
      UpSpec(b, 0);
      assert forall l: PriceLevel :: LiveAsk(b, l, 0) <==> l.ticks in Levels(b, Ask) && Levels(b, Ask)[l.ticks] == l.qty;
    }
  }

  /** depth(n) returns the n best live levels, or all of them, best first and each once. */
  lemma DepthSpec(b: Book, side: Side, n: nat)
    requires Wf(b)
    ensures var d := Depth(b, side, n);
      && |d| <= n
      && BestFirst(side, d)
      && (forall l :: l in d ==> l.ticks in Levels(b, side) && Levels(b, side)[l.ticks] == l.qty)
      && (|d| < n ==> forall t :: t in Levels(b, side) ==> PriceLevel(t, Levels(b, side)[t]) in d)
      && (forall t, l :: t in Levels(b, side) && PriceLevel(t, Levels(b, side)[t]) !in d && l in d ==>
            Better(side, l.ticks, t))
  {
    LadderSpec(b, side);
    var a, d := Ladder(b, side), Depth(b, side, n);
    forall t, l | t in Levels(b, side) && PriceLevel(t, Levels(b, side)[t]) !in d && l in d
      ensures Better(side, l.ticks, t)
    {
      var x := PriceLevel(t, Levels(b, side)[t]);
      assert x in a;
      var k :| 0 <= k < |a| && a[k] == x;
      var j :| 0 <= j < |d| && d[j] == l;
      assert forall m :: 0 <= m < |d| ==> d[m] == a[m];
      assert a[j] == l;
    }
  }

  /** The head of the ladder is the touch. */
  lemma LadderHead(b: Book, side: Side)
    requires Wf(b)
    ensures Top(b, side) == if Ladder(b, side) == [] then None else Some(Ladder(b, side)[0])
  {
    TopIsBest(b, side);
    LadderSpec(b, side);
    var a := Ladder(b, side);
    var x := if a == [] then None else Some(a[0]);
    assert IsBest(Levels(b, side), side, x) by {
      forall t | t in Levels(b, side)
        ensures x.Some? && (t == x.value.ticks || Better(side, x.value.ticks, t))
      {
        var l := PriceLevel(t, Levels(b, side)[t]);
        assert l in a;
        var k :| 0 <= k < |a| && a[k] == l;
      }
      if x.Some? { assert a[0] in a; }
    }
    BestIsUnique(Levels(b, side), side, Top(b, side), x);
  }

  // ---- the reference: a plain map per side

  datatype Op = OpClear | OpSeed(tick: int) | OpUpdate(side: Side, tick: int, qty: real)

  function Apply(b: Book, op: Op): (r: Book)
    requires Wf(b)
    ensures Wf(r) && r.cap == b.cap
  {
    match op
    case OpClear => Clear(b)
    case OpSeed(t) => Seed(b, t)
    case OpUpdate(s, t, q) => Update(b, s, t, q)
  }

  function Run(b: Book, ops: seq<Op>): (r: Book)
    requires Wf(b)
    ensures Wf(r) && r.cap == b.cap
  {
    if ops == [] then b else Apply(Run(b, ops[..|ops| - 1]), ops[|ops| - 1])
  }

  /** std::map of the last positive quantity per tick. */
  datatype Plain = Plain(bids: map<int, real>, asks: map<int, real>)

  function PlainSide(p: Plain, side: Side): map<int, real> {
    if side == Bid then p.bids else p.asks
  }

  function PlainApply(p: Plain, op: Op): Plain {
    match op
    case OpClear => Plain(map[], map[])
    case OpSeed(_) => p
    case OpUpdate(s, t, q) =>
      if s == Bid then p.(bids := Put(p.bids, t, q)) else p.(asks := Put(p.asks, t, q))
  }

  function PlainRun(ops: seq<Op>): Plain {
    if ops == [] then Plain(map[], map[]) else PlainApply(PlainRun(ops[..|ops| - 1]), ops[|ops| - 1])
  }

  predicate SubMap(a: map<int, real>, b: map<int, real>) {
    forall t :: t in a ==> t in b && a[t] == b[t]
  }

  lemma LevelsOfEmptySlots(b: Book, side: Side)
    requires Wf(b) && AllZero(Slots(b, side))
    ensures Levels(b, side) == map[]
  {
  }

  lemma SeedKeepsLevels(b: Book, t: int, side: Side)
    requires Wf(b)
    ensures Levels(Seed(b, t), side) == Levels(b, side)
  {
    if !b.haveRef {
      LevelsOfEmptySlots(b, side);
      LevelsOfEmptySlots(Seed(b, t), side);
    }
  }

  /** One update on the maps: put or erase when in the window, then restrict to the new window. */
  lemma LevelsOfUpdate(b: Book, s: Side, t: int, q: real, side: Side)
    requires Wf(b)
    ensures var r := Update(b, s, t, q);
      Levels(r, side) ==
        if !InWindow(Seed(b, t), t) then Levels(b, side)
        else Restrict(if side == s then Put(Levels(b, side), t, q) else Levels(b, side), r)
  {
    var b0 := Seed(b, t);
    SeedKeepsLevels(b, t, side);
    if InWindow(b0, t) {
      LevelsOfSetSlot(b0, s, t, q);
      LevelsOfRecenter(SetSlot(b0, s, SlotOf(b0, t), q), side);
      assert side == s || side == Opposite(s);
    }
  }

  /** An update either misses the window and changes nothing, or shows only the updated map. */
  lemma UpdateShows(b: Book, s: Side, t: int, q: real, side: Side)
    requires Wf(b)
    ensures var had, has := Levels(b, side), Levels(Update(b, s, t, q), side);
      || (t !in had && has == had)
      || SubMap(has, if side == s then Put(had, t, q) else had)
  {
    LevelsOfUpdate(b, s, t, q, side);
    SeedKeepsLevels(b, t, side);
    if !InWindow(Seed(b, t), t) { assert t !in Levels(Seed(b, t), side); }
  }

  lemma SubMapAfterPut(had: map<int, real>, has: map<int, real>, ref: map<int, real>, t: int, q: real)
    requires SubMap(had, ref)
    requires (t !in had && has == had) || SubMap(has, Put(had, t, q))
    ensures SubMap(has, Put(ref, t, q))
  {
  }

  lemma UpdateKeepsSubMap(b: Book, p: Plain, s: Side, t: int, q: real, side: Side)
    requires Wf(b)
    requires SubMap(Levels(b, side), PlainSide(p, side))
    ensures SubMap(Levels(Update(b, s, t, q), side), PlainSide(PlainApply(p, OpUpdate(s, t, q)), side))
  {
    UpdateShows(b, s, t, q, side);
    var had, has := Levels(b, side), Levels(Update(b, s, t, q), side);
    if side == s { SubMapAfterPut(had, has, PlainSide(p, side), t, q); }
  }

  /**
   After any sequence of clears, seeds and updates, with any number of recentres
   and ignored updates, every level the book reports is in the reference map with
   the same quantity.
   */
  lemma {:induction false} ReportedLevelsAreCurrent(cap: nat, ops: seq<Op>, side: Side)
    requires CapacityOk(cap)
    ensures SubMap(Levels(Run(Empty(cap), ops), side), PlainSide(PlainRun(ops), side))
  {
    if ops == [] {
      LevelsOfEmptySlots(Empty(cap), side);
    } else {
      var before, op := ops[..|ops| - 1], ops[|ops| - 1];
      var b := Run(Empty(cap), before);
      ReportedLevelsAreCurrent(cap, before, side);
      match op
      case OpClear => LevelsOfEmptySlots(Clear(b), side);
      case OpSeed(t) => SeedKeepsLevels(b, t, side);
      case OpUpdate(s, t, q) => UpdateKeepsSubMap(b, PlainRun(before), s, t, q, side);
    }
  }

  /** The tick that anchors the window: the first one seeded or updated since the last clear. */
  function Anchor(ops: seq<Op>): Option<int> {
    if ops == [] || ops[|ops| - 1].OpClear? then None
    else
      var a := Anchor(ops[..|ops| - 1]);
      if a.Some? then a else Some(ops[|ops| - 1].tick)
  }

  /** Slots RECENTER_MARGIN up to but not including Capacity - RECENTER_MARGIN. */
  predicate CentralSlot(cap: nat, i: int) {
    cap / 8 <= i < cap - cap / 8
  }

  /** Every updated tick lies in a central slot of the window around its anchor. */
  predicate InBand(cap: nat, ops: seq<Op>) {
    ops == [] ||
    (&& InBand(cap, ops[..|ops| - 1])
     && match ops[|ops| - 1]
        case OpUpdate(_, t, _) => CentralSlot(cap, cap / 2 + t - Anchor(ops).value)
        case _ => true)
  }

  /** All live slots are central. */
  predicate Central(b: Book)
    requires Wf(b)
  {
    forall side, i :: 0 <= i < b.cap && Slots(b, side)[i] > 0.0 ==> CentralSlot(b.cap, i)
  }

  lemma CentralStays(b: Book)
    requires Wf(b) && b.haveRef && Central(b)
    ensures Recenter(b) == b
  {
    if HasBid(b) {
      assert Slots(b, Bid)[HighestLive(b.bids)] > 0.0;
      assert CentralSlot(b.cap, HighestLive(b.bids));
    }
    if HasAsk(b) {
      assert Slots(b, Ask)[LowestLive(b.asks)] > 0.0;
      assert CentralSlot(b.cap, LowestLive(b.asks));
    }
  }

  lemma CentralUpdate(b: Book, s: Side, t: int, q: real, side: Side)
    requires Wf(b) && Central(b)
    requires CentralSlot(b.cap, SlotOf(Seed(b, t), t))
    ensures Central(Update(b, s, t, q)) && Update(b, s, t, q).ref == Seed(b, t).ref
    ensures Update(b, s, t, q).rebases == b.rebases
    ensures Levels(Update(b, s, t, q), side) == if side == s then Put(Levels(b, side), t, q) else Levels(b, side)
  {
    var b0 := Seed(b, t);
    SeedKeepsLevels(b, t, side);
    var b1 := SetSlot(b0, s, SlotOf(b0, t), q);
    forall x, i | 0 <= i < b1.cap && Slots(b1, x)[i] > 0.0
      ensures CentralSlot(b1.cap, i)
    {
      if !(x == s && i == SlotOf(b0, t)) { assert Slots(b, x)[i] > 0.0; }
    }
    CentralStays(b1);
    LevelsOfSetSlot(b0, s, t, q);
    assert side == s || side == Opposite(s);
  }

  /** While every tick stays in the central band of its anchor, the book is the reference map. */
  lemma {:induction false} BandedBookIsTheMap(cap: nat, ops: seq<Op>, side: Side)
    requires CapacityOk(cap) && InBand(cap, ops)
    ensures Levels(Run(Empty(cap), ops), side) == PlainSide(PlainRun(ops), side)
    ensures Central(Run(Empty(cap), ops))
    ensures Run(Empty(cap), ops).haveRef == Anchor(ops).Some?
    ensures Anchor(ops).Some? ==> Run(Empty(cap), ops).ref == Anchor(ops).value
    ensures Run(Empty(cap), ops).rebases == 0
  {
    if ops == [] {
      LevelsOfEmptySlots(Empty(cap), side);
    } else {
      var before, op := ops[..|ops| - 1], ops[|ops| - 1];
      var b := Run(Empty(cap), before);
      BandedBookIsTheMap(cap, before, side);
      match op
      case OpClear => LevelsOfEmptySlots(Clear(b), side);
      case OpSeed(t) => SeedKeepsLevels(b, t, side);
      case OpUpdate(s, t, q) => CentralUpdate(b, s, t, q, side);
    }
  }

  // ---- recentring and the touches

  predicate TouchesKept(b: Book, r: Book)
    requires Wf(b) && Wf(r)
  {
    Top(b, Bid) == Top(r, Bid) && Top(b, Ask) == Top(r, Ask)
  }

  /** Ticks between the two touches, zero when there is only one. */
  function Span(b: Book): int
    requires Wf(b) && (HasBid(b) || HasAsk(b))
  {
    Hi(b) - Lo(b)
  }

  lemma KeptIfInWindow(b: Book, side: Side)
    requires Wf(b) && b.haveRef
    requires Top(b, side).Some? ==> InWindow(Recenter(b), Top(b, side).value.ticks)
    ensures Top(Recenter(b), side) == Top(b, side)
  {
    var r := Recenter(b);
    LevelsOfRecenter(b, side);
    TopIsBest(b, side);
    TopIsBest(r, side);
    BestIsUnique(Levels(r, side), side, Top(r, side), Top(b, side));
  }

  lemma CenteredSlots(cap: nat, lo: int, hi: int)
    requires CapacityOk(cap) && 0 <= lo <= hi < cap && hi - lo < cap - 1
    ensures var shift := (lo + hi) / 2 - cap / 2;
      0 <= lo - shift <= hi - shift < cap && (lo - shift + hi - shift) / 2 == cap / 2
  {
  }

  lemma CloseTouchesStay(b: Book)
    requires Wf(b) && b.haveRef && (HasBid(b) || HasAsk(b))
    requires Span(b) < b.cap - 1
    ensures TouchesKept(b, Recenter(b))
  {
    var r := Recenter(b);
    CenteredSlots(b.cap, Lo(b), Hi(b));
    assert forall k :: Lo(b) <= k <= Hi(b) ==> InWindow(r, TickOf(b, k));
    KeptIfInWindow(b, Bid);
    KeptIfInWindow(b, Ask);
  }

  lemma WideTouchIsLost(b: Book)
    requires Wf(b) && b.haveRef && (HasBid(b) || HasAsk(b))
    requires Span(b) >= b.cap - 1
    ensures !TouchesKept(b, Recenter(b))
  {
    var r := Recenter(b);
    assert Lo(b) == 0 && Hi(b) == b.cap - 1;
    assert r.ref == b.ref - 1;
    var side := if HasBid(b) && HighestLive(b.bids) == Hi(b) then Bid else Ask;
    var t := TickOf(b, b.cap - 1);
    assert Top(b, side).value.ticks == t;
    assert t !in Levels(r, side);
    TopIsBest(r, side);
  }

  /** The touches survive a recentre exactly when they are fewer than Capacity - 1 ticks apart. */
  lemma RecenterKeepsTouches(b: Book)
    requires Wf(b) && b.haveRef && (HasBid(b) || HasAsk(b))
    ensures TouchesKept(b, Recenter(b)) <==> Span(b) < b.cap - 1
  {
    if Span(b) < b.cap - 1 { CloseTouchesStay(b); } else { WideTouchIsLost(b); }
  }

  /** Such a recentre leaves nothing for a second one to do: the window cannot thrash. */
  lemma {:induction false} RecenterIsIdempotent(b: Book)
    requires Wf(b) && b.haveRef && (HasBid(b) || HasAsk(b))
    requires Span(b) < b.cap - 1
    ensures Recenter(Recenter(b)) == Recenter(b)
  {
    var r := Recenter(b);
    if r != b {
      RecenterKeepsTouches(b);
      CenteredSlots(b.cap, Lo(b), Hi(b));
      var shift := (Lo(b) + Hi(b)) / 2 - b.cap / 2;
      assert HasBid(r) == HasBid(b) && HasAsk(r) == HasAsk(b);
      assert Lo(r) == Lo(b) - shift && Hi(r) == Hi(b) - shift;
    }
  }

  /** Slots no further apart than this become central when their middle is put in the middle. */
  lemma CenteredAreCentral(cap: nat, lo: int, hi: int)
    requires CapacityOk(cap) && 0 <= lo <= hi < cap && hi - lo <= 3 * cap / 4 - 2
    ensures var shift := (lo + hi) / 2 - cap / 2;
      CentralSlot(cap, lo - shift) && CentralSlot(cap, hi - shift)
  {
  }

  /** The rebase count counts the recentres that moved the window. */
  lemma RebasesCountMoves(b: Book)
    requires Wf(b) && b.haveRef
    ensures Recenter(b).rebases == b.rebases + if Recenter(b).ref != b.ref then 1 else 0
  {
  }

  /** The touches, where there are any, sit in central slots. */
  predicate TouchSlotsCentral(b: Book)
    requires Wf(b)
  {
    && (HasBid(b) ==> CentralSlot(b.cap, HighestLive(b.bids)))
    && (HasAsk(b) ==> CentralSlot(b.cap, LowestLive(b.asks)))
  }

  lemma {:induction false} RecenterCentres(b: Book)
    requires Wf(b) && b.haveRef
    requires HasBid(b) || HasAsk(b) ==> Span(b) <= 3 * b.cap / 4 - 2
    ensures TouchSlotsCentral(Recenter(b))
    ensures TouchesKept(b, Recenter(b))
  {
    if HasBid(b) || HasAsk(b) {
      var r := Recenter(b);
      RecenterKeepsTouches(b);
      CenteredAreCentral(b.cap, Lo(b), Hi(b));
      assert HasBid(r) == HasBid(b) && HasAsk(r) == HasAsk(b);
      if r != b {
        var shift := (Lo(b) + Hi(b)) / 2 - b.cap / 2;
        assert HasBid(b) ==> HighestLive(r.bids) == HighestLive(b.bids) - shift;
        assert HasAsk(b) ==> LowestLive(r.asks) == LowestLive(b.asks) - shift;
      }
    }
  }

  /**
   After any update that lands in the window, touches at most 3*Capacity/4 - 2 ticks apart sit
   in central slots, at the prices and quantities the update gave them.
   */
  lemma {:induction false} LandedUpdateCentres(b: Book, s: Side, t: int, q: real)
    requires Wf(b) && InWindow(Seed(b, t), t)
    requires var w := SetSlot(Seed(b, t), s, SlotOf(Seed(b, t), t), q);
      HasBid(w) || HasAsk(w) ==> Span(w) <= 3 * b.cap / 4 - 2
    ensures TouchSlotsCentral(Update(b, s, t, q))
    ensures TouchesKept(SetSlot(Seed(b, t), s, SlotOf(Seed(b, t), t), q), Update(b, s, t, q))
  {
    RecenterCentres(SetSlot(Seed(b, t), s, SlotOf(Seed(b, t), t), q));
  }

  /** A book whose touches sit in the first and the last slot loses the ask when it recentres. */
  lemma WidestSpreadDropsTheAsk(cap: nat)
    requires CapacityOk(cap)
    ensures var zeros := seq(cap, _ => 0.0);
      var b := Book(cap, 0, true, zeros[0 := 1.0], zeros[cap - 1 := 1.0], 0);
      Wf(b) && Top(b, Ask) == Some(PriceLevel(cap / 2 - 1, 1.0)) && Top(Recenter(b), Ask) == None
  {
    var zeros := seq(cap, _ => 0.0);
    var b := Book(cap, 0, true, zeros[0 := 1.0], zeros[cap - 1 := 1.0], 0);
    assert b.bids[0] > 0.0 && b.asks[cap - 1] > 0.0;
    assert HighestLive(b.bids) == 0;
    assert LowestLive(b.asks) == cap - 1;
    var r := Recenter(b);
    assert r.ref == -1 && r.asks == Shift(b.asks, -1);
    assert forall i :: 0 <= i < cap ==> r.asks[i] == 0.0;
    hide Recenter, Shift, HighestLive, LowestLiveFrom;
  }
}
